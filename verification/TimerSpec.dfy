/** Functional specification of the three timer wheels.  A timer unit is named by a value of type
    U (its address) and belongs to a timer object of type M; `units` holds the fields of every
    allocated unit and each slot is the list of the units it links. */
module TimerSpec {
  import opened TimerArith

  datatype Place = Nowhere | At(level: nat, slot: nat)

  datatype Unit<M> = Unit(member: M, time: int, past: int, location: Place)

  datatype Wheels<U, M> = Wheels(
    interval: int,
    cur: seq<nat>,
    slots: seq<seq<seq<U>>>,
    units: map<U, Unit<M>>,
    timerUnit: map<M, U>)

  predicate Shape<U, M>(w: Wheels<U, M>) {
    && w.interval > 0
    && |w.cur| == 3 && |w.slots| == 3
    && (forall l :: 0 <= l < 3 ==> w.cur[l] < N)
    && (forall l :: 0 <= l < 3 ==> |w.slots[l]| == N)
  }

  predicate InRange(level: nat, slot: nat) {
    level < 3 && slot < N
  }

  function Slot<U, M>(w: Wheels<U, M>, level: nat, slot: nat): seq<U>
    requires Shape(w) && InRange(level, slot)
  {
    w.slots[level][slot]
  }

  function WithSlot<U, M>(w: Wheels<U, M>, level: nat, slot: nat, list: seq<U>): (w': Wheels<U, M>)
    requires Shape(w) && InRange(level, slot)
    ensures Shape(w')
  {
    w.(slots := w.slots[level := w.slots[level][slot := list]])
  }

  /** Every unit but the loose ones is linked in exactly one slot list, the one its location
      names; a loose unit is in none; and no member points at a freed unit. */
  ghost predicate Linked<U, M>(w: Wheels<U, M>, loose: set<U>)
    requires Shape(w)
  {
    && (forall u | u in w.units && u !in loose :: Placed(w, u))
    && AllListed(w, loose) && NoneTwice(w)
    && (forall m | m in w.timerUnit :: w.timerUnit[m] in w.units && w.units[w.timerUnit[m]].member == m)
  }

  /** What a slot links is a unit, not a loose one, with that slot as its location. */
  ghost predicate AllListed<U, M>(w: Wheels<U, M>, loose: set<U>)
    requires Shape(w)
  {
    forall l: nat, s: nat, k: nat {:trigger Slot(w, l, s)[k]} :: InRange(l, s) && k < |Slot(w, l, s)| ==>
      var u := Slot(w, l, s)[k]; u in w.units && u !in loose && w.units[u].location == At(l, s)
  }

  ghost predicate NoneTwice<U, M>(w: Wheels<U, M>)
    requires Shape(w)
  {
    forall l: nat, s: nat, j: nat, k: nat {:trigger Slot(w, l, s)[j], Slot(w, l, s)[k]} ::
      InRange(l, s) && j < k < |Slot(w, l, s)| ==> Slot(w, l, s)[j] != Slot(w, l, s)[k]
  }

  ghost predicate Placed<U, M>(w: Wheels<U, M>, u: U)
    requires Shape(w) && u in w.units
  {
    var p := w.units[u].location;
    p.At? && InRange(p.level, p.slot) && u in Slot(w, p.level, p.slot)
  }

  // ---- the operations ----

  /** Insert at the head of the slot list its location names; `unit` gives u's fields. */
  function Link<U, M>(w: Wheels<U, M>, u: U, unit: Unit<M>): (w': Wheels<U, M>)
    requires Shape(w) && unit.location.At? && InRange(unit.location.level, unit.location.slot)
    ensures Shape(w')
  {
    var p := unit.location;
    WithSlot(w, p.level, p.slot, [u] + Slot(w, p.level, p.slot)).(units := w.units[u := unit])
  }

  /** Pop the head of a slot list; its location is cleared. */
  function Pop<U, M>(w: Wheels<U, M>, level: nat, slot: nat): (w': Wheels<U, M>)
    requires Shape(w) && InRange(level, slot) && Slot(w, level, slot) != []
    requires Slot(w, level, slot)[0] in w.units
    ensures Shape(w')
  {
    var u := Slot(w, level, slot)[0];
    WithSlot(w, level, slot, Slot(w, level, slot)[1..])
      .(units := w.units[u := w.units[u].(location := Nowhere)])
  }

  /** Freeing a unit: its member's pointer is cleared whatever it points at. */
  function Free<U, M>(w: Wheels<U, M>, u: U): (w': Wheels<U, M>)
    requires u in w.units
  {
    w.(units := w.units - {u}, timerUnit := w.timerUnit - {w.units[u].member})
  }

  function Ahead(cur: nat, off: nat): (slot: nat)
    ensures slot < N
  {
    (cur + off) % N
  }

  /** AddTimer(TimerUnit*) of the wheel at `level`, as it changes the unit's fields. */
  function Landing<M>(i: int, cur: seq<nat>, level: nat, unit: Unit<M>): (r: Unit<M>)
    requires i > 0 && |cur| == 3 && level < 3
    ensures r.location.At? && InRange(r.location.level, r.location.slot)
    ensures r.member == unit.member && r.time == unit.time
    decreases 3 - level
  {
    var iv := LevelInterval(i, level);
    var rest := unit.time - unit.past;
    if rest < N * iv || level == 2 then
      var off := SlotOffset(rest, iv);
      unit.(location := At(level, Ahead(cur[level], off)), past := unit.past + Times(off - 1, iv))
    else Landing(i, cur, level + 1, unit.(past := unit.past + Times(N - cur[level], iv)))
  }

  function AddUnit<U, M>(w: Wheels<U, M>, level: nat, u: U): (w': Wheels<U, M>)
    requires Shape(w) && level < 3 && u in w.units
    ensures Shape(w')
  {
    Link(w, u, Landing(w.interval, w.cur, level, w.units[u]))
  }

  /** Where AddTimer(obj, time) puts the new unit; a direct insertion leaves past_time_ alone. */
  function FirstLanding<M>(i: int, cur: seq<nat>, m: M, time: int): (r: Unit<M>)
    requires i > 0 && |cur| == 3
    ensures r.location.At? && InRange(r.location.level, r.location.slot)
    ensures r.member == m && r.time == time
  {
    if time < N * i then Unit(m, time, 0, At(0, Ahead(cur[0], SlotOffset(time, i))))
    else Landing(i, cur, 1, Unit(m, time, Times(N - cur[0], i), Nowhere))
  }

  /** AddTimer(obj, time): `u` is the address of the new unit. */
  function AddTimer<U, M>(w: Wheels<U, M>, u: U, m: M, time: int): (w': Wheels<U, M>)
    requires Shape(w)
    ensures Shape(w')
  {
    if time <= 0 then w
    else Link(w, u, FirstLanding(w.interval, w.cur, m, time)).(timerUnit := w.timerUnit[m := u])
  }

  /** The test of Tick on the upper wheels: act now rather than move down. */
  predicate ActsNow<U, M>(w: Wheels<U, M>, level: nat, u: U)
    requires Shape(w) && level < 3 && u in w.units
  {
    var rest := w.units[u].time - w.units[u].past;
    level == 0 || rest <= 0 || TruncMod(rest, N * LevelInterval(w.interval, level)) == 0
  }

  /** One round of the pop loop of Tick. */
  function PopStep<U, M>(w: Wheels<U, M>, level: nat): (r: (Wheels<U, M>, seq<U>))
    requires Shape(w) && level < 3
    requires Slot(w, level, w.cur[level]) != [] && Slot(w, level, w.cur[level])[0] in w.units
    ensures Shape(r.0)
  {
    var u := Slot(w, level, w.cur[level])[0];
    var w1 := Pop(w, level, w.cur[level]);
    if ActsNow(w1, level, u) then (Free(w1, u), [u]) else (AddUnit(w1, level - 1, u), [])
  }

  function Advance<U, M>(w: Wheels<U, M>, level: nat): (w': Wheels<U, M>)
    requires Shape(w) && level < 3
    ensures Shape(w')
  {
    w.(cur := w.cur[level := (w.cur[level] + 1) % N])
  }

  function IndexOf<U(==)>(s: seq<U>, u: U): (i: nat)
    requires u in s
    ensures i < |s| && s[i] == u
  {
    if s[0] == u then 0 else 1 + IndexOf(s[1..], u)
  }

  function Without<U(==)>(s: seq<U>, u: U): (r: seq<U>)
    requires u in s
  {
    var i := IndexOf(s, u);
    s[..i] + s[i + 1..]
  }

  function Unlink<U, M>(w: Wheels<U, M>, u: U): (w': Wheels<U, M>)
    requires Shape(w) && u in w.units && Placed(w, u)
    ensures Shape(w')
  {
    var p := w.units[u].location;
    WithSlot(w, p.level, p.slot, Without(Slot(w, p.level, p.slot), u))
      .(units := w.units[u := w.units[u].(location := Nowhere)])
  }

  /** DelTimer(obj): unlink and free the unit its member records, if any. */
  function DelTimer<U, M>(w: Wheels<U, M>, m: M): (w': Wheels<U, M>)
    requires Shape(w) && Linked(w, {})
    ensures Shape(w')
  {
    if m in w.timerUnit then
      assert Placed(w, w.timerUnit[m]);
      Free(Unlink(w, w.timerUnit[m]), w.timerUnit[m])
    else w
  }

  // ---- what the operations keep ----

  lemma LinkLinks<U, M>(w: Wheels<U, M>, u: U, unit: Unit<M>)
    requires Shape(w) && Linked(w, {u})
    requires unit.location.At? && InRange(unit.location.level, unit.location.slot)
    requires u in w.units ==> unit.member == w.units[u].member
    ensures Linked(Link(w, u, unit), {})
  {
    hide AllListed, NoneTwice, Link, Placed;
    LinkSlots(w, u, unit);
    LinkListed(w, u, unit);
    LinkOnce(w, u, unit);
    forall v | v in w.units || v == u ensures Placed(Link(w, u, unit), v) {
      LinkPlaced(w, u, unit, v);
    }
  }

  /** Only one list changes: it gets u in front. */
  lemma LinkSlots<U, M>(w: Wheels<U, M>, u: U, unit: Unit<M>)
    requires Shape(w) && unit.location.At? && InRange(unit.location.level, unit.location.slot)
    ensures var w' := Link(w, u, unit); var p := unit.location;
            && w'.units == w.units[u := unit] && w'.timerUnit == w.timerUnit
            && forall l: nat, s: nat | InRange(l, s) ::
                 Slot(w', l, s) == if l == p.level && s == p.slot then [u] + Slot(w, l, s) else Slot(w, l, s)
  {
  }

  lemma LinkListed<U, M>(w: Wheels<U, M>, u: U, unit: Unit<M>)
    requires Shape(w) && unit.location.At? && InRange(unit.location.level, unit.location.slot)
    requires AllListed(w, {u})
    ensures AllListed(Link(w, u, unit), {})
  {
    hide Link;
    LinkSlots(w, u, unit);
    var w' := Link(w, u, unit);
    forall l: nat, s: nat, k: nat {:trigger Slot(w', l, s)[k]} | InRange(l, s) && k < |Slot(w', l, s)|
      ensures var v := Slot(w', l, s)[k]; v in w'.units && w'.units[v].location == At(l, s)
    {
      var v := Slot(w', l, s)[k];
      if v != u {
        assert v in Slot(w, l, s);
        var j: nat :| j < |Slot(w, l, s)| && Slot(w, l, s)[j] == v;
      }
    }
  }

  lemma LinkOnce<U, M>(w: Wheels<U, M>, u: U, unit: Unit<M>)
    requires Shape(w) && unit.location.At? && InRange(unit.location.level, unit.location.slot)
    requires AllListed(w, {u}) && NoneTwice(w)
    ensures NoneTwice(Link(w, u, unit))
  {
    hide Link;
    LinkSlots(w, u, unit);
    var w' := Link(w, u, unit);
    var p := unit.location;
    var list := Slot(w, p.level, p.slot);
    assert forall k: nat | k < |list| :: list[k] != u;
    forall l: nat, s: nat, j: nat, k: nat {:trigger Slot(w', l, s)[j], Slot(w', l, s)[k]} |
      InRange(l, s) && j < k < |Slot(w', l, s)| ensures Slot(w', l, s)[j] != Slot(w', l, s)[k]
    {
      if l == p.level && s == p.slot {
        assert Slot(w', l, s)[k] == list[k - 1];
        if j > 0 { assert Slot(w', l, s)[j] == list[j - 1]; }
      }
    }
  }

  lemma LinkPlaced<U, M>(w: Wheels<U, M>, u: U, unit: Unit<M>, v: U)
    requires Shape(w) && unit.location.At? && InRange(unit.location.level, unit.location.slot)
    requires v == u || (v in w.units && Placed(w, v))
    ensures v in Link(w, u, unit).units && Placed(Link(w, u, unit), v)
  {
    hide Link;
    LinkSlots(w, u, unit);
  }

  lemma PopUnlinks<U, M>(w: Wheels<U, M>, level: nat, slot: nat)
    requires Shape(w) && InRange(level, slot) && Slot(w, level, slot) != [] && Linked(w, {})
    ensures Slot(w, level, slot)[0] in w.units
    ensures Linked(Pop(w, level, slot), {Slot(w, level, slot)[0]})
  {
    var u := Slot(w, level, slot)[0];
    var w' := Pop(w, level, slot);
    assert forall k: nat :: k < |Slot(w', level, slot)| ==> Slot(w', level, slot)[k] == Slot(w, level, slot)[k + 1];
    assert forall l: nat, s: nat :: InRange(l, s) && (l != level || s != slot) ==> Slot(w', l, s) == Slot(w, l, s);
    forall v | v in w'.units && v !in {u} ensures Placed(w', v) {
      assert Placed(w, v);
    }
  }

  lemma FreeKeeps<U, M>(w: Wheels<U, M>, u: U)
    requires Shape(w) && u in w.units && Linked(w, {u})
    ensures Linked(Free(w, u), {})
  {
    var w' := Free(w, u);
    assert forall l: nat, s: nat :: InRange(l, s) ==> Slot(w', l, s) == Slot(w, l, s);
    forall v | v in w'.units ensures Placed(w', v) {
      assert Placed(w, v);
    }
  }

  lemma UnlinkUnlinks<U, M>(w: Wheels<U, M>, u: U)
    requires Shape(w) && u in w.units && Linked(w, {}) && Placed(w, u)
    ensures Linked(Unlink(w, u), {u})
  {
    hide AllListed, NoneTwice, Unlink;
    UnlinkSlots(w, u);
    UnlinkListed(w, u);
    UnlinkOnce(w, u);
  }

  /** Only one list changes: it loses u. */
  lemma UnlinkSlots<U, M>(w: Wheels<U, M>, u: U)
    requires Shape(w) && u in w.units && Placed(w, u)
    ensures var w' := Unlink(w, u); var p := w.units[u].location;
            && w'.units == w.units[u := w.units[u].(location := Nowhere)] && w'.timerUnit == w.timerUnit
            && (forall l: nat, s: nat | InRange(l, s) ::
                  Slot(w', l, s) == if l == p.level && s == p.slot then Without(Slot(w, l, s), u) else Slot(w, l, s))
            && forall v | v in w.units && v != u && Placed(w, v) :: Placed(w', v)
  {
    hide Without;
    var w', p := Unlink(w, u), w.units[u].location;
    WithoutIs(Slot(w, p.level, p.slot), u);
    assert forall l: nat, s: nat | InRange(l, s) ::
        Slot(w', l, s) == if l == p.level && s == p.slot then Without(Slot(w, l, s), u) else Slot(w, l, s);
  }

  lemma UnlinkListed<U, M>(w: Wheels<U, M>, u: U)
    requires Shape(w) && u in w.units && Placed(w, u) && AllListed(w, {}) && NoneTwice(w)
    ensures AllListed(Unlink(w, u), {u})
  {
    hide Unlink, Without, IndexOf;
    UnlinkSlots(w, u);
    var w', p := Unlink(w, u), w.units[u].location;
    var list, i := Slot(w, p.level, p.slot), IndexOf(Slot(w, p.level, p.slot), u);
    WithoutIs(list, u);
    forall l: nat, s: nat, k: nat {:trigger Slot(w', l, s)[k]} | InRange(l, s) && k < |Slot(w', l, s)|
      ensures var v := Slot(w', l, s)[k]; v in w'.units && v != u && w'.units[v].location == At(l, s)
    {
      if l == p.level && s == p.slot {
        var j: nat := if k < i then k else k + 1;
        assert Slot(w', l, s)[k] == Slot(w, l, s)[j];
        assert Slot(w, l, s)[i] == u;
      } else {
        assert Slot(w', l, s)[k] == Slot(w, l, s)[k];
      }
    }
  }

  lemma UnlinkOnce<U, M>(w: Wheels<U, M>, u: U)
    requires Shape(w) && u in w.units && Placed(w, u) && NoneTwice(w)
    ensures NoneTwice(Unlink(w, u))
  {
    hide Unlink, Without, IndexOf;
    UnlinkSlots(w, u);
    var w', p := Unlink(w, u), w.units[u].location;
    var list, i := Slot(w, p.level, p.slot), IndexOf(Slot(w, p.level, p.slot), u);
    WithoutIs(list, u);
    forall l: nat, s: nat, j: nat, k: nat {:trigger Slot(w', l, s)[j], Slot(w', l, s)[k]} |
      InRange(l, s) && j < k < |Slot(w', l, s)| ensures Slot(w', l, s)[j] != Slot(w', l, s)[k]
    {
      if l == p.level && s == p.slot {
        assert Slot(w', l, s)[j] == Slot(w, l, s)[if j < i then j else j + 1];
        assert Slot(w', l, s)[k] == Slot(w, l, s)[if k < i then k else k + 1];
      } else {
        assert Slot(w', l, s)[j] == Slot(w, l, s)[j] && Slot(w', l, s)[k] == Slot(w, l, s)[k];
      }
    }
  }

  lemma WithoutIs<U>(s: seq<U>, u: U)
    requires u in s
    ensures var i := IndexOf(s, u);
            && |Without(s, u)| == |s| - 1
            && forall k: nat | k < |s| - 1 :: Without(s, u)[k] == s[if k < i then k else k + 1]
    ensures forall v | v in s && v != u :: v in Without(s, u)
  {
    var i := IndexOf(s, u);
    forall v | v in s && v != u ensures v in Without(s, u) {
      var k :| 0 <= k < |s| && s[k] == v;
      assert Without(s, u)[if k < i then k else k - 1] == v;
    }
  }

  lemma DelTimerKeeps<U, M>(w: Wheels<U, M>, m: M)
    requires Shape(w) && Linked(w, {})
    ensures Linked(DelTimer(w, m), {})
  {
    if m in w.timerUnit {
      var u := w.timerUnit[m];
      assert Placed(w, u);
      UnlinkUnlinks(w, u);
      FreeKeeps(Unlink(w, u), u);
    }
  }
}
