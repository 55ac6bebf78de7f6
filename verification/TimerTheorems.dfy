/** The timer wheels over whole runs: every step keeps the invariant of TimerRun, so every timer
    that is not deleted acts exactly once, at the tick FiringTick gives for the cursors it was
    added under, whatever else is added, deleted or cascaded meanwhile. */
module TimerTheorems {
  import opened TimerArith
  import opened TimerSpec
  import opened TimerRun

  lemma InitInv<U, M>(s: State<U, M>)
    requires Init(s)
    ensures Inv(s)
  {
    assert forall l: nat, t: nat :: InRange(l, t) ==> Slot(s.w, l, t) == [];
  }

  lemma AddKeepsInv<U, M>(s: State<U, M>, s': State<U, M>, u: U, m: M, time: int)
    requires Inv(s) && AddStep(s, s', u, m, time)
    ensures Inv(s')
  {
    hide Timely, FiringTick, Landing, FirstLanding, Accounts, Cursors;
    if time > 0 {
      var i, cur := s.w.interval, s.w.cur;
      var unit := FirstLanding(i, cur, m, time);
      assert u !in s.w.units;
      LinkLinks(s.w, u, unit);
      PointTo(Link(s.w, u, unit), m, u);
      hide Linked;
      FirstLandingTimely(i, cur, s.now, m, time);
      LinkAway(s.w, u, unit);
      AddKeepsCursors(s, s');
      assert s'.w.units == s.w.units[u := unit];
      AddAccounts(s, s', u, unit, time);
    }
  }

  lemma AddKeepsCursors<U, M>(s: State<U, M>, s': State<U, M>)
    requires Shape(s.w) && Cursors(s) && Shape(s'.w) && s.phase == s'.phase == Idle && s'.w.cur == s.w.cur
    requires forall l: nat | l < 3 :: Slot(s'.w, l, s.w.cur[l]) == Slot(s.w, l, s.w.cur[l])
    ensures Cursors(s')
  {
  }

  lemma AddAccounts<U, M>(s: State<U, M>, s': State<U, M>, u: U, unit: Unit<M>, time: int)
    requires s.w.interval > 0 && |s.w.cur| == 3 && s.w.cur[0] < N && s.w.cur[1] < N
    requires Accounts(s) && u !in s.births && time > 0
    requires s'.w.interval == s.w.interval && s'.w.units == s.w.units[u := unit]
    requires s'.acted == s.acted && s'.deleted == s.deleted && s'.now == s.now
    requires s'.births == s.births[u := NewBirth(s.w.interval, s.now, time, s.w.cur[0], s.w.cur[1])]
    ensures Accounts(s')
  {
    hide FiringTick;
  }

  lemma PointTo<U, M>(w: Wheels<U, M>, m: M, u: U)
    requires Shape(w) && Linked(w, {}) && u in w.units && w.units[u].member == m
    ensures Linked(w.(timerUnit := w.timerUnit[m := u]), {})
  {
    var w' := w.(timerUnit := w.timerUnit[m := u]);
    assert forall l: nat, t: nat :: InRange(l, t) ==> Slot(w', l, t) == Slot(w, l, t);
    forall v | v in w'.units ensures Placed(w', v) { assert Placed(w, v); }
  }

  /** Linking away from the cursors leaves the slots at the cursors alone. */
  lemma LinkAway<U, M>(w: Wheels<U, M>, u: U, unit: Unit<M>)
    requires Shape(w) && unit.location.At? && InRange(unit.location.level, unit.location.slot)
    requires unit.location.slot != w.cur[unit.location.level]
    ensures forall l: nat | l < 3 :: Slot(Link(w, u, unit), l, w.cur[l]) == Slot(w, l, w.cur[l])
  {
  }

  lemma DelKeepsInv<U, M>(s: State<U, M>, s': State<U, M>, m: M)
    requires Inv(s) && DelStep(s, s', m)
    ensures Inv(s')
  {
    hide Timely, Accounts, Cursors, UnitsTimely, Unlink;
    DelTimerKeeps(s.w, m);
    if m in s.w.timerUnit {
      var u := s.w.timerUnit[m];
      assert Placed(s.w, u);
      DelKeepsCursors(s, s', m);
      hide Linked, Placed, DelTimer;
      DelKeepsUnits(s, s', u);
    }
  }

  lemma DelKeepsUnits<U, M>(s: State<U, M>, s': State<U, M>, u: U)
    requires Shape(s.w) && UnitsTimely(s) && Accounts(s) && u in s.w.units && Shape(s'.w)
    requires s' == s.(w := s'.w, deleted := s.deleted + {u})
    requires s'.w == s.w.(slots := s'.w.slots, units := s.w.units - {u}, timerUnit := s'.w.timerUnit)
    ensures UnitsTimely(s') && Accounts(s')
  {
    hide Timely, NewBirth;
  }

  lemma DelKeepsCursors<U, M>(s: State<U, M>, s': State<U, M>, m: M)
    requires Inv(s) && DelStep(s, s', m) && m in s.w.timerUnit
    ensures Cursors(s')
    ensures s'.w == s.w.(slots := s'.w.slots, units := s.w.units - {s.w.timerUnit[m]}, timerUnit := s.w.timerUnit - {m})
  {
    hide Timely, Accounts, UnitsTimely;
    var u := s.w.timerUnit[m];
    assert Placed(s.w, u);
    var p := s.w.units[u].location;
    assert forall l: nat | l < 3 :: Slot(s.w, l, s.w.cur[l]) == [];
    assert forall l: nat, t: nat | InRange(l, t) && (l != p.level || t != p.slot) :: Slot(s'.w, l, t) == Slot(s.w, l, t);
    assert s.w.units[u].member == m;
  }

  lemma TickKeepsInv<U, M>(s: State<U, M>, s': State<U, M>)
    requires Inv(s) && TickStep(s, s')
    ensures Inv(s')
  {
    hide Timely, Linked;
    AdvanceKeepsLinks(s.w, 0);
    forall u | u in s'.w.units
      ensures u in s'.births
      ensures Timely(s'.w.interval, s'.w.cur, Eff(s', 0), Eff(s', 1), s'.now, s'.births[u], s'.w.units[u])
    {
      OffCursor(s, u);
      TimelyNextTick(s.w.interval, s.w.cur, s.now, s.births[u], s.w.units[u]);
    }
  }

  /** Outside the slot being drained, a pending unit's slot is ahead of its cursor. */
  lemma OffCursor<U, M>(s: State<U, M>, u: U)
    requires Inv(s) && u in s.w.units
    ensures Placed(s.w, u)
    ensures var p := s.w.units[u].location;
            s.phase == Draining(p.level) || p.slot != s.w.cur[p.level]
  {
    assert Placed(s.w, u);
  }

  lemma AdvanceKeepsLinks<U, M>(w: Wheels<U, M>, level: nat)
    requires Shape(w) && Linked(w, {}) && level < 3
    ensures Linked(Advance(w, level), {})
    ensures forall l: nat, t: nat | InRange(l, t) :: Slot(Advance(w, level), l, t) == Slot(w, l, t)
  {
    var w' := Advance(w, level);
    assert forall l: nat, t: nat | InRange(l, t) :: Slot(w', l, t) == Slot(w, l, t);
    forall v | v in w'.units ensures Placed(w', v) { assert Placed(w, v); }
  }

  lemma DoneKeepsInv<U, M>(s: State<U, M>, s': State<U, M>)
    requires Inv(s) && DoneStep(s, s')
    ensures Inv(s')
  {
    hide Timely, Linked;
    var l := s.phase.level;
    if s.w.cur[l] == 0 && l < 2 {
      AdvanceKeepsLinks(s.w, l + 1);
      forall u | u in s'.w.units
        ensures u in s'.births
        ensures Timely(s'.w.interval, s'.w.cur, Eff(s', 0), Eff(s', 1), s'.now, s'.births[u], s'.w.units[u])
      {
        CarryKeepsTimely(s, s', u);
      }
    }
  }

  lemma CarryKeepsTimely<U, M>(s: State<U, M>, s': State<U, M>, u: U)
    requires Inv(s) && DoneStep(s, s') && s.w.cur[s.phase.level] == 0 && s.phase.level < 2 && u in s.w.units
    ensures Timely(s'.w.interval, s'.w.cur, Eff(s', 0), Eff(s', 1), s'.now, s'.births[u], s'.w.units[u])
  {
    hide Timely, Linked, Accounts;
    OffCursor(s, u);
    assert Timely(s.w.interval, s.w.cur, Eff(s, 0), Eff(s, 1), s.now, s.births[u], s.w.units[u]);
    assert s.phase.level == 1 ==> s.w.cur[0] == 0;
    hide Cursors, UnitsTimely, Placed;
    var i, cur, b, unit := s.w.interval, s.w.cur, s.births[u], s.w.units[u];
    if s.phase.level == 0 {
      TimelyCarry0(i, cur, s.now, b, unit);
    } else {
      TimelyCarry1(i, cur, 0, s.now, b, unit);
    }
  }

  lemma PopKeepsInv<U, M>(s: State<U, M>, s': State<U, M>)
    requires Inv(s) && PopUnitStep(s, s')
    ensures Inv(s')
  {
    hide Timely, Landing;
    var l := s.phase.level;
    var c := s.w.cur[l];
    var u := Slot(s.w, l, c)[0];
    PopUnlinks(s.w, l, c);
    var w1 := Pop(s.w, l, c);
    assert w1.units == s.w.units[u := s.w.units[u].(location := Nowhere)];
    PopTest(s, u);
    if ActsNow(w1, l, u) {
      PopActs(s, s', u);
    } else {
      PopMoves(s, s', u);
    }
  }

  /** The test on the popped unit: it acts exactly when it is due now. */
  lemma PopTest<U, M>(s: State<U, M>, u: U)
    requires Inv(s) && s.phase.Draining?
    requires s.phase.level < 3 && u in s.w.units && s.w.units[u].location == At(s.phase.level, s.w.cur[s.phase.level])
    ensures ActsNow(s.w, s.phase.level, u) ==> s.births[u].due == s.now
    ensures !ActsNow(s.w, s.phase.level, u) ==> s.phase.level > 0 && s.w.units[u].time - s.w.units[u].past > 0
    ensures !ActsNow(s.w, s.phase.level, u) && s.phase.level == 2 ==>
              Rem(s.w.units[u].time - s.w.units[u].past, 8000 * s.w.interval) != 0
  {
    hide Times, Tail1, Rem;
    var i := s.w.interval;
    var rest := s.w.units[u].time - s.w.units[u].past;
    assert Timely(i, s.w.cur, Eff(s, 0), Eff(s, 1), s.now, s.births[u], s.w.units[u]);
    if s.phase.level == 1 {
      if rest > 0 { QuotSmall(rest, 400 * i); }
      Tail1Small(i, 0);
    }
  }

  lemma PopActs<U, M>(s: State<U, M>, s': State<U, M>, u: U)
    requires Inv(s) && PopUnitStep(s, s')
    requires var l := s.phase.level; u == Slot(s.w, l, s.w.cur[l])[0]
    requires ActsNow(Pop(s.w, s.phase.level, s.w.cur[s.phase.level]), s.phase.level, u) && s.births[u].due == s.now
    ensures Inv(s')
  {
    hide Timely, ActsNow;
    var l := s.phase.level;
    var w1 := Pop(s.w, l, s.w.cur[l]);
    PopUnlinks(s.w, l, s.w.cur[l]);
    FreeKeeps(w1, u);
    ActsIs(s, s', u);
    PopKeepsCursors(s, s', w1);
    ActedAccounts(s, s', u);
    hide Linked, Cursors, Accounts;
  }

  lemma ActedAccounts<U, M>(s: State<U, M>, s': State<U, M>, u: U)
    requires s.w.interval > 0 && Accounts(s) && u in s.w.units && s.births[u].due == s.now
    requires s'.w.interval == s.w.interval && s'.w.units == s.w.units - {u} && s'.births == s.births
    requires s'.acted == s.acted + [Event(u, s.now)] && s'.deleted == s.deleted && s'.now == s.now
    ensures Accounts(s')
  {
    hide NewBirth;
    assert s'.acted[|s.acted|].unit == u;
    assert forall k | 0 <= k < |s.acted| :: s'.acted[k] == s.acted[k];
    forall v ensures ActedUnit(s'.acted, v) <==> ActedUnit(s.acted, v) || v == u {
      if ActedUnit(s.acted, v) {
        var k :| 0 <= k < |s.acted| && s.acted[k].unit == v;
        assert s'.acted[k].unit == v;
      }
    }
  }

  lemma ActsIs<U, M>(s: State<U, M>, s': State<U, M>, u: U)
    requires Inv(s) && PopUnitStep(s, s')
    requires var l := s.phase.level; u == Slot(s.w, l, s.w.cur[l])[0]
    requires ActsNow(Pop(s.w, s.phase.level, s.w.cur[s.phase.level]), s.phase.level, u)
    ensures s' == s.(w := Free(Pop(s.w, s.phase.level, s.w.cur[s.phase.level]), u), acted := s.acted + [Event(u, s.now)])
    ensures s'.w.units == s.w.units - {u}
  {
    hide Timely, ActsNow, Linked, Accounts, Cursors;
  }

  /** Unless a step links at a cursor, only the drained slot changes there. */
  lemma PopKeepsCursors<U, M>(s: State<U, M>, s': State<U, M>, w1: Wheels<U, M>)
    requires Inv(s) && s.phase.Draining? && Slot(s.w, s.phase.level, s.w.cur[s.phase.level]) != []
    requires Slot(s.w, s.phase.level, s.w.cur[s.phase.level])[0] in s.w.units
    requires w1 == Pop(s.w, s.phase.level, s.w.cur[s.phase.level])
    requires Shape(s'.w) && s'.w.cur == s.w.cur && s'.phase == s.phase
    requires forall l: nat | l < 3 :: Slot(s'.w, l, s.w.cur[l]) == Slot(w1, l, s.w.cur[l])
    ensures Cursors(s')
  {
    hide Timely, Linked, Accounts;
    forall k: nat | k < 3 && s'.phase != Draining(k) ensures Slot(s'.w, k, s'.w.cur[k]) == [] {
      assert Slot(s.w, k, s.w.cur[k]) == [];
    }
  }

  lemma PopMoves<U, M>(s: State<U, M>, s': State<U, M>, u: U)
    requires Inv(s) && PopUnitStep(s, s')
    requires var l := s.phase.level; u == Slot(s.w, l, s.w.cur[l])[0]
    requires !ActsNow(Pop(s.w, s.phase.level, s.w.cur[s.phase.level]), s.phase.level, u)
    requires s.phase.level > 0 && s.w.units[u].time - s.w.units[u].past > 0
    requires s.phase.level == 2 ==> Rem(s.w.units[u].time - s.w.units[u].past, 8000 * s.w.interval) != 0
    ensures Inv(s')
  {
    hide Timely, Landing, ActsNow, Rem, Accounts, Cursors, UnitsTimely;
    var l, i, cur := s.phase.level, s.w.interval, s.w.cur;
    var w1 := Pop(s.w, l, cur[l]);
    PopUnlinks(s.w, l, cur[l]);
    var unit := Landing(i, cur, l - 1, s.w.units[u]);
    MovesIs(s, s', u);
    LandingIsAhead(i, cur, l - 1, s.w.units[u]);
    LinkLinks(w1, u, unit);
    LinkAway(w1, u, unit);
    hide Linked;
    PopKeepsCursors(s, s', w1);
    hide Link, Pop;
    MovedTimely(s, s', u);
    MovedAccounts(s, s');
  }

  lemma MovedTimely<U, M>(s: State<U, M>, s': State<U, M>, u: U)
    requires Inv(s) && s.phase.Draining? && 0 < s.phase.level < 3 && u in s.w.units
    requires s.w.units[u].location == At(s.phase.level, s.w.cur[s.phase.level])
    requires s.w.units[u].time - s.w.units[u].past > 0
    requires s.phase.level == 2 ==> Rem(s.w.units[u].time - s.w.units[u].past, 8000 * s.w.interval) != 0
    requires s' == s.(w := s'.w) && Shape(s'.w) && s'.w.interval == s.w.interval && s'.w.cur == s.w.cur
    requires s'.w.units == s.w.units[u := Landing(s.w.interval, s.w.cur, s.phase.level - 1, s.w.units[u])]
    ensures UnitsTimely(s')
  {
    hide Timely, Landing, Rem, Linked, Accounts;
    var i, cur := s.w.interval, s.w.cur;
    assert Timely(i, cur, Eff(s, 0), Eff(s, 1), s.now, s.births[u], s.w.units[u]);
    if s.phase.level == 1 {
      DownFromLevel1(i, cur, Eff(s, 1), s.now, s.births[u], s.w.units[u]);
    } else {
      DownFromLevel2(i, cur, s.now, s.births[u], s.w.units[u]);
    }
  }

  lemma MovedAccounts<U, M>(s: State<U, M>, s': State<U, M>)
    requires s.w.interval > 0 && Accounts(s) && s' == s.(w := s'.w)
    requires s'.w.interval == s.w.interval && s'.w.units.Keys == s.w.units.Keys
    ensures Accounts(s')
  {
    hide NewBirth;
    assert forall u :: u in s'.w.units <==> u in s.w.units;
  }

  lemma MovesIs<U, M>(s: State<U, M>, s': State<U, M>, u: U)
    requires Inv(s) && PopUnitStep(s, s') && s.phase.level > 0
    requires var l := s.phase.level; u == Slot(s.w, l, s.w.cur[l])[0]
    requires !ActsNow(Pop(s.w, s.phase.level, s.w.cur[s.phase.level]), s.phase.level, u)
    ensures var unit := Landing(s.w.interval, s.w.cur, s.phase.level - 1, s.w.units[u]);
            && s' == s.(w := Link(Pop(s.w, s.phase.level, s.w.cur[s.phase.level]), u, unit))
            && s'.w.units == s.w.units[u := unit]
  {
    hide Timely, ActsNow, Linked, Accounts, Cursors, Landing;
    LandingForgetsLocation(s.w.interval, s.w.cur, s.phase.level - 1, s.w.units[u]);
    assert s'.acted == s.acted;
  }

  lemma {:induction false} LandingForgetsLocation<M>(i: int, cur: seq<nat>, level: nat, unit: Unit<M>)
    requires i > 0 && |cur| == 3 && level < 3
    ensures Landing(i, cur, level, unit.(location := Nowhere)) == Landing(i, cur, level, unit)
    decreases 3 - level
  {
    hide Times, SlotOffset;
    var iv := LevelInterval(i, level);
    if unit.time - unit.past >= N * iv && level != 2 {
      LandingForgetsLocation(i, cur, level + 1, unit.(past := unit.past + Times(N - cur[level], iv)));
    }
  }

  lemma NextKeepsInv<U, M>(s: State<U, M>, s': State<U, M>, op: Op<U, M>)
    requires Inv(s) && Next(s, s', op)
    ensures Inv(s')
  {
    match op
    case Add(u, m, time) => AddKeepsInv(s, s', u, m, time);
    case Del(m) => DelKeepsInv(s, s', m);
    case Tick => TickKeepsInv(s, s');
    case PopUnit => PopKeepsInv(s, s');
    case Done => DoneKeepsInv(s, s');
  }

  // ---- whole runs ----

  ghost predicate IsRun<U, M>(run: seq<State<U, M>>, ops: seq<Op<U, M>>) {
    && |run| == |ops| + 1 && Init(run[0])
    && forall k | 0 <= k < |ops| :: Shape(run[k].w) && Linked(run[k].w, {}) ==> Next(run[k], run[k + 1], ops[k])
  }

  lemma {:induction false} RunInv<U, M>(run: seq<State<U, M>>, ops: seq<Op<U, M>>, k: nat)
    requires IsRun(run, ops) && k < |run|
    ensures Inv(run[k])
  {
    if k == 0 {
      InitInv(run[0]);
    } else {
      RunInv(run, ops, k - 1);
      NextKeepsInv(run[k - 1], run[k], ops[k - 1]);
    }
  }

  /** Operations that go on with popped units only. */
  ghost predicate Pops<U, M>(before: seq<Op<U, M>>, after: seq<Op<U, M>>) {
    before <= after && forall k | |before| <= k < |after| :: after[k].PopUnit?
  }

  /** Operations that go on with this one and then with popped units and ends of slots only. */
  ghost predicate Continues<U, M>(before: seq<Op<U, M>>, after: seq<Op<U, M>>, first: Op<U, M>) {
    && before < after && after[|before|] == first
    && forall k | |before| < k < |after| :: after[k].PopUnit? || after[k].Done?
  }

  /** What has been added stays on record, and so does what has been deleted. */
  lemma {:induction false} RecordsStay<U, M>(run: seq<State<U, M>>, ops: seq<Op<U, M>>, j: nat, k: nat)
    requires IsRun(run, ops) && j <= k < |run|
    ensures forall u | u in run[j].births :: u in run[k].births && run[k].births[u] == run[j].births[u]
    ensures run[j].deleted <= run[k].deleted
    ensures (forall i | j <= i < k :: !ops[i].Add? && !ops[i].Del?) ==>
              run[k].births == run[j].births && run[k].deleted == run[j].deleted
  {
    hide Next, Inv, Init, Linked;
    if j < k {
      RecordsStay(run, ops, j, k - 1);
      RunInv(run, ops, k - 1);
      StepRecords(run[k - 1], run[k], ops[k - 1]);
    }
  }

  /** What a step does to the records: nothing is forgotten, and events are of the present. */
  lemma StepRecords<U, M>(s: State<U, M>, s': State<U, M>, op: Op<U, M>)
    requires Inv(s)
    ensures Shape(s.w) && Linked(s.w, {})
    ensures Next(s, s', op) ==>
              && s.now <= s'.now && s.deleted <= s'.deleted && s.acted <= s'.acted
              && (forall k | |s.acted| <= k < |s'.acted| :: s'.acted[k].tick == s.now)
              && (forall u | u in s.births :: u in s'.births && s'.births[u] == s.births[u])
              && (!op.Add? && !op.Del? ==> s'.births == s.births && s'.deleted == s.deleted)
  {
    hide Linked, Cursors, UnitsTimely, Accounts, AddTimer, DelTimer, FiringTick, Advance;
  }

  /** A deleted unit stays deleted and never acts. */
  lemma DeletedNeverActs<U, M>(run: seq<State<U, M>>, ops: seq<Op<U, M>>, j: nat, k: nat, u: U)
    requires IsRun(run, ops) && j <= k < |run| && u in run[j].deleted
    ensures u in run[k].deleted && u !in run[k].w.units && !ActedUnit(run[k].acted, u)
  {
    RecordsStay(run, ops, j, k);
    RunInv(run, ops, k);
  }

  ghost predicate ActsExactlyOnce<U>(acted: seq<Event<U>>, u: U, tick: int) {
    exists k :: 0 <= k < |acted| && acted[k].unit == u && acted[k].tick == tick
                && forall j :: 0 <= j < |acted| && j != k ==> acted[j].unit != u
  }

  /** Between ticks, a timer that was added and not deleted has acted exactly once, at its due
      tick, if that tick has come, and is still pending otherwise. */
  lemma TimerActsOnce<U, M>(run: seq<State<U, M>>, ops: seq<Op<U, M>>, k: nat, u: U)
    requires IsRun(run, ops) && k < |run|
    requires run[k].phase == Idle && u in run[k].births && u !in run[k].deleted
    ensures var s := run[k]; var b := s.births[u];
            && s.w.interval > 0
            && b.due == b.tick + FiringTick(s.w.interval, b.time, b.c0, b.c1)
            && (b.due <= s.now ==> u !in s.w.units && ActsExactlyOnce(s.acted, u, b.due))
            && (b.due > s.now ==> u in s.w.units && !ActedUnit(s.acted, u))
  {
    var s := run[k];
    RunInv(run, ops, k);
    hide FiringTick, Timely, Linked, Cursors;
    if u in s.w.units {
      PendingIsLater(s, u);
    } else {
      var j :| 0 <= j < |s.acted| && s.acted[j].unit == u;
      assert s.acted[j].tick == s.births[u].due;
      ActedByNow(run, ops, k, j);
    }
  }

  lemma PendingIsLater<U, M>(s: State<U, M>, u: U)
    requires Inv(s) && s.phase == Idle && u in s.w.units
    ensures s.births[u].due > s.now
  {
    hide Times, Tail1, Tail2;
    OffCursor(s, u);
    var unit := s.w.units[u];
    assert Timely(s.w.interval, s.w.cur, Eff(s, 0), Eff(s, 1), s.now, s.births[u], unit);
    var rest := unit.time - unit.past;
    Tail1Accurate(s.w.interval, rest);
    Tail2NonNegative(s.w.interval, rest);
  }

  /** No event lies in the future. */
  lemma {:induction false} ActedByNow<U, M>(run: seq<State<U, M>>, ops: seq<Op<U, M>>, k: nat, j: nat)
    requires IsRun(run, ops) && k < |run| && j < |run[k].acted|
    ensures run[k].acted[j].tick <= run[k].now
  {
    hide Next, Inv, Linked;
    if k > 0 {
      RunInv(run, ops, k - 1);
      StepRecords(run[k - 1], run[k], ops[k - 1]);
      if j < |run[k - 1].acted| { ActedByNow(run, ops, k - 1, j); }
    }
  }

  /** When a timer acts, off the third wheel: within one interval of its time, and exactly at its
      time when the interval divides it. */
  lemma TimerAccuracy<U, M>(run: seq<State<U, M>>, ops: seq<Op<U, M>>, k: nat, j: nat)
    requires IsRun(run, ops) && k < |run| && j < |run[k].acted|
    ensures var s := run[k]; var i := s.w.interval; var e := s.acted[j];
            && i > 0 && e.unit in s.births
            && var b := s.births[e.unit];
            && (!ReachesLevel2(i, b.time, b.c0) ==>
                  && b.time - i < (e.tick - b.tick) * i < b.time + i
                  && (b.time % i == 0 ==> (e.tick - b.tick) * i == b.time))
  {
    RunInv(run, ops, k);
    var s := run[k];
    var b := s.births[s.acted[j].unit];
    assert Born(s, b);
    if !ReachesLevel2(s.w.interval, b.time, b.c0) {
      hide FiringTick, Accounts, Linked, Cursors, UnitsTimely, ReachesLevel2;
      TwoLevelAccuracy(s.w.interval, b.time, b.c0, b.c1);
    }
  }

  /** When a timer acts, by way of the third wheel: within one interval of its time exactly when
      the time left on arrival there is no multiple of N*N*I, and then on the dot if the interval
      divides it; at least N*I early otherwise;
      any time below N*N*N*I is then early by exactly N*I. */
  lemma ThreeLevelTimerAccuracy<U, M>(run: seq<State<U, M>>, ops: seq<Op<U, M>>, k: nat, j: nat)
    requires IsRun(run, ops) && k < |run| && j < |run[k].acted|
    ensures var s := run[k]; var i := s.w.interval; var e := s.acted[j];
            && i > 0 && e.unit in s.births
            && var b := s.births[e.unit];
            && (ReachesLevel2(i, b.time, b.c0) ==>
                  var elapsed := (e.tick - b.tick) * i;
                  var left := b.time - (20 - b.c0) * i - (20 - b.c1) * (20 * i);
                  && (b.time - i < elapsed < b.time + i <==> left % (400 * i) != 0)
                  && (left % (400 * i) != 0 && b.time % i == 0 ==> elapsed == b.time)
                  && (left % (400 * i) == 0 ==> elapsed <= b.time - 20 * i)
                  && (left % (400 * i) == 0 && b.time < 8000 * i ==> elapsed == b.time - 20 * i))
  {
    RunInv(run, ops, k);
    var s := run[k];
    var b := s.births[s.acted[j].unit];
    assert Born(s, b);
    if ReachesLevel2(s.w.interval, b.time, b.c0) {
      hide FiringTick, Accounts, Linked, Cursors, UnitsTimely, ReachesLevel2;
      ThreeLevelAccuracy(s.w.interval, b.time, b.c0, b.c1);
      CursorProducts(s.w.interval, b.c0, b.c1);
    }
  }

  const PERSISTENCE_SLEEP_TIME := 100
  const RELEASE_TIME := 12000
  const AUTOSAVE_TIME := 30000

  /** The two timers the server sets act on the dot: 120 and 300 ticks after they are added,
      from any cursor positions. */
  lemma ServerTimersOnTheDot(c0: nat, c1: nat)
    requires c0 < N && c1 < N
    ensures FiringTick(PERSISTENCE_SLEEP_TIME, RELEASE_TIME, c0, c1) == 120
    ensures FiringTick(PERSISTENCE_SLEEP_TIME, AUTOSAVE_TIME, c0, c1) == 300
  {
    CursorProducts(100, c0, c1);
    TwoLevelAccuracy(100, 12000, c0, c1);
    TwoLevelAccuracy(100, 30000, c0, c1);
  }

  /** The third wheel's early firing happens: 82000 ms at cursors 0, 0 acts after 800 ticks of
      100 ms instead of 820. */
  lemma EarlyFiringHappens()
    ensures ReachesLevel2(100, 82000, 0) && FiringTick(100, 82000, 0, 0) == 800
  {
    hide FiringTick, Times, Rem;
    TimesFacts(100);
    TimesFacts(2000);
    TimesFacts(40000);
    QuotUnique(40000, 40000, 1);
    ThreeLevelAccuracy(100, 82000, 0, 0);
    HundredTimes(FiringTick(100, 82000, 0, 0));
  }

  lemma HundredTimes(k: int)
    ensures Times(k, 100) == 100 * k
  {
  }

  // ---- one pending unit per member ----

  ghost predicate OnePerMember<U, M>(w: Wheels<U, M>) {
    forall u | u in w.units :: w.units[u].member in w.timerUnit && w.timerUnit[w.units[u].member] == u
  }

  /** After DelTimer(m) the recorded unit is gone for good; if every member had one pending unit
      at most, m has none left. */
  lemma DelTimerCancels<U, M>(s: State<U, M>, s': State<U, M>, m: M)
    requires Inv(s) && DelStep(s, s', m)
    ensures m !in s'.w.timerUnit
    ensures m in s.w.timerUnit ==> s.w.timerUnit[m] !in s'.w.units && s.w.timerUnit[m] in s'.deleted
    ensures OnePerMember(s.w) ==> OnePerMember(s'.w) && forall u | u in s'.w.units :: s'.w.units[u].member != m
  {
    hide Timely, Accounts, Cursors, UnitsTimely, Unlink;
    if m in s.w.timerUnit {
      DelKeepsCursors(s, s', m);
      var u := s.w.timerUnit[m];
      assert Placed(s.w, u) && s.w.units[u].member == m;
      hide Linked, Placed;
      assert s'.w.timerUnit == s.w.timerUnit - {m};
    }
  }

  /** Adding a timer only for a member without one, as delete-then-add does, keeps at most one
      pending unit for every member, through cascades and firings. */
  lemma OnePerMemberKept<U, M>(s: State<U, M>, s': State<U, M>, op: Op<U, M>)
    requires Inv(s) && OnePerMember(s.w) && Next(s, s', op)
    requires op.Add? ==> op.m !in s.w.timerUnit
    ensures OnePerMember(s'.w)
  {
    hide Landing, FirstLanding, FiringTick, Timely, Accounts, UnitsTimely, Cursors, PopUnitStep, DelStep, Linked;
    match op
    case Add(_, _, _) =>
    case Del(m) => DelTimerCancels(s, s', m);
    case Tick =>
    case Done =>
    case PopUnit => PopKeepsOne(s, s');
  }

  /** Every timer is added for a member that records none, as delete-then-add does. */
  ghost predicate OneAtATime<U, M>(run: seq<State<U, M>>, ops: seq<Op<U, M>>)
    requires |run| == |ops| + 1
  {
    forall k | 0 <= k < |ops| && ops[k].Add? :: ops[k].m !in run[k].w.timerUnit
  }

  /** Then in the whole run a member has one pending unit at most, the one it records. */
  lemma {:induction false} OnePerMemberInRuns<U, M>(run: seq<State<U, M>>, ops: seq<Op<U, M>>, k: nat)
    requires IsRun(run, ops) && OneAtATime(run, ops) && k < |run|
    ensures OnePerMember(run[k].w)
  {
    if k > 0 {
      OnePerMemberInRuns(run, ops, k - 1);
      RunInv(run, ops, k - 1);
      OnePerMemberKept(run[k - 1], run[k], ops[k - 1]);
    }
  }

  /** As long as no timer is added, members keep the unit they record or lose it. */
  lemma {:induction false} PointersShrink<U, M>(run: seq<State<U, M>>, ops: seq<Op<U, M>>, j: nat, k: nat)
    requires IsRun(run, ops) && j <= k < |run| && forall i | j <= i < k :: !ops[i].Add?
    ensures forall m | m in run[k].w.timerUnit ::
              m in run[j].w.timerUnit && run[k].w.timerUnit[m] == run[j].w.timerUnit[m]
    ensures OnePerMember(run[j].w) ==> OnePerMember(run[k].w)
  {
    hide Next, Inv, Init, Linked, OnePerMember;
    if j < k {
      PointersShrink(run, ops, j, k - 1);
      RunInv(run, ops, k - 1);
      StepRecords(run[k - 1], run[k], ops[k - 1]);
      StepPointers(run[k - 1], run[k], ops[k - 1]);
      if OnePerMember(run[k - 1].w) { OnePerMemberKept(run[k - 1], run[k], ops[k - 1]); }
    }
  }

  lemma StepPointers<U, M>(s: State<U, M>, s': State<U, M>, op: Op<U, M>)
    requires Inv(s) && Shape(s.w) && Linked(s.w, {}) && Next(s, s', op) && !op.Add?
    ensures forall m | m in s'.w.timerUnit :: m in s.w.timerUnit && s'.w.timerUnit[m] == s.w.timerUnit[m]
  {
    hide Linked, Cursors, UnitsTimely, Accounts, FiringTick, Landing, ActsNow, Inv;
  }

  /** A timer set for a member that has no other: between ticks the member records its unit until
      the due tick, and from then on no unit. */
  lemma RecordedUntilDue<U, M>(run: seq<State<U, M>>, ops: seq<Op<U, M>>, j: nat, k: nat, u: U, m: M)
    requires IsRun(run, ops) && j <= k < |run| && run[k].phase == Idle
    requires OnePerMember(run[j].w) && u in run[j].births && u !in run[j].deleted
    requires m in run[j].w.timerUnit ==> run[j].w.timerUnit[m] == u
    requires u in run[j].w.units ==> run[j].w.units[u].member == m
    requires forall i | j <= i < k :: !ops[i].Add? && !ops[i].Del?
    ensures u in run[k].births && run[k].births[u] == run[j].births[u] && u !in run[k].deleted && OnePerMember(run[k].w)
    ensures m in run[k].w.timerUnit <==> run[k].now < run[k].births[u].due
    ensures m in run[k].w.timerUnit ==> run[k].w.timerUnit[m] == u
    ensures u in run[k].w.units ==> run[k].w.units[u].member == m
  {
    hide Next, Init;
    PointersShrink(run, ops, j, k);
    RecordsStay(run, ops, j, k);
    TimerActsOnce(run, ops, k, u);
    RunInv(run, ops, j);
    RunInv(run, ops, k);
    PointersLinked(run[j]);
    PointersLinked(run[k]);
  }

  lemma PointersLinked<U, M>(s: State<U, M>)
    requires Inv(s)
    ensures forall m | m in s.w.timerUnit :: s.w.timerUnit[m] in s.w.units && s.w.units[s.w.timerUnit[m]].member == m
  {
  }

  /** DelTimer(m) in a run: the unit m recorded never acts afterwards, whatever else happens. */
  lemma CancelledForGood<U, M>(run: seq<State<U, M>>, ops: seq<Op<U, M>>, j: nat, k: nat)
    requires IsRun(run, ops) && j < k < |run| && ops[j].Del? && ops[j].m in run[j].w.timerUnit
    ensures var u := run[j].w.timerUnit[ops[j].m];
            u in run[k].deleted && u !in run[k].w.units && !ActedUnit(run[k].acted, u)
  {
    RunInv(run, ops, j);
    DelTimerCancels(run[j], run[j + 1], ops[j].m);
    DeletedNeverActs(run, ops, j + 1, k, run[j].w.timerUnit[ops[j].m]);
  }

  lemma PopKeepsOne<U, M>(s: State<U, M>, s': State<U, M>)
    requires Inv(s) && OnePerMember(s.w) && PopUnitStep(s, s')
    ensures OnePerMember(s'.w)
  {
    hide Landing, Timely, Accounts, UnitsTimely, Cursors, ActsNow, Linked;
    var l := s.phase.level;
    var u := Slot(s.w, l, s.w.cur[l])[0];
    PopUnlinks(s.w, l, s.w.cur[l]);
    PoppedPlace(s);
    PopTest(s, u);
    if ActsNow(Pop(s.w, l, s.w.cur[l]), l, u) {
      ActsIs(s, s', u);
    } else {
      ActsNowIgnoresPlace(s.w, l, u);
      MovesIs(s, s', u);
    }
  }

  lemma PoppedPlace<U, M>(s: State<U, M>)
    requires Inv(s) && s.phase.Draining? && s.phase.level < 3
    requires var l := s.phase.level; Slot(s.w, l, s.w.cur[l]) != []
    ensures var l := s.phase.level; var u := Slot(s.w, l, s.w.cur[l])[0];
            u in s.w.units && s.w.units[u].location == At(l, s.w.cur[l])
  {
  }

  lemma ActsNowIgnoresPlace<U, M>(w: Wheels<U, M>, level: nat, u: U)
    requires Shape(w) && level < 3 && Slot(w, level, w.cur[level]) != [] && u == Slot(w, level, w.cur[level])[0]
    requires u in w.units
    ensures ActsNow(Pop(w, level, w.cur[level]), level, u) == ActsNow(w, level, u)
  {
    hide Rem, Quot;
  }
}
