/** The timer wheels as the program keeps them: timer units linked into intrusive doubly linked
    slot lists.  Every operation is proved to be the matching step of TimerRun, so the theorems
    about runs hold of the heap structure. */
module TimerWheel {
  import opened TimerArith
  import opened TimerSpec
  import opened TimerRun
  import opened TimerTheorems

  /** An object that can be timed; it records its latest pending unit. */
  class TimerBase {
    var timerUnit: TimerUnit?

    constructor ()
      ensures timerUnit == null
    {
      timerUnit := null;
    }
  }

  class TimerUnit {
    const member: TimerBase
    const time: int
    var past: int
    var location: TimerSlot?
    var next: TimerUnit?
    var prev: TimerUnit?

    constructor (m: TimerBase, t: int)
      modifies m
      ensures member == m && time == t && past == 0 && location == null && next == null && prev == null
      ensures m.timerUnit == this
    {
      member, time, past := m, t, 0;
      location, next, prev := null, null, null;
      new;
      m.timerUnit := this;
    }
  }

  class TimerSlot {
    ghost const level: nat
    ghost const index: nat
    var timerList: TimerUnit?
    ghost var units: seq<TimerUnit>

    ghost predicate Valid()
      reads this, units
    {
      && timerList == (if units == [] then null else units[0])
      && (forall k {:trigger units[k].next} :: 0 <= k < |units| ==>
            units[k].next == if k + 1 < |units| then units[k + 1] else null)
      && (forall k {:trigger units[k].prev} :: 0 <= k < |units| ==>
            units[k].prev == if k > 0 then units[k - 1] else null)
      && (forall j, k :: 0 <= j < k < |units| ==> units[j] != units[k])
    }

    constructor (ghost l: nat, ghost i: nat)
      ensures Valid() && units == [] && level == l && index == i
    {
      level, index := l, i;
      timerList, units := null, [];
    }

    method Insert(u: TimerUnit)
      requires Valid() && u !in units && u.prev == null
      modifies this`timerList, this`units, u`next, (if timerList == null then {} else {timerList})`prev
      ensures Valid() && units == [u] + old(units)
    {
      if timerList != null {
        timerList.prev := u;
      }
      u.next := timerList;
      timerList := u;
      units := [u] + units;
    }

    method Pop() returns (u: TimerUnit?)
      requires Valid()
      modifies this`timerList, this`units, units`prev, units`next, units`location
      ensures Valid()
      ensures old(units) == [] ==> u == null && units == []
      ensures old(units) != [] ==> u == old(units)[0] && units == old(units)[1..]
      ensures u != null ==> u.next == null && u.prev == null && u.location == null
      ensures forall v | v in old(units) && v != u :: v.location == old(v.location)
    {
      u := timerList;
      if timerList != null {
        timerList := timerList.next;
        if timerList != null {
          timerList.prev := null;
        }
        u.next := null;
        u.location := null;
        units := units[1..];
      }
    }

    /** Unlink u; the caller frees it. */
    method Delete(u: TimerUnit)
      requires Valid() && u in units
      modifies this`timerList, this`units, units`prev, units`next, u`location
      ensures Valid() && units == Without(old(units), u) && u.location == null
    {
      hide Without, IndexOf;
      ghost var was, i := units, IndexOf(units, u);
      WithoutIs(was, u);
      assert u.prev == (if i > 0 then was[i - 1] else null) && u.next == if i + 1 < |was| then was[i + 1] else null;
      if u.prev != null {
        u.prev.next := u.next;
      }
      if u.next != null {
        u.next.prev := u.prev;
      }
      if timerList == u {
        timerList := timerList.next;
      }
      u.location := null;
      units := Without(was, u);
      Spliced(was, i);
    }

    /** The list without unit i, whose neighbours now point to each other. */
    lemma Spliced(was: seq<TimerUnit>, i: nat)
      requires i < |was| && units == was[..i] + was[i + 1..]
      requires timerList == if i > 0 then was[0] else if |was| > 1 then was[1] else null
      requires forall k {:trigger was[k].next} :: 0 <= k < |was| && k != i ==>
                 was[k].next == var n := if k == i - 1 then i + 1 else k + 1; if n < |was| then was[n] else null
      requires forall k {:trigger was[k].prev} :: 0 <= k < |was| && k != i ==>
                 was[k].prev == var p := if k == i + 1 then i - 1 else k - 1; if p >= 0 then was[p] else null
      requires forall j, k :: 0 <= j < k < |was| ==> was[j] != was[k]
      ensures Valid()
    {
      assert forall k :: 0 <= k < |units| ==> units[k] == was[if k < i then k else k + 1];
    }
  }

  class TimerWheelSet {
    const interval: int
    const slots: seq<seq<TimerSlot>>
    var current: seq<nat>
    ghost var members: set<TimerBase>

    /** Every slot, pending unit and member: what a wheel operation may write besides this. */
    ghost var repr: set<object>

    /** The abstract wheels this heap stands for. */
    ghost var w: Wheels<TimerUnit, TimerBase>

    /** The run of TimerRun this object has made so far. */
    ghost var run: seq<State<TimerUnit, TimerBase>>
    ghost var ops: seq<Op<TimerUnit, TimerBase>>

    /** The three empty wheels, all cursors at 0. */
    constructor (tick: int)
      requires tick > 0
      ensures Valid() && fresh(repr) && interval == tick && members == {} && w.units == map[]
    {
      hide Valid, NewSlots, Init, Linked, Inv, Slot;
      var wheel0, owned0 := MakeWheel(0);
      var wheel1, owned1 := MakeWheel(1);
      var wheel2, owned2 := MakeWheel(2);
      ghost var s := EmptyState(tick);
      interval := tick;
      slots := [wheel0, wheel1, wheel2];
      current := [0, 0, 0];
      members := {};
      w := s.w;
      repr := owned0 + owned1 + owned2;
      run, ops := [s], [];
      new;
      NewIsValid(s, owned0, owned1, owned2);
    }

    /** New slots, no units, no timers, and the run at its start: that is a valid wheel set. */
    lemma NewIsValid(s: State<TimerUnit, TimerBase>, owned0: set<object>, owned1: set<object>, owned2: set<object>)
      requires Init(s) && Inv(s) && Shape(s.w) && Linked(s.w, {}) && s.phase == Idle
      requires s.w.interval == interval && s.w.cur == [0, 0, 0] && s.w.units == map[] && s.w.timerUnit == map[]
      requires forall l: nat, t: nat | InRange(l, t) :: Slot(s.w, l, t) == []
      requires w == s.w && run == [s] && ops == [] && members == {} && current == [0, 0, 0]
      requires |slots| == 3 && (forall l | 0 <= l < 3 :: |slots[l]| == N)
      requires NewSlots(0, slots[0], owned0) && NewSlots(1, slots[1], owned1) && NewSlots(2, slots[2], owned2)
      requires repr == owned0 + owned1 + owned2 && this !in repr
      ensures Valid()
    {
      hide Init, Linked, Inv, Slot, TimerSlot.Valid;
    }

    static lemma EmptyState(tick: int) returns (s: State<TimerUnit, TimerBase>)
      requires tick > 0
      ensures Init(s) && Inv(s) && Shape(s.w) && Linked(s.w, {}) && s.phase == Idle
      ensures s.w.interval == tick && s.w.cur == [0, 0, 0] && s.w.units == map[] && s.w.timerUnit == map[]
      ensures forall l: nat, t: nat | InRange(l, t) :: Slot(s.w, l, t) == []
    {
      var none: seq<TimerUnit> := [];
      s := State(Wheels(tick, [0, 0, 0], seq(3, _ => seq(N, _ => none)), map[], map[]), Idle, 0, map[], [], {});
      InitInv(s);
    }

    /** slot_list_ of one wheel. */
    static method MakeWheel(ghost level: nat) returns (wheel: seq<TimerSlot>, ghost owned: set<object>)
      ensures |wheel| == N && NewSlots(level, wheel, owned) && fresh(owned)
    {
      wheel, owned := [], {};
      while |wheel| < N
        invariant |wheel| <= N && NewSlots(level, wheel, owned) && fresh(owned)
        decreases N - |wheel|
      {
        var slot := new TimerSlot(level, |wheel|);
        wheel, owned := wheel + [slot], owned + {slot};
      }
    }

    static ghost predicate NewSlots(level: nat, wheel: seq<TimerSlot>, owned: set<object>)
      reads owned
    {
      forall k {:trigger wheel[k]} :: 0 <= k < |wheel| ==>
        wheel[k] in owned && wheel[k].level == level && wheel[k].index == k && wheel[k].units == [] && wheel[k].Valid()
    }

    ghost predicate Grid()
      reads this`repr
    {
      && this !in repr && |slots| == 3 && (forall l :: 0 <= l < 3 ==> |slots[l]| == N)
      && (forall l: nat, s: nat {:trigger slots[l][s]} :: InRange(l, s) ==>
            slots[l][s] in repr && slots[l][s].level == l && slots[l][s].index == s)
    }

    /** Every slot list of the heap is well formed. */
    ghost predicate ListsValid()
      requires Grid()
      reads this`repr, repr
    {
      forall l: nat, s: nat {:trigger slots[l][s]} :: InRange(l, s) ==>
        (forall u | u in slots[l][s].units :: u in repr) && slots[l][s].Valid()
    }

    /** The slot lists of the heap are those of v. */
    ghost predicate ListsAgree(v: Wheels<TimerUnit, TimerBase>)
      requires Grid() && Shape(v)
      reads this`repr, repr
    {
      forall l: nat, s: nat {:trigger slots[l][s]} :: InRange(l, s) ==> slots[l][s].units == Slot(v, l, s)
    }

    /** ... but for the list at one place. */
    ghost predicate ListsAgreeBut(v: Wheels<TimerUnit, TimerBase>, level: nat, index: nat, list: seq<TimerUnit>)
      requires Grid() && Shape(v)
      reads this`repr, repr
    {
      forall l: nat, s: nat {:trigger slots[l][s]} :: InRange(l, s) ==>
        slots[l][s].units == if l == level && s == index then list else Slot(v, l, s)
    }

    ghost predicate UnitIs(u: TimerUnit, unit: Unit<TimerBase>)
      requires Grid()
      reads u, this`members, this`repr
    {
      && unit.member in members
      && u.member == unit.member && u.time == unit.time && u.past == unit.past
      && match unit.location
         case Nowhere => u.location == null
         case At(l, s) => InRange(l, s) && u.location == slots[l][s]
    }

    ghost predicate UnitsAgree(units: map<TimerUnit, Unit<TimerBase>>)
      requires Grid()
      reads this`members, this`repr, repr
    {
      forall u | u in units :: u in repr && UnitIs(u, units[u])
    }

    ghost predicate MembersAgree(pointers: map<TimerBase, TimerUnit>)
      reads this`members, this`repr, repr
    {
      && pointers.Keys <= members
      && (forall m | m in members :: m in repr && m.timerUnit == if m in pointers then pointers[m] else null)
    }

    /** The heap agrees with w; the loose units are popped and not yet linked again or freed. */
    ghost predicate Couples(loose: set<TimerUnit>)
      reads this, repr
    {
      && Grid() && Shape(w) && w.interval == interval && w.cur == current
      && ListsAgree(w) && ListsValid() && Linked(w, loose)
      && UnitsAgree(w.units) && MembersAgree(w.timerUnit)
    }

    lemma SlotsApart(loose: set<TimerUnit>, level: nat, index: nat)
      requires Shape(w) && Linked(w, loose) && InRange(level, index)
      ensures forall l: nat, s: nat, k: nat {:trigger Slot(w, l, s)[k]} ::
                InRange(l, s) && k < |Slot(w, l, s)| ==>
                  && Slot(w, l, s)[k] !in loose && Slot(w, l, s)[k] in w.units
                  && (l != level || s != index ==> Slot(w, l, s)[k] !in Slot(w, level, index))
    {
    }

    lemma ListsAgreeNow(v: Wheels<TimerUnit, TimerBase>, v': Wheels<TimerUnit, TimerBase>, level: nat, index: nat,
                        list: seq<TimerUnit>)
      requires InRange(level, index) && Grid() && Shape(v) && Shape(v')
      requires ListsAgreeBut(v, level, index, list)
      requires v'.slots == WithSlot(v, level, index, list).slots
      ensures ListsAgree(v')
    {
      assert forall l: nat, s: nat :: InRange(l, s) ==>
          Slot(v', l, s) == if l == level && s == index then list else Slot(v, l, s);
    }

    // ---- the slot operations, first on the heap alone ----

    /** Slot.Insert and SetLocation. */
    method InsertAt(level: nat, index: nat, u: TimerUnit)
      requires Grid() && Shape(w) && ListsAgree(w) && ListsValid()
      requires Linked(w, {u}) && u in w.units && u in repr && u.prev == null && InRange(level, index)
      modifies slots[level][index], u`next, u`location, Slot(w, level, index)`prev
      ensures slots[level][index].units == [u] + Slot(w, level, index) && u.location == slots[level][index]
      ensures ListsValid()
    {
      hide Linked;
      SlotsApart({u}, level, index);
      slots[level][index].Insert(u);
      u.location := slots[level][index];
    }

    /** Slot.Pop. */
    method PopAt(level: nat, index: nat) returns (u: TimerUnit)
      requires Grid() && Shape(w) && ListsAgree(w) && ListsValid()
      requires Linked(w, {}) && InRange(level, index) && Slot(w, level, index) != []
      modifies slots[level][index], Slot(w, level, index)`prev, Slot(w, level, index)`next, Slot(w, level, index)`location
      ensures u == Slot(w, level, index)[0] && slots[level][index].units == Slot(w, level, index)[1..]
      ensures u.prev == null && u.location == null
      ensures forall v | v in w.units && v != u :: v.location == old(v.location)
      ensures ListsValid()
    {
      hide Linked;
      SlotsApart({}, level, index);
      u := slots[level][index].Pop();
    }

    /** location->Delete. */
    method DeleteAt(ghost level: nat, ghost index: nat, u: TimerUnit)
      requires InRange(level, index) && |slots| == 3 && |slots[level]| == N && u.location == slots[level][index]
      requires Grid() && Shape(w) && ListsAgree(w) && ListsValid()
      requires Linked(w, {}) && InRange(level, index) && u in Slot(w, level, index)
      modifies slots[level][index], Slot(w, level, index)`prev, Slot(w, level, index)`next, u`location
      ensures slots[level][index].units == Without(Slot(w, level, index), u) && u.location == null
      ensures ListsValid()
    {
      hide Linked;
      SlotsApart({}, level, index);
      u.location.Delete(u);
    }

    /** The heap has changed one slot list and one unit's location. */
    ghost predicate Changed(level: nat, index: nat, list: seq<TimerUnit>, u: TimerUnit, place: Place)
      reads this, repr
    {
      && Grid() && Shape(w) && w.interval == interval && w.cur == current && u in w.units
      && ListsAgreeBut(w, level, index, list) && ListsValid()
      && UnitsAgree(w.units[u := w.units[u].(location := place)]) && MembersAgree(w.timerUnit)
    }

    method ChangeByInsert(level: nat, index: nat, u: TimerUnit)
      requires u.prev == null && Couples({u}) && u in w.units && InRange(level, index)
      modifies repr
      ensures Changed(level, index, [u] + Slot(w, level, index), u, At(level, index))
    {
      hide Linked, ListsValid, TimerSlot.Valid, Without;
      SlotsApart({u}, level, index);
      InsertAt(level, index, u);
    }

    method ChangeByPop(level: nat, index: nat) returns (u: TimerUnit)
      requires Couples({}) && InRange(level, index) && Slot(w, level, index) != []
      modifies repr
      ensures u.prev == null && u == Slot(w, level, index)[0]
      ensures Changed(level, index, Slot(w, level, index)[1..], u, Nowhere)
    {
      hide Linked, ListsValid, TimerSlot.Valid, Without;
      SlotsApart({}, level, index);
      u := PopAt(level, index);
    }

    method ChangeByDelete(ghost level: nat, ghost index: nat, u: TimerUnit)
      requires Couples({}) && u in w.units && w.units[u].location == At(level, index) && InRange(level, index)
      requires u in Slot(w, level, index)
      modifies repr
      ensures Changed(level, index, Without(Slot(w, level, index), u), u, Nowhere)
    {
      hide Linked, ListsValid, TimerSlot.Valid, Without;
      SlotsApart({}, level, index);
      DeleteAt(level, index, u);
    }

    // ---- the same as changes of the abstract wheels ----

    /** The abstract wheels follow the heap. */
    ghost method SetWheels(v: Wheels<TimerUnit, TimerBase>, loose: set<TimerUnit>)
      requires Grid() && Shape(v) && v.interval == interval && v.cur == current
      requires ListsAgree(v) && ListsValid() && Linked(v, loose)
      requires UnitsAgree(v.units) && MembersAgree(v.timerUnit)
      modifies this`w
      ensures w == v && Couples(loose)
    {
      hide Linked, UnitsAgree, MembersAgree, ListsAgree, ListsValid;
      w := v;
    }

    ghost method Settle(v: Wheels<TimerUnit, TimerBase>, level: nat, index: nat, list: seq<TimerUnit>,
                        u: TimerUnit, place: Place, loose: set<TimerUnit>)
      requires InRange(level, index) && Changed(level, index, list, u, place)
      requires v == WithSlot(w, level, index, list).(units := w.units[u := w.units[u].(location := place)])
      requires Linked(v, loose)
      modifies this`w
      ensures w == v && Couples(loose)
    {
      hide Linked, UnitsAgree, MembersAgree, ListsAgree, ListsValid, ListsAgreeBut;
      ListsAgreeNow(w, v, level, index, list);
      SetWheels(v, loose);
    }

    /** Insert and SetLocation of the wheel at `level`. */
    method LinkUnit(level: nat, index: nat, u: TimerUnit)
      requires u.prev == null && Couples({u}) && u in w.units && InRange(level, index)
      modifies this`w, repr
      ensures Couples({}) && w == Link(old(w), u, old(w.units[u]).(location := At(level, index)))
    {
      hide Linked, Couples, Changed;
      Facts({u});
      ghost var unit := w.units[u].(location := At(level, index));
      LinkLinks(w, u, unit);
      ChangeByInsert(level, index, u);
      Settle(Link(w, u, unit), level, index, [u] + Slot(w, level, index), u, At(level, index), {});
    }

    lemma Facts(loose: set<TimerUnit>)
      requires Couples(loose)
      ensures Shape(w) && Linked(w, loose) && w.cur == current && w.interval == interval && this !in repr
    {
    }

    /** Pop of the slot at the wheel's cursor; the unit becomes loose. */
    method PopUnit(level: nat) returns (u: TimerUnit)
      requires Couples({}) && level < 3 && Slot(w, level, w.cur[level]) != []
      modifies this`w, repr
      ensures u == old(Slot(w, level, w.cur[level]))[0] && old(u in w.units) && u.prev == null
      ensures Couples({u}) && w == Pop(old(w), level, old(w.cur[level]))
      ensures Shape(old(w)) && Shape(w) && u in w.units && this !in repr && repr == old(repr)
    {
      hide Linked, Couples, Changed;
      Facts({});
      ghost var index := w.cur[level];
      PopUnlinks(w, level, index);
      u := ChangeByPop(level, current[level]);
      Settle(Pop(w, level, index), level, index, Slot(w, level, index)[1..], u, Nowhere, {u});
    }

    /** past_time_ += delta. */
    method AddPast(u: TimerUnit, delta: int, ghost loose: set<TimerUnit>)
      requires Couples(loose) && u in w.units
      modifies this`w, u`past
      ensures Couples(loose) && w == PastAdded(old(w), u, delta)
    {
      RelabelKeepsLinks(w, PastAdded(w, u, delta).units, loose);
      ChangePast(u, delta, loose);
      hide Linked, ListsValid, UnitsAgree, MembersAgree;
      SetWheels(PastAdded(w, u, delta), loose);
    }

    method ChangePast(u: TimerUnit, delta: int, ghost loose: set<TimerUnit>)
      requires Couples(loose) && u in w.units
      modifies u`past
      ensures Grid() && Shape(w) && UnitsAgree(PastAdded(w, u, delta).units) && MembersAgree(w.timerUnit)
      ensures ListsValid() && ListsAgree(PastAdded(w, u, delta))
    {
      hide Linked;
      u.past := u.past + delta;
    }

    /** AddTimer(TimerUnit*) of the wheel at `level`. */
    method AddTimerUnit(level: nat, u: TimerUnit)
      requires u.prev == null && Couples({u}) && u in w.units && level < 3
      modifies this`w, repr
      ensures Couples({}) && w == AddUnit(old(w), level, u)
      decreases 3 - level
    {
      hide *;
      var rest := Rest(u, {u});
      var iv := LevelInterval(interval, level);
      if rest < N * iv || level == 2 {
        AddUnitDirect(w, level, u);
        AddDirectly(level, SlotOffset(rest, iv), iv, u);
      } else {
        AddUnitUp(w, level, u);
        AddPast(u, Times(N - current[level], iv), {u});
        AddTimerUnit(level + 1, u);
      }
    }

    method Rest(u: TimerUnit, ghost loose: set<TimerUnit>) returns (rest: int)
      requires Couples(loose) && u in w.units
      ensures rest == w.units[u].time - w.units[u].past && u in repr && this !in repr
      ensures current == w.cur && |current| == 3 && interval == w.interval && interval > 0 && Shape(w)
    {
      hide Linked;
      rest := u.time - u.past;
    }

    method AddDirectly(level: nat, off: nat, iv: int, u: TimerUnit)
      requires u.prev == null && Couples({u}) && u in w.units && level < 3
      modifies this`w, repr
      ensures Couples({}) && w == DirectlyAdded(old(w), level, off, iv, u)
    {
      hide Couples, Linked, Times, Landing;
      var rest := Rest(u, {u});
      LinkUnit(level, Ahead(current[level], off), u);
      AddPast(u, Times(off - 1, iv), {});
    }

    /** delete timer_unit_p: its destructor clears the member's pointer. */
    method FreeUnit(u: TimerUnit)
      requires Couples({u}) && u in w.units
      modifies this`w, repr
      ensures Couples({}) && w == Free(old(w), u) && u.member.timerUnit == null
    {
      hide Linked, ListsValid, ListsAgree;
      FreeKeeps(w, u);
      ClearPointer(u);
      SetWheels(Free(w, u), {});
    }

    method ClearPointer(u: TimerUnit)
      requires Couples({u}) && u in w.units
      modifies repr
      ensures Grid() && Shape(w) && UnitsAgree(Free(w, u).units) && MembersAgree(Free(w, u).timerUnit)
      ensures ListsValid() && ListsAgree(Free(w, u)) && u.member.timerUnit == null
    {
      hide Linked;
      u.member.timerUnit := null;
    }

    // ---- the operations, each a step of the run ----

    /** The object is a run of the transition system, now in the given phase. */
    ghost predicate Tracks(phase: Phase)
      reads this, repr
    {
      && Couples({}) && IsRun(run, ops) && Last().w == w && Last().phase == phase
    }

    ghost predicate Valid()
      reads this, repr
    {
      Tracks(Idle)
    }

    ghost function Last(): State<TimerUnit, TimerBase>
      requires |run| > 0
      reads this
    {
      run[|run| - 1]
    }

    ghost method Record(op: Op<TimerUnit, TimerBase>, s: State<TimerUnit, TimerBase>)
      requires Couples({}) && IsRun(run, ops) && s.w == w
      requires Inv(Last()) && Next(Last(), s, op)
      modifies this`run, this`ops
      ensures Tracks(s.phase) && Last() == s && Inv(s)
      ensures run == old(run) + [s] && ops == old(ops) + [op]
    {
      hide Next, Init, Linked, UnitsAgree, MembersAgree, ListsAgree, ListsValid, Cursors, UnitsTimely, Accounts;
      NextKeepsInv(Last(), s, op);
      ExtendRun(run, ops, s, op);
      run, ops := run + [s], ops + [op];
    }

    ghost method RecordAdd(u: TimerUnit, m: TimerBase, time: int, v: Wheels<TimerUnit, TimerBase>)
      requires Couples({}) && IsRun(run, ops) && Last().phase == Idle && Last().w == v
      requires u !in Last().births && Shape(v) && w == TimerSpec.AddTimer(v, u, m, time) && time > 0
      modifies this`run, this`ops
      ensures Valid() && Shape(v) && Linked(v, {}) && old(Last()).w == v && Next(old(Last()), Last(), Add(u, m, time))
      ensures run == old(run) + [Last()] && ops == old(ops) + [Add(u, m, time)]
    {
      hide Couples, Linked, TimerSpec.AddTimer, NewBirth, Cursors, UnitsTimely, Accounts, Init;
      RunInv(run, ops, |run| - 1);
      ghost var s := Last();
      ghost var s' := s.(w := w, births := s.births[u := NewBirth(v.interval, s.now, time, v.cur[0], v.cur[1])]);
      Record(Add(u, m, time), s');
    }

    ghost method RecordDel(m: TimerBase, v: Wheels<TimerUnit, TimerBase>)
      requires Couples({}) && IsRun(run, ops) && Last().phase == Idle && Last().w == v
      requires Shape(v) && Linked(v, {}) && w == TimerSpec.DelTimer(v, m)
      modifies this`run, this`ops
      ensures Valid() && old(Last()).w == v && Next(old(Last()), Last(), Del(m))
      ensures run == old(run) + [Last()] && ops == old(ops) + [Del(m)]
    {
      hide Couples, Linked, TimerSpec.DelTimer, NewBirth, Cursors, UnitsTimely, Accounts, Init;
      RunInv(run, ops, |run| - 1);
      ghost var s := Last();
      ghost var s' := s.(w := w, deleted := if m in v.timerUnit then s.deleted + {v.timerUnit[m]} else s.deleted);
      Record(Del(m), s');
    }

    lemma LastInv(phase: Phase)
      requires Tracks(phase)
      ensures |run| > 0 && Inv(Last())
    {
      hide Inv, Couples;
      RunInv(run, ops, |run| - 1);
    }

    /** new TimerUnit(m, time): allocated, recorded by its member, linked nowhere yet. */
    method NewUnit(m: TimerBase, time: int) returns (u: TimerUnit)
      requires Couples({}) && (m !in members ==> m.timerUnit == null)
      modifies this`w, this`members, this`repr, m
      ensures fresh(u) && u.prev == null && Couples({u}) && u in w.units && w == Allotted(old(w), u, m, time)
      ensures Shape(old(w)) && old(w).interval == interval && old(w).cur == w.cur
      ensures repr == old(repr) + {u, m} && members == old(members) + {m}
    {
      hide Linked, ListsAgree, ListsValid;
      u := AllocateUnit(m, time);
      ghost var v := Allotted(w, u, m, time);
      AllottedLinks(w, u, m, time);
      SetWheels(v, {u});
    }

    method AllocateUnit(m: TimerBase, time: int) returns (u: TimerUnit)
      requires Couples({}) && (m !in members ==> m.timerUnit == null)
      modifies this`members, this`repr, m
      ensures members == old(members) + {m}
      ensures fresh(u) && u.prev == null && repr == old(repr) + {u, m} && Grid() && Shape(w) && u !in w.units
      ensures UnitsAgree(Allotted(w, u, m, time).units) && MembersAgree(Allotted(w, u, m, time).timerUnit)
      ensures ListsValid() && ListsAgree(Allotted(w, u, m, time))
    {
      hide Linked;
      u := new TimerUnit(m, time);
      members := members + {m};
      repr := repr + {u, m};
    }

    /** AddTimer(obj, time): a unit for m is scheduled; a time of zero or less is ignored. */
    method AddTimer(m: TimerBase, time: int) returns (ghost u: TimerUnit?)
      requires Valid() && (m !in members ==> m.timerUnit == null)
      modifies this, repr, m
      ensures Valid()
      ensures time <= 0 ==> w == old(w) && run == old(run) && ops == old(ops)
      ensures time > 0 ==> u != null && fresh(u) && w == TimerSpec.AddTimer(old(w), u, m, time)
      ensures time > 0 ==> Next(old(Last()), Last(), Add(u, m, time))
      ensures time > 0 ==> run == old(run) + [Last()] && ops == old(ops) + [Add(u, m, time)]
      ensures time > 0 ==> members == old(members) + {m}
      ensures fresh(repr - old(repr) - {m})
    {
      hide Couples, Linked, TimerSpec.AddTimer, NewBirth, Init, Cursors, UnitsTimely, Accounts;
      Recorded(m, {});
      if time <= 0 {
        return null;
      }
      u := Schedule(m, time);
      RecordAdd(u, m, time, old(w));
    }

    method Schedule(m: TimerBase, time: int) returns (u: TimerUnit)
      requires Couples({}) && (m !in members ==> m.timerUnit == null) && time > 0
      modifies this`w, this`members, this`repr, repr, m
      ensures Couples({}) && fresh(u) && Shape(old(w)) && w == TimerSpec.AddTimer(old(w), u, m, time)
      ensures repr == old(repr) + {u, m} && members == old(members) + {m}
    {
      hide Couples, Linked, Times, SlotOffset, AddUnit, PastAdded, Allotted, TimerSpec.AddTimer, Link;
      u := NewUnit(m, time);
      var rest := Rest(u, {u});
      if time < N * interval {
        AddTimerDirect(old(w), u, m, time);
        LinkUnit(0, Ahead(current[0], SlotOffset(time, interval)), u);
      } else {
        AddTimerUp(old(w), u, m, time);
        AddPast(u, Times(N - current[0], interval), {u});
        AddTimerUnit(1, u);
      }
    }

    /** DelTimer(obj): the unit m records, if any, is unlinked and freed. */
    method DelTimer(m: TimerBase)
      requires Valid() && (m !in members ==> m.timerUnit == null)
      modifies this, repr
      ensures Valid() && repr == old(repr) && members == old(members)
      ensures Shape(old(w)) && Linked(old(w), {}) && w == TimerSpec.DelTimer(old(w), m)
      ensures Next(old(Last()), Last(), Del(m))
      ensures run == old(run) + [Last()] && ops == old(ops) + [Del(m)]
      ensures m.timerUnit == null
    {
      hide Couples, Linked, TimerSpec.DelTimer, Init, Inv;
      Recorded(m, {});
      Cancel(m);
      RecordDel(m, old(w));
    }

    method Cancel(m: TimerBase)
      requires Couples({}) && (m !in members ==> m.timerUnit == null)
      modifies this`w, repr
      ensures Couples({}) && Shape(old(w)) && Linked(old(w), {}) && w == TimerSpec.DelTimer(old(w), m)
      ensures m.timerUnit == null && this !in repr
    {
      hide Linked, Free, Unlink;
      Recorded(m, {});
      if m.timerUnit != null {
        var u := m.timerUnit;
        UnlinkUnit(u);
        FreeUnit(u);
      }
    }

    /** What a member records. */
    lemma Recorded(m: TimerBase, loose: set<TimerUnit>)
      requires Couples(loose) && (m !in members ==> m.timerUnit == null)
      ensures m.timerUnit == if m in w.timerUnit then w.timerUnit[m] else null
      ensures m.timerUnit != null ==> m.timerUnit in w.units && m.timerUnit.member == m
      ensures this !in repr && (m in w.timerUnit ==> m in members)
    {
    }

    /** Set_timer and Set_auto_persistence_timer: delete, then add. If every member had one pending
        unit at most, so it is afterwards, and the new unit is the one of m. */
    method SetTimer(m: TimerBase, time: int) returns (ghost u: TimerUnit)
      requires Valid() && (m !in members ==> m.timerUnit == null) && time > 0
      modifies this, repr, m
      ensures Valid() && fresh(u) && members == old(members) + {m} && fresh(repr - old(repr) - {m})
      ensures |run| == |old(run)| + 2 && old(run) <= run && ops == old(ops) + [Del(m), Add(u, m, time)]
      ensures u in w.units && w.units[u].member == m && m in w.timerUnit && w.timerUnit[m] == u
      ensures OnePerMember(old(w)) ==>
                OnePerMember(w) && forall v | v in w.units && w.units[v].member == m :: v == u
    {
      hide Couples, Linked, TimerSpec.DelTimer, TimerSpec.AddTimer, Init, Inv, IsRun, Next;
      LastInv(Idle);
      ghost var s0 := Last();
      DelTimer(m);
      LastInv(Idle);
      ghost var s1 := Last();
      u := AddTimer(m, time);
      DeletedThenAdded(s0, s1, Last(), u, m, time);
    }

    static lemma DeletedThenAdded(s0: State<TimerUnit, TimerBase>, s1: State<TimerUnit, TimerBase>,
                                  s2: State<TimerUnit, TimerBase>, u: TimerUnit, m: TimerBase, time: int)
      requires Inv(s0) && Inv(s1) && Next(s0, s1, Del(m)) && Next(s1, s2, Add(u, m, time)) && time > 0
      ensures u in s2.w.units && s2.w.units[u].member == m && m in s2.w.timerUnit && s2.w.timerUnit[m] == u
      ensures OnePerMember(s0.w) ==> OnePerMember(s2.w)
    {
      hide Linked, Cursors, UnitsTimely, Accounts, TimerSpec.DelTimer, FiringTick;
      DelTimerCancels(s0, s1, m);
      if OnePerMember(s0.w) { OnePerMemberKept(s1, s2, Add(u, m, time)); }
    }

    /** Delete of the slot u is linked in. */
    method UnlinkUnit(u: TimerUnit)
      requires Couples({}) && u in w.units
      modifies this`w, repr
      ensures Couples({u}) && u in w.units && this !in repr
      ensures Shape(old(w)) && Placed(old(w), u) && w == Unlink(old(w), u)
    {
      hide Changed, ListsAgree, ListsValid, UnitsAgree, MembersAgree;
      assert Placed(w, u);
      ghost var p := w.units[u].location;
      UnlinkUnlinks(w, u);
      ChangeByDelete(p.level, p.slot, u);
      Settle(Unlink(w, u), p.level, p.slot, Without(Slot(w, p.level, p.slot), u), u, Nowhere, {u});
    }

    /** One tick of the whole set: Tick of the first wheel, which carries into the others. The run
        goes on with one tick and, until the next operation, with popped units and ends of slots. */
    method Tick()
      requires Valid()
      modifies this, repr
      ensures Valid() && repr == old(repr) && members == old(members)
      ensures old(run) <= run && Continues(old(ops), ops, Op.Tick)
      ensures old(|run|) > 0 && Last().now == old(Last().now) + 1
    {
      TickWheel(0);
    }

    /** Ready for the Tick of the wheel at `level`: idle, or just carried out of the wheel below. */
    ghost predicate Ready(level: nat)
      reads this, repr
    {
      && level < 3
      && if level == 0 then Tracks(Idle)
         else Tracks(Draining(level - 1)) && w.cur[level - 1] == 0 && Slot(w, level - 1, w.cur[level - 1]) == []
    }

    /** Tick of the wheel at `level`. */
    method TickWheel(level: nat)
      requires Ready(level)
      modifies this, repr
      ensures Valid() && repr == old(repr) && members == old(members)
      ensures old(|run|) > 0 && Last().now == old(Last().now) + (if level == 0 then 1 else 0)
      ensures old(run) <= run && Continues(old(ops), ops, if level == 0 then Op.Tick else Done)
      decreases 3 - level
    {
      hide Couples, Linked, Init, IsRun, Slot;
      AdvanceCursor(level);
      DrainSlot(level);
      var carry := WheelFacts(level);
      if carry && level < 2 {
        TickWheel(level + 1);
      } else {
        RecordDone(level);
      }
    }

    /** What the coupling says of one wheel. */
    method WheelFacts(level: nat) returns (carry: bool)
      requires Tracks(Draining(level)) && level < 3
      ensures Shape(w) && current == w.cur && this !in repr && carry == (w.cur[level] == 0)
    {
      hide Linked, ListsAgree, ListsValid, UnitsAgree, MembersAgree;
      carry := current[level] == 0;
    }

    method AdvanceCursor(level: nat)
      requires Ready(level)
      modifies this`current, this`w, this`run, this`ops
      ensures Tracks(Draining(level)) && old(|run|) > 0 && Last().now == old(Last().now) + (if level == 0 then 1 else 0)
      ensures this !in repr
      ensures run == old(run) + [Last()] && ops == old(ops) + [if level == 0 then Op.Tick else Done]
    {
      hide Couples, Linked, Slot, Init, IsRun, Advance;
      LastInv(if level == 0 then Idle else Draining(level - 1));
      MoveCursor(level);
      RecordAdvance(level, old(w));
    }

    /** current_index_ goes to the next slot. */
    method MoveCursor(level: nat)
      requires Couples({}) && Shape(w) && level < 3
      modifies this`current, this`w
      ensures Couples({}) && Shape(old(w)) && w == Advance(old(w), level) && this !in repr
    {
      hide Linked, ListsAgree, ListsValid, UnitsAgree, MembersAgree;
      AdvanceKeepsLinks(w, level);
      AdvanceKeepsLists(w, level);
      current := current[level := (current[level] + 1) % N];
      SetWheels(Advance(w, level), {});
    }

    ghost method RecordAdvance(level: nat, v: Wheels<TimerUnit, TimerBase>)
      requires level < 3 && Couples({}) && IsRun(run, ops) && |run| > 0 && Last().w == v && Inv(Last())
      requires Shape(v) && w == Advance(v, level)
      requires if level == 0 then Last().phase == Idle
               else
                 && Last().phase == Draining(level - 1) && v.cur[level - 1] == 0
                 && Slot(v, level - 1, v.cur[level - 1]) == []
      modifies this`run, this`ops
      ensures Tracks(Draining(level)) && old(|run|) > 0 && Last().now == old(Last().now) + (if level == 0 then 1 else 0)
      ensures run == old(run) + [Last()] && ops == old(ops) + [if level == 0 then Op.Tick else Done]
    {
      hide Couples, Linked, Slot, Init, IsRun, Advance, Cursors, UnitsTimely, Accounts;
      ghost var s := Last();
      if level == 0 {
        Record(Op.Tick, s.(w := w, phase := Draining(0), now := s.now + 1));
      } else {
        Record(Done, s.(w := w, phase := Draining(level)));
      }
    }

    lemma AdvanceKeepsLists(v: Wheels<TimerUnit, TimerBase>, level: nat)
      requires Grid() && Shape(v) && ListsAgree(v) && level < 3
      ensures ListsAgree(Advance(v, level))
    {
      assert forall l: nat, t: nat | InRange(l, t) :: Slot(Advance(v, level), l, t) == Slot(v, l, t);
    }

    ghost method RecordDone(level: nat)
      requires Tracks(Draining(level)) && level < 3 && Shape(w)
      requires Slot(w, level, w.cur[level]) == [] && (w.cur[level] != 0 || level == 2)
      modifies this`run, this`ops
      ensures Valid() && old(|run|) > 0 && Last().now == old(Last().now)
      ensures run == old(run) + [Last()] && ops == old(ops) + [Done]
    {
      hide Linked, ListsAgree, ListsValid, UnitsAgree, MembersAgree, Init;
      LastInv(Draining(level));
      Record(Done, Last().(phase := Idle));
    }

    /** The pop loop of Tick. */
    method DrainSlot(level: nat)
      requires Tracks(Draining(level)) && level < 3
      modifies this`w, this`run, this`ops, repr
      ensures Tracks(Draining(level)) && Shape(w) && Slot(w, level, w.cur[level]) == []
      ensures old(|run|) > 0 && Last().now == old(Last().now)
      ensures old(run) <= run && Pops(old(ops), ops)
    {
      hide Couples, Linked, Init, IsRun;
      var more := HasUnits(level);
      while more
        invariant Tracks(Draining(level)) && |run| > 0 && Last().now == old(Last().now) && this !in repr
        invariant old(run) <= run && Pops(old(ops), ops)
        invariant Shape(w) && more == (Slot(w, level, w.cur[level]) != [])
        decreases |Slot(w, level, w.cur[level])|
      {
        PopOne(level);
        more := HasUnits(level);
      }
    }

    method HasUnits(level: nat) returns (more: bool)
      requires Tracks(Draining(level)) && level < 3
      ensures Shape(w) && more == (Slot(w, level, w.cur[level]) != []) && this !in repr && |run| > 0
    {
      hide Linked, UnitsAgree, MembersAgree, Init;
      more := slots[level][current[level]].timerList != null;
    }

    /** One popped unit: it acts and is freed, or goes to the wheel below. */
    method PopOne(level: nat)
      requires Tracks(Draining(level)) && level < 3 && Shape(w) && Slot(w, level, w.cur[level]) != []
      requires |run| > 0 && this !in repr
      modifies this`w, this`run, this`ops, repr
      ensures Tracks(Draining(level)) && Shape(w) && w.cur == old(w.cur)
      ensures |Slot(w, level, w.cur[level])| < old(|Slot(w, level, w.cur[level])|)
      ensures old(|run|) > 0 && Last().now == old(Last().now)
      ensures run == old(run) + [Last()] && ops == old(ops) + [Op.PopUnit]
    {
      hide Couples, Linked, Init, IsRun;
      ghost var v := w;
      MovePopped(level);
      RecordPop(level, v);
    }

    method MovePopped(level: nat)
      requires Couples({}) && Shape(w) && level < 3 && Slot(w, level, w.cur[level]) != []
      modifies this`w, repr
      ensures Couples({}) && Shape(old(w)) && Slot(old(w), level, old(w).cur[level]) != []
      ensures Slot(old(w), level, old(w).cur[level])[0] in old(w).units
      ensures w == PopStep(old(w), level).0 && this !in repr
    {
      hide Couples, Linked, AddUnit, Free;
      var u := PopUnit(level);
      var rest := Rest(u, {u});
      if level == 0 || rest <= 0 || TruncMod(rest, N * LevelInterval(interval, level)) == 0 {
        // u acts
        FreeUnit(u);
      } else {
        AddTimerUnit(level - 1, u);
      }
    }

    ghost method RecordPop(level: nat, v: Wheels<TimerUnit, TimerBase>)
      requires Couples({}) && IsRun(run, ops) && Last().phase == Draining(level) && Last().w == v && level < 3
      requires Shape(v) && Slot(v, level, v.cur[level]) != [] && Slot(v, level, v.cur[level])[0] in v.units
      requires w == PopStep(v, level).0
      modifies this`run, this`ops
      ensures Tracks(Draining(level)) && Shape(w) && w.cur == v.cur
      ensures |Slot(w, level, w.cur[level])| < |Slot(v, level, v.cur[level])|
      ensures old(|run|) > 0 && Last().now == old(Last().now)
      ensures run == old(run) + [Last()] && ops == old(ops) + [Op.PopUnit]
    {
      hide Couples, Linked, Cursors, UnitsTimely, Accounts, Init, PopStep;
      RunInv(run, ops, |run| - 1);
      ghost var s := Last();
      ghost var now := PopStep(v, level).1;
      PopStepShrinks(s);
      Record(Op.PopUnit, s.(w := w, acted := s.acted + seq(|now|, k requires 0 <= k < |now| => Event(now[k], s.now))));
    }
  }

  lemma PopStepShrinks<U, M>(s: State<U, M>)
    requires Inv(s) && s.phase.Draining? && s.phase.level < 3
    requires var l := s.phase.level; Slot(s.w, l, s.w.cur[l]) != [] && Slot(s.w, l, s.w.cur[l])[0] in s.w.units
    ensures var l := s.phase.level; var w' := PopStep(s.w, l).0;
            w'.cur == s.w.cur && |Slot(w', l, s.w.cur[l])| < |Slot(s.w, l, s.w.cur[l])|
  {
    hide Timely, Linked, Cursors, Accounts, Landing;
    var l := s.phase.level;
    var u := Slot(s.w, l, s.w.cur[l])[0];
    var w1 := Pop(s.w, l, s.w.cur[l]);
    if !ActsNow(w1, l, u) {
      LandingIsAhead(s.w.interval, s.w.cur, l - 1, w1.units[u]);
      LinkAway(w1, u, Landing(s.w.interval, s.w.cur, l - 1, w1.units[u]));
    }
  }

  lemma AddTimerDirect<U, M>(w: Wheels<U, M>, u: U, m: M, time: int)
    requires Shape(w) && 0 < time < N * w.interval
    ensures var v := Allotted(w, u, m, time);
            TimerSpec.AddTimer(w, u, m, time) ==
              Link(v, u, v.units[u].(location := At(0, Ahead(w.cur[0], SlotOffset(time, w.interval)))))
  {
    hide Times, SlotOffset;
    var unit := FirstLanding(w.interval, w.cur, m, time);
    assert w.units[u := Unit(m, time, 0, Nowhere)][u := unit] == w.units[u := unit];
  }

  lemma AddTimerUp<U, M>(w: Wheels<U, M>, u: U, m: M, time: int)
    requires Shape(w) && time > 0 && time >= N * w.interval
    ensures TimerSpec.AddTimer(w, u, m, time) ==
              AddUnit(PastAdded(Allotted(w, u, m, time), u, Times(N - w.cur[0], w.interval)), 1, u)
  {
    hide Times, SlotOffset, Landing;
    var unit := FirstLanding(w.interval, w.cur, m, time);
    var up := Unit(m, time, Times(N - w.cur[0], w.interval), Nowhere);
    assert w.units[u := Unit(m, time, 0, Nowhere)][u := up][u := unit] == w.units[u := unit];
  }

  /** The wheels with a new unit that is linked nowhere yet. */
  function Allotted<U, M>(w: Wheels<U, M>, u: U, m: M, time: int): (w': Wheels<U, M>)
    ensures Shape(w) ==> Shape(w')
  {
    w.(units := w.units[u := Unit(m, time, 0, Nowhere)], timerUnit := w.timerUnit[m := u])
  }

  lemma AllottedLinks<U, M>(w: Wheels<U, M>, u: U, m: M, time: int)
    requires Shape(w) && Linked(w, {}) && u !in w.units
    ensures Linked(Allotted(w, u, m, time), {u})
  {
    var w' := Allotted(w, u, m, time);
    assert forall l: nat, t: nat :: InRange(l, t) ==> Slot(w', l, t) == Slot(w, l, t);
    forall v | v in w'.units && v !in {u} ensures Placed(w', v) { assert Placed(w, v); }
  }

  lemma ExtendRun<U, M>(run: seq<State<U, M>>, ops: seq<Op<U, M>>, s: State<U, M>, op: Op<U, M>)
    requires IsRun(run, ops)
    requires var last := run[|run| - 1]; Shape(last.w) && Linked(last.w, {}) && Next(last, s, op)
    ensures IsRun(run + [s], ops + [op])
  {
    hide Next, Init, Shape, Linked;
    var run', ops' := run + [s], ops + [op];
    forall k | 0 <= k < |ops'| && Shape(run'[k].w) && Linked(run'[k].w, {})
      ensures Next(run'[k], run'[k + 1], ops'[k])
    {
      if k < |ops| {
        assert run'[k] == run[k] && run'[k + 1] == run[k + 1] && ops'[k] == ops[k];
      }
    }
  }

  function PastAdded<U, M>(w: Wheels<U, M>, u: U, delta: int): (w': Wheels<U, M>)
    requires u in w.units
    ensures Shape(w) ==> Shape(w')
    ensures u in w'.units
  {
    w.(units := w.units[u := w.units[u].(past := w.units[u].past + delta)])
  }

  /** Insert, SetLocation and past_time_ += (off - 1) * iv. */
  function DirectlyAdded<U, M>(w: Wheels<U, M>, level: nat, off: nat, iv: int, u: U): Wheels<U, M>
    requires Shape(w) && level < 3 && u in w.units
  {
    PastAdded(Link(w, u, w.units[u].(location := At(level, Ahead(w.cur[level], off)))), u, Times(off - 1, iv))
  }

  lemma AddUnitDirect<U, M>(w: Wheels<U, M>, level: nat, u: U)
    requires Shape(w) && level < 3 && u in w.units
    requires level == 2 || w.units[u].time - w.units[u].past < N * LevelInterval(w.interval, level)
    ensures var iv := LevelInterval(w.interval, level);
            AddUnit(w, level, u) == DirectlyAdded(w, level, SlotOffset(w.units[u].time - w.units[u].past, iv), iv, u)
  {
    hide Times, SlotOffset;
  }

  lemma AddUnitUp<U, M>(w: Wheels<U, M>, level: nat, u: U)
    requires Shape(w) && level < 2 && u in w.units
    requires w.units[u].time - w.units[u].past >= N * LevelInterval(w.interval, level)
    ensures var delta := Times(N - w.cur[level], LevelInterval(w.interval, level));
            AddUnit(w, level, u) == AddUnit(PastAdded(w, u, delta), level + 1, u)
  {
    hide Times, SlotOffset;
    var delta := Times(N - w.cur[level], LevelInterval(w.interval, level));
    var unit := w.units[u].(past := w.units[u].past + delta);
    var landed := Landing(w.interval, w.cur, level + 1, unit);
    assert Landing(w.interval, w.cur, level, w.units[u]) == landed;
    assert w.units[u := unit][u := landed] == w.units[u := landed];
  }

  lemma RelabelKeepsLinks<U, M>(w: Wheels<U, M>, units: map<U, Unit<M>>, loose: set<U>)
    requires Shape(w) && Linked(w, loose) && units.Keys == w.units.Keys
    requires forall u | u in units :: units[u].location == w.units[u].location && units[u].member == w.units[u].member
    ensures Linked(w.(units := units), loose)
  {
    var w' := w.(units := units);
    assert forall l: nat, t: nat :: InRange(l, t) ==> Slot(w', l, t) == Slot(w, l, t);
    forall v | v in w'.units && v !in loose ensures Placed(w', v) { assert Placed(w, v); }
  }

  // ---- what a client sees ----

  /** A timer added and any number of ticks: it has acted if and only if its firing tick has come,
      and then exactly once, at that tick. */
  method AddAndTick(wheels: TimerWheelSet, m: TimerBase, time: int, ticks: nat) returns (ghost u: TimerUnit)
    requires wheels.Valid() && (m !in wheels.members ==> m.timerUnit == null) && time > 0
    modifies wheels, wheels.repr, m
    ensures wheels.Valid() && old(wheels.run) <= wheels.run && fresh(u)
    ensures old(wheels.Last()).w.interval > 0 && |old(wheels.w).cur| == 3
    ensures var due := FiringTick(old(wheels.Last()).w.interval, time, old(wheels.w).cur[0], old(wheels.w).cur[1]);
            && (ActedUnit(wheels.Last().acted, u) <==> due <= ticks)
            && (due <= ticks ==> ActsExactlyOnce(wheels.Last().acted, u, old(wheels.Last()).now + due))
  {
    hide TimerWheelSet.Couples, IsRun, FiringTick, Linked, Inv, TimerSpec.AddTimer;
    FirstFacts(wheels);
    ghost var s0 := wheels.Last();
    u := wheels.AddTimer(m, time);
    JustAdded(wheels, s0, u, m, time);
    ghost var b := wheels.Last().births[u];
    for i := 0 to ticks
      invariant wheels.Valid() && old(wheels.run) <= wheels.run && |wheels.run| > 0
      invariant fresh(wheels.repr - old(wheels.repr) - {m})
      invariant u in wheels.Last().births && wheels.Last().births[u] == b && u !in wheels.Last().deleted
      invariant wheels.Last().now == s0.now + i
    {
      FirstFacts(wheels);
      ghost var run, ops := wheels.run, wheels.ops;
      wheels.Tick();
      TickKeepsRecords(wheels, run, ops);
    }
    TimerActsOnce(wheels.run, wheels.ops, |wheels.run| - 1, u);
  }

  lemma FirstFacts(wheels: TimerWheelSet)
    requires wheels.Valid()
    ensures |wheels.run| == |wheels.ops| + 1 && wheels.Last().w == wheels.w && wheels.w.interval > 0 && |wheels.w.cur| == 3
    ensures Inv(wheels.Last())
  {
    hide Linked, Inv, Init, Next;
    wheels.LastInv(Idle);
  }

  lemma JustAdded(wheels: TimerWheelSet, s0: State<TimerUnit, TimerBase>, u: TimerUnit, m: TimerBase, time: int)
    requires wheels.Valid() && Inv(s0) && |wheels.run| > 0 && time > 0 && Next(s0, wheels.Last(), Add(u, m, time))
    ensures |wheels.run| > 0 && u in wheels.Last().births && u !in wheels.Last().deleted && wheels.Last().now == s0.now
    ensures wheels.Last().births[u] == NewBirth(s0.w.interval, s0.now, time, s0.w.cur[0], s0.w.cur[1])
  {
    hide TimerWheelSet.Couples, IsRun, FiringTick, Linked, Cursors, UnitsTimely, TimerSpec.AddTimer;
  }

  /** A tick adds and deletes no timer. */
  lemma TickKeepsRecords(wheels: TimerWheelSet, run: seq<State<TimerUnit, TimerBase>>, ops: seq<Op<TimerUnit, TimerBase>>)
    requires wheels.Valid() && run <= wheels.run && |run| == |ops| + 1 && Continues(ops, wheels.ops, Op.Tick)
    ensures |wheels.run| > 0 && wheels.Last().births == run[|run| - 1].births
    ensures wheels.Last().deleted == run[|run| - 1].deleted
  {
    hide TimerWheelSet.Couples, Linked;
    RecordsStay(wheels.run, wheels.ops, |run| - 1, |wheels.run| - 1);
  }

  // ---- a timer that is set and waited for ----

  /** u is the latest timer of m: added as b says, not deleted, and the only one m can have. */
  ghost predicate Counting(wheels: TimerWheelSet, m: TimerBase, u: TimerUnit, b: Birth)
    reads wheels, wheels.repr
  {
    && wheels.Valid() && OnePerMember(wheels.w) && m in wheels.members && |wheels.run| > 0
    && u in wheels.Last().births && wheels.Last().births[u] == b && u !in wheels.Last().deleted
    && (m in wheels.w.timerUnit ==> wheels.w.timerUnit[m] == u)
    && (u in wheels.w.units ==> wheels.w.units[u].member == m)
  }

  /** Set_timer: the count begins now. */
  method SetAndCount(wheels: TimerWheelSet, m: TimerBase, time: int) returns (ghost u: TimerUnit, ghost b: Birth)
    requires wheels.Valid() && OnePerMember(wheels.w) && (m !in wheels.members ==> m.timerUnit == null) && time > 0
    modifies wheels, wheels.repr, m
    ensures Counting(wheels, m, u, b) && fresh(wheels.repr - old(wheels.repr) - {m})
    ensures |old(wheels.run)| > 0 && wheels.Last().now == old(wheels.Last()).now == b.tick
    ensures wheels.interval > 0 && b.c0 < N && b.c1 < N
    ensures b.due == b.tick + FiringTick(wheels.interval, time, b.c0, b.c1)
  {
    hide TimerWheelSet.Couples, IsRun, FiringTick, Linked, Inv, TimerSpec.AddTimer;
    FirstFacts(wheels);
    ghost var s0 := wheels.Last();
    u := wheels.SetTimer(m, time);
    FirstFacts(wheels);
    b := JustSet(wheels, s0, u, m, time);
  }

  lemma JustSet(wheels: TimerWheelSet, s0: State<TimerUnit, TimerBase>, u: TimerUnit, m: TimerBase, time: int)
    returns (b: Birth)
    requires wheels.Valid() && |wheels.run| == |wheels.ops| + 1 > 2 && time > 0 && Inv(s0) && Inv(wheels.Last())
    requires var n := |wheels.ops|;
             wheels.run[n - 2] == s0 && wheels.ops[n - 2] == Del(m) && wheels.ops[n - 1] == Add(u, m, time)
    requires u in wheels.w.units && wheels.Last().w == wheels.w
    ensures |wheels.run| > 0 && u in wheels.Last().births && wheels.Last().births[u] == b && u !in wheels.Last().deleted
    ensures wheels.Last().now == s0.now == b.tick && wheels.interval > 0 && b.c0 < N && b.c1 < N
    ensures b.due == b.tick + FiringTick(wheels.interval, time, b.c0, b.c1)
  {
    hide FiringTick, Linked, Cursors, UnitsTimely, TimerSpec.AddTimer, TimerSpec.DelTimer, Init, Inv, Next;
    var n := |wheels.ops|;
    RunInv(wheels.run, wheels.ops, n - 1);
    StepRecords(wheels.run[n - 2], wheels.run[n - 1], Del(m));
    StepRecords(wheels.run[n - 1], wheels.run[n], Add(u, m, time));
    b := SetBirth(s0, wheels.run[n - 1], wheels.run[n], u, m, time);
    IntervalIs(wheels);
  }

  lemma SetBirth(s0: State<TimerUnit, TimerBase>, s1: State<TimerUnit, TimerBase>, s2: State<TimerUnit, TimerBase>,
                 u: TimerUnit, m: TimerBase, time: int) returns (b: Birth)
    requires Inv(s1) && Inv(s2) && Shape(s0.w) && Linked(s0.w, {}) && Shape(s1.w) && Linked(s1.w, {}) && time > 0
    requires Next(s0, s1, Del(m)) && Next(s1, s2, Add(u, m, time)) && u in s2.w.units
    ensures u in s2.births && s2.births[u] == b && u !in s2.deleted
    ensures s2.now == s0.now == b.tick && b.c0 < N && b.c1 < N && s2.w.interval > 0
    ensures b.due == b.tick + FiringTick(s2.w.interval, time, b.c0, b.c1)
  {
    hide FiringTick, Linked, Cursors, UnitsTimely, FirstLanding;
    b := s2.births[u];
  }

  lemma IntervalIs(wheels: TimerWheelSet)
    requires wheels.Valid() && |wheels.run| > 0
    ensures wheels.Last().w.interval == wheels.interval
  {
    hide Linked, Inv;
  }

  lemma PointerSeen(wheels: TimerWheelSet, m: TimerBase)
    requires wheels.Valid() && m in wheels.members
    ensures m.timerUnit == null <==> m !in wheels.w.timerUnit
  {
    hide Linked, Inv;
  }

  /** One tick; it is seen from the member's pointer whether the timer has acted. */
  method TickAndLook(wheels: TimerWheelSet, m: TimerBase, ghost u: TimerUnit, ghost b: Birth) returns (acted: bool)
    requires Counting(wheels, m, u, b)
    modifies wheels, wheels.repr
    ensures Counting(wheels, m, u, b) && wheels.repr == old(wheels.repr)
    ensures wheels.Last().now == old(wheels.Last()).now + 1
    ensures acted == (b.due <= wheels.Last().now)
  {
    hide TimerWheelSet.Couples, IsRun, Linked, Inv;
    ghost var run, ops := wheels.run, wheels.ops;
    FirstFacts(wheels);
    wheels.Tick();
    FirstFacts(wheels);
    RecordedUntilDue(wheels.run, wheels.ops, |run| - 1, |wheels.run| - 1, u, m);
    PointerSeen(wheels, m);
    acted := m.timerUnit == null;
  }
}
