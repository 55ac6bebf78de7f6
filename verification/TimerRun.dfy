/** Runs of the three wheels as a transition system: AddTimer, DelTimer and Tick, where a Tick is
    one step per popped unit.  A ghost history records when each unit was added, which units
    acted and at which tick, and which were deleted. */
module TimerRun {
  import opened TimerArith
  import opened TimerSpec

  /** The tick, the time and the two lower cursors at AddTimer, and the tick the timer is due. */
  datatype Birth = Birth(tick: nat, time: int, c0: nat, c1: nat, due: int)

  datatype Event<U> = Event(unit: U, tick: nat)

  datatype Phase = Idle | Draining(level: nat)

  datatype State<U, M> = State(
    w: Wheels<U, M>,
    phase: Phase,
    now: nat,
    births: map<U, Birth>,
    acted: seq<Event<U>>,
    deleted: set<U>)

  function NewBirth(interval: int, tick: nat, time: int, c0: nat, c1: nat): Birth
    requires interval > 0
  {
    Birth(tick, time, c0, c1, tick + FiringTick(interval, time, c0, c1))
  }

  // ---- the transitions ----

  ghost predicate Init<U, M>(s: State<U, M>) {
    && Shape(s.w) && s.w.cur == [0, 0, 0]
    && (forall l: nat, t: nat | InRange(l, t) :: Slot(s.w, l, t) == [])
    && s.w.units == map[] && s.w.timerUnit == map[]
    && s.phase == Idle && s.now == 0 && s.births == map[] && s.acted == [] && s.deleted == {}
  }

  /** AddTimer(m, time) with a freshly allocated unit u. */
  ghost predicate AddStep<U, M>(s: State<U, M>, s': State<U, M>, u: U, m: M, time: int)
    requires Shape(s.w)
  {
    && s.phase == Idle && u !in s.births
    && s' == s.(w := AddTimer(s.w, u, m, time),
                births := if time > 0 then s.births[u := NewBirth(s.w.interval, s.now, time, s.w.cur[0], s.w.cur[1])]
                          else s.births)
  }

  ghost predicate DelStep<U, M>(s: State<U, M>, s': State<U, M>, m: M)
    requires Shape(s.w) && Linked(s.w, {})
  {
    && s.phase == Idle
    && s' == s.(w := DelTimer(s.w, m),
                deleted := if m in s.w.timerUnit then s.deleted + {s.w.timerUnit[m]} else s.deleted)
  }

  ghost predicate TickStep<U, M>(s: State<U, M>, s': State<U, M>)
    requires Shape(s.w)
  {
    s.phase == Idle && s' == s.(w := Advance(s.w, 0), phase := Draining(0), now := s.now + 1)
  }

  ghost predicate PopUnitStep<U, M>(s: State<U, M>, s': State<U, M>)
    requires Shape(s.w)
  {
    && s.phase.Draining? && s.phase.level < 3
    && var l := s.phase.level;
       var list := Slot(s.w, l, s.w.cur[l]);
    && list != [] && list[0] in s.w.units
    && var (w', now) := PopStep(s.w, l);
       s' == s.(w := w', acted := s.acted + seq(|now|, k requires 0 <= k < |now| => Event(now[k], s.now)))
  }

  /** The slot is drained: carry into the next wheel, or finish the tick. */
  ghost predicate DoneStep<U, M>(s: State<U, M>, s': State<U, M>)
    requires Shape(s.w)
  {
    && s.phase.Draining? && s.phase.level < 3
    && var l := s.phase.level;
    && Slot(s.w, l, s.w.cur[l]) == []
    && s' == if s.w.cur[l] == 0 && l < 2 then s.(w := Advance(s.w, l + 1), phase := Draining(l + 1))
             else s.(phase := Idle)
  }

  datatype Op<U, M> = Add(u: U, m: M, time: int) | Del(m: M) | Tick | PopUnit | Done

  ghost predicate Next<U, M>(s: State<U, M>, s': State<U, M>, op: Op<U, M>)
    requires Shape(s.w) && Linked(s.w, {})
  {
    match op
    case Add(u, m, time) => AddStep(s, s', u, m, time)
    case Del(m) => DelStep(s, s', m)
    case Tick => TickStep(s, s')
    case PopUnit => PopUnitStep(s, s')
    case Done => DoneStep(s, s')
  }

  // ---- the invariant ----

  /** The cursor of a wheel whose carry has not been passed on yet counts as N. */
  function Eff<U, M>(s: State<U, M>, level: nat): nat
    requires Shape(s.w) && level < 3
  {
    if s.phase == Draining(level) && s.w.cur[level] == 0 then N else s.w.cur[level]
  }

  function Dist(slot: nat, cur: nat): int {
    if slot >= cur then slot - cur else slot - cur + N
  }

  /** Ticks until the slot at `place` is popped. */
  function Wait(place: Place, cur: seq<nat>, e0: nat, e1: nat): int
    requires place.At? && InRange(place.level, place.slot) && |cur| == 3
  {
    var d := Dist(place.slot, cur[place.level]);
    if place.level == 0 then d
    else if place.level == 1 then (N - e0) + (d - 1) * N
    else (N - e0) + (N - 1 - e1) * N + (d - 1) * N * N
  }

  /** A pending unit will act at its due tick; on the upper wheels past_time_ is the time that
      will have passed when its slot is popped, overstated by N*I on level 2. */
  ghost predicate Timely<M>(i: int, cur: seq<nat>, e0: nat, e1: nat, now: nat, b: Birth, unit: Unit<M>)
    requires i > 0 && |cur| == 3
  {
    && unit.location.At? && InRange(unit.location.level, unit.location.slot)
    && b.tick <= now && unit.time == b.time && 0 < unit.time
    && 0 <= unit.past <= unit.time
    && var rest := unit.time - unit.past;
       var pop := now + Wait(unit.location, cur, e0, e1);
    && (unit.location.level == 0 ==> b.due == pop)
    && (unit.location.level == 1 ==>
          rest < 40 * i && b.due == pop + Tail1(i, rest) && unit.past == Times(pop - b.tick, i))
    && (unit.location.level == 2 ==>
          b.due == pop + Tail2(i, rest) && unit.past == Times(pop - b.tick, i) + 20 * i)
  }

  ghost predicate UnitsTimely<U, M>(s: State<U, M>)
    requires Shape(s.w)
  {
    forall u | u in s.w.units ::
      u in s.births && Timely(s.w.interval, s.w.cur, Eff(s, 0), Eff(s, 1), s.now, s.births[u], s.w.units[u])
  }

  /** Only the slot being drained may be non-empty at its wheel's cursor; a carry has wrapped
      every lower wheel to 0. */
  ghost predicate Cursors<U, M>(s: State<U, M>)
    requires Shape(s.w)
  {
    && (forall l: nat | l < 3 && s.phase != Draining(l) :: Slot(s.w, l, s.w.cur[l]) == [])
    && (s.phase.Draining? ==> s.phase.level < 3 && forall l: nat | l < s.phase.level :: s.w.cur[l] == 0)
  }

  /** Every unit ever added is pending, acted or deleted, never two of these; it acts once, at
      its due tick. */
  ghost predicate Accounts<U, M>(s: State<U, M>)
    requires s.w.interval > 0
  {
    && (forall u | u in s.births :: u in s.w.units || u in s.deleted || ActedUnit(s.acted, u))
    && (forall u | u in s.w.units :: u in s.births && u !in s.deleted && !ActedUnit(s.acted, u))
    && (forall u | u in s.deleted :: u in s.births && !ActedUnit(s.acted, u))
    && (forall k | 0 <= k < |s.acted| :: s.acted[k].unit in s.births
          && s.acted[k].tick == s.births[s.acted[k].unit].due)
    && (forall j, k | 0 <= j < k < |s.acted| :: s.acted[j].unit != s.acted[k].unit)
    && (forall u | u in s.births :: Born(s, s.births[u]))
  }

  ghost predicate Born<U, M>(s: State<U, M>, b: Birth)
    requires s.w.interval > 0
  {
    && b.time > 0 && b.tick <= s.now && b.c0 < N && b.c1 < N
    && b == NewBirth(s.w.interval, b.tick, b.time, b.c0, b.c1)
  }

  ghost predicate ActedUnit<U>(acted: seq<Event<U>>, u: U) {
    exists k :: 0 <= k < |acted| && acted[k].unit == u
  }

  ghost predicate Inv<U, M>(s: State<U, M>) {
    Shape(s.w) && Linked(s.w, {}) && Cursors(s) && UnitsTimely(s) && Accounts(s)
  }

  // ---- where a unit lands ----

  ghost predicate Positions(cur: seq<nat>) {
    |cur| == 3 && forall l :: 0 <= l < 3 ==> cur[l] < N
  }

  lemma AheadDist(cur: nat, off: nat)
    requires cur < N && off < N
    ensures Dist(Ahead(cur, off), cur) == off
  {
  }

  /** A unit never lands in a slot at a cursor. */
  lemma {:induction false} LandingIsAhead<M>(i: int, cur: seq<nat>, level: nat, unit: Unit<M>)
    requires i > 0 && Positions(cur) && level < 3
    ensures var p := Landing(i, cur, level, unit).location; p.slot != cur[p.level]
    decreases 3 - level
  {
    hide Times, SlotOffset;
    var iv := LevelInterval(i, level);
    var rest := unit.time - unit.past;
    if rest < N * iv || level == 2 {
      AheadDist(cur[level], SlotOffset(rest, iv));
    } else {
      LandingIsAhead(i, cur, level + 1, unit.(past := unit.past + Times(N - cur[level], iv)));
    }
  }

  /** Popped off level 1 (the level-0 cursor has just wrapped) and not due yet: back on level 0,
      or bounced up to level 1 again for one more turn. */
  lemma DownFromLevel1<M>(i: int, cur: seq<nat>, e1: nat, now: nat, b: Birth, unit: Unit<M>)
    requires i > 0 && Positions(cur) && cur[0] == 0
    requires unit.location == At(1, cur[1]) && Timely(i, cur, 0, e1, now, b, unit)
    requires unit.time - unit.past > 0
    ensures Timely(i, cur, 0, e1, now, b, Landing(i, cur, 0, unit))
  {
    hide Times, SlotOffset, Tail1, Tail2;
    var rest := unit.time - unit.past;
    TimesFacts(i);
    if rest < 20 * i {
      OffsetBounds(rest, i);
      Tail1Small(i, rest);
      AheadDist(0, SlotOffset(rest, i));
    } else {
      OffsetBounds(rest - 20 * i, 20 * i);
      TimesFacts(20 * i);
      Tail1Shift(i, rest, 1);
      AheadDist(cur[1], 1);
      TimesAdd(now - b.tick, 20, i);
      assert Landing(i, cur, 0, unit) == Landing(i, cur, 1, unit.(past := unit.past + 20 * i));
    }
  }

  /** Popped off level 2 (both lower cursors have just wrapped) and not due yet: down to level 1,
      where the N*I overstatement disappears, or bounced up to level 2 for another turn. */
  lemma DownFromLevel2<M>(i: int, cur: seq<nat>, now: nat, b: Birth, unit: Unit<M>)
    requires i > 0 && Positions(cur) && cur[0] == cur[1] == 0
    requires unit.location == At(2, cur[2]) && Timely(i, cur, 0, 0, now, b, unit)
    requires unit.time - unit.past > 0 && Rem(unit.time - unit.past, 8000 * i) != 0
    ensures Timely(i, cur, 0, 0, now, b, Landing(i, cur, 1, unit))
  {
    if unit.time - unit.past < 400 * i {
      FromLevel2ToLevel1(i, cur, now, b, unit);
    } else {
      FromLevel2ToLevel2(i, cur, now, b, unit);
    }
  }

  lemma FromLevel2ToLevel1<M>(i: int, cur: seq<nat>, now: nat, b: Birth, unit: Unit<M>)
    requires i > 0 && Positions(cur) && cur[0] == cur[1] == 0
    requires unit.location == At(2, cur[2]) && Timely(i, cur, 0, 0, now, b, unit)
    requires 0 < unit.time - unit.past < 400 * i && Rem(unit.time - unit.past, 8000 * i) != 0
    ensures Timely(i, cur, 0, 0, now, b, Landing(i, cur, 1, unit))
  {
    hide Times, SlotOffset, Tail1, Bounced, Rem, Ahead;
    var rest := unit.time - unit.past;
    TimesFacts(i);
    var off := SlotOffset(rest, 20 * i);
    OffsetBounds(rest, 20 * i);
    Tail1Shift(i, rest, off - 1);
    AheadDist(0, off);
    TimesAdd(now - b.tick, 20 + 20 * (off - 1), i);
    TimesAdd(20, 20 * (off - 1), i);
    TimesTurn(off - 1, i);
  }

  lemma Tail2Bounce(i: int, rest: int)
    requires i > 0 && rest >= 400 * i && Rem(rest, 8000 * i) != 0
    ensures var off := SlotOffset(rest - 400 * i, 400 * i);
            Tail2(i, rest) == off * 400 + Tail2(i, rest - 400 * i - Times(off - 1, 400 * i))
  {
    hide Times, SlotOffset, Rem;
  }

  lemma BounceLanding<M>(i: int, cur: seq<nat>, unit: Unit<M>)
    requires i > 0 && Positions(cur) && cur[1] == 0 && unit.time - unit.past >= 400 * i
    ensures var off := SlotOffset(unit.time - unit.past - 400 * i, 400 * i);
            Landing(i, cur, 1, unit) ==
              unit.(location := At(2, Ahead(cur[2], off)), past := unit.past + 400 * i + Times(off - 1, 400 * i))
  {
    hide Times, SlotOffset, Ahead;
    TimesFacts(20 * i);
    assert Landing(i, cur, 1, unit) == Landing(i, cur, 2, unit.(past := unit.past + 400 * i));
  }

  lemma FromLevel2ToLevel2<M>(i: int, cur: seq<nat>, now: nat, b: Birth, unit: Unit<M>)
    requires i > 0 && Positions(cur) && cur[0] == cur[1] == 0
    requires unit.location == At(2, cur[2]) && Timely(i, cur, 0, 0, now, b, unit)
    requires unit.time - unit.past >= 400 * i && Rem(unit.time - unit.past, 8000 * i) != 0
    ensures Timely(i, cur, 0, 0, now, b, Landing(i, cur, 1, unit))
  {
    hide Times, SlotOffset, Tail1, Tail2, Rem, Ahead, Landing;
    var rest := unit.time - unit.past;
    var off := SlotOffset(rest - 400 * i, 400 * i);
    OffsetBounds(rest - 400 * i, 400 * i);
    AheadDist(cur[2], off);
    Tail2Bounce(i, rest);
    TimesAdd(now - b.tick, 400 + 400 * (off - 1), i);
    TimesAdd(400, 400 * (off - 1), i);
    TimesTurn(off - 1, i);
    TimesFacts(i);
    BounceLanding(i, cur, unit);
  }

  /** AddTimer(obj, time) puts the new unit where it will act at its due tick. */
  lemma FirstLandingTimely<M>(i: int, cur: seq<nat>, now: nat, m: M, time: int)
    requires i > 0 && Positions(cur) && time > 0
    ensures Timely(i, cur, cur[0], cur[1], now, NewBirth(i, now, time, cur[0], cur[1]), FirstLanding(i, cur, m, time))
    ensures var p := FirstLanding(i, cur, m, time).location; p.slot != cur[p.level]
  {
    hide Times, SlotOffset, Tail1, Tail2, Landing;
    if time < 20 * i {
      AheadDist(cur[0], SlotOffset(time, i));
    } else {
      LandingIsAhead(i, cur, 1, Unit(m, time, Times(20 - cur[0], i), Nowhere));
      if ReachesLevel2(i, time, cur[0]) {
        FirstLandingOnLevel2(i, cur, now, m, time);
      } else {
        FirstLandingOnLevel1(i, cur, now, m, time);
      }
    }
  }

  lemma FirstLandingOnLevel1<M>(i: int, cur: seq<nat>, now: nat, m: M, time: int)
    requires i > 0 && Positions(cur) && time >= 20 * i && !ReachesLevel2(i, time, cur[0])
    ensures Timely(i, cur, cur[0], cur[1], now, NewBirth(i, now, time, cur[0], cur[1]), FirstLanding(i, cur, m, time))
  {
    hide Times, SlotOffset, Tail1, Tail2;
    var rest := time - Times(20 - cur[0], i);
    var off := SlotOffset(rest, 20 * i);
    CursorProducts(i, cur[0], cur[1]);
    OffsetBounds(rest, 20 * i);
    Tail1Shift(i, rest, off - 1);
    AheadDist(cur[1], off);
    TimesAdd(20 - cur[0], 20 * (off - 1), i);
    TimesTurn(off - 1, i);
  }

  lemma FirstLandingOnLevel2<M>(i: int, cur: seq<nat>, now: nat, m: M, time: int)
    requires i > 0 && Positions(cur) && ReachesLevel2(i, time, cur[0])
    ensures Timely(i, cur, cur[0], cur[1], now, NewBirth(i, now, time, cur[0], cur[1]), FirstLanding(i, cur, m, time))
  {
    hide Times, SlotOffset, Tail1, Tail2;
    var past1 := Times(20 - cur[0], i);
    var rest := Level2Rest(i, time, cur[0], cur[1]);
    CursorProducts(i, cur[0], cur[1]);
    OffsetBounds(rest, 400 * i);
    AheadDist(cur[2], SlotOffset(rest, 400 * i));
    var base, left := AfterLevel2Pop(i, rest, cur[0], cur[1]);
    assert Landing(i, cur, 1, Unit(m, time, past1, Nowhere)) == Landing(i, cur, 2, Unit(m, time, time - rest, Nowhere));
  }

  /** A tick brings every slot one tick closer; a carry moves the same count from one cursor to
      the next. */
  lemma TimelyNextTick<M>(i: int, cur: seq<nat>, now: nat, b: Birth, unit: Unit<M>)
    requires i > 0 && Positions(cur) && Timely(i, cur, cur[0], cur[1], now, b, unit)
    requires unit.location.slot != cur[unit.location.level]
    ensures Timely(i, cur[0 := (cur[0] + 1) % N], cur[0] + 1, cur[1], now + 1, b, unit)
  {
    hide Times, Tail1, Tail2;
  }

  lemma TimelyCarry0<M>(i: int, cur: seq<nat>, now: nat, b: Birth, unit: Unit<M>)
    requires i > 0 && Positions(cur) && Timely(i, cur, N, cur[1], now, b, unit)
    requires unit.location.level == 1 ==> unit.location.slot != cur[1]
    ensures Timely(i, cur[1 := (cur[1] + 1) % N], 0, cur[1] + 1, now, b, unit)
  {
    hide Times, Tail1, Tail2;
  }

  lemma TimelyCarry1<M>(i: int, cur: seq<nat>, e0: nat, now: nat, b: Birth, unit: Unit<M>)
    requires i > 0 && Positions(cur) && Timely(i, cur, e0, N, now, b, unit)
    requires unit.location.level == 2 ==> unit.location.slot != cur[2]
    ensures Timely(i, cur[2 := (cur[2] + 1) % N], e0, 0, now, b, unit)
  {
    hide Times, Tail1, Tail2;
  }
}
