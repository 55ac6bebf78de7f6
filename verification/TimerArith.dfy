/** Integer arithmetic of the timer wheels: C division, slot offsets, and the closed form of a
    timer's firing tick.  The wheels have N = 20 slots; the tick interval I stays symbolic, so
    products and quotients by it go through Times, Quot and Rem, whose bodies most proofs hide. */
module TimerArith {

  const N := 20

  function Times(k: int, v: int): int { k * v }

  function Quot(a: int, b: int): int
    requires b > 0
  {
    a / b
  }

  function Rem(a: int, b: int): int
    requires b > 0
  {
    a % b
  }

  /** C's `/` on int: truncation toward zero. */
  function TruncDiv(a: int, b: int): int
    requires b > 0
  {
    if a >= 0 then Quot(a, b) else -Quot(-a, b)
  }

  /** C's `%` on int. */
  function TruncMod(a: int, b: int): int
    requires b > 0
  {
    if a >= 0 then Rem(a, b) else -Rem(-a, b)
  }

  /** slot_offset of AddTimer: a quotient forced into 1..N-1. */
  function SlotOffset(rest: int, interval: int): (off: int)
    requires interval > 0
    ensures 1 <= off < N
  {
    var q := TruncDiv(rest, interval);
    if q >= N then N - 1 else if q < 1 then 1 else q
  }

  /** interval_ of the three wheels. */
  function LevelInterval(i: int, level: nat): (iv: int)
    requires i > 0
    ensures iv > 0
  {
    if level == 0 then i else if level == 1 then 20 * i else 400 * i
  }

  // ---- products and quotients by a symbolic divisor ----

  lemma TimesFacts(v: int)
    ensures Times(0, v) == 0 && Times(1, v) == v && Times(-1, v) == -v
    ensures Times(19, v) == 19 * v && Times(20, v) == 20 * v && Times(400, v) == 400 * v
  {
  }

  lemma TimesAdd(a: int, b: int, v: int)
    ensures Times(a + b, v) == Times(a, v) + Times(b, v)
  {
  }

  lemma TimesSub(a: int, b: int, v: int)
    ensures Times(a - b, v) == Times(a, v) - Times(b, v)
  {
  }

  lemma TimesMono(a: int, b: int, v: int)
    requires a <= b && v >= 0
    ensures Times(a, v) <= Times(b, v)
  {
  }

  lemma TimesTurn(k: int, v: int)
    ensures Times(k, 20 * v) == Times(20 * k, v)
    ensures Times(k, 400 * v) == Times(400 * k, v)
    ensures Times(20 * k, 20 * v) == Times(k, 400 * v)
  {
  }

  lemma QuotRem(a: int, b: int)
    requires b > 0
    ensures a == Times(Quot(a, b), b) + Rem(a, b) && 0 <= Rem(a, b) < b
  {
  }

  lemma QuotUnique(a: int, b: int, q: int)
    requires b > 0 && Times(q, b) <= a < Times(q, b) + b
    ensures Quot(a, b) == q && Rem(a, b) == a - Times(q, b)
  {
    hide Quot, Rem, Times;
    QuotRem(a, b);
    var d := Quot(a, b);
    TimesFacts(b);
    if d < q {
      TimesMono(d + 1, q, b);
      TimesAdd(d, 1, b);
    } else if q < d {
      TimesMono(q + 1, d, b);
      TimesAdd(q, 1, b);
    }
  }

  lemma QuotSmall(a: int, b: int)
    requires 0 <= a < b
    ensures Quot(a, b) == 0 && Rem(a, b) == a
  {
  }

  /** Taking k whole divisors away. */
  lemma QuotShift(a: int, b: int, k: int)
    requires b > 0
    ensures Quot(a - Times(k, b), b) == Quot(a, b) - k && Rem(a - Times(k, b), b) == Rem(a, b)
  {
    hide Quot, Rem, Times;
    QuotRem(a, b);
    TimesSub(Quot(a, b), k, b);
    QuotUnique(a - Times(k, b), b, Quot(a, b) - k);
  }

  lemma RemOfTurns(a: int, b: int)
    requires b > 0 && Rem(a, 20 * b) == 0
    ensures Rem(a, b) == 0
  {
    hide Quot, Rem, Times;
    QuotRem(a, 20 * b);
    TimesTurn(Quot(a, 20 * b), b);
    QuotUnique(a, b, 20 * Quot(a, 20 * b));
  }

  lemma OffsetBounds(rest: int, iv: int)
    requires iv > 0 && rest >= 0
    ensures var off := SlotOffset(rest, iv);
            && (rest < iv ==> off == 1)
            && (iv <= rest < 20 * iv ==> off == Quot(rest, iv))
            && (rest >= 20 * iv ==> off == 19)
            && 0 <= Times(off - 1, iv) <= rest
            && (rest < 20 * iv ==> rest - Times(off - 1, iv) < 2 * iv)
  {
    hide Quot, Rem, Times;
    var q := Quot(rest, iv);
    var off := SlotOffset(rest, iv);
    QuotRem(rest, iv);
    TimesFacts(iv);
    if q < 1 { TimesMono(q, 0, iv); }
    if q < 0 { TimesMono(q, -1, iv); }
    if q < 20 { TimesMono(q, 19, iv); }
    if q > 19 { TimesMono(20, q, iv); }
    TimesSub(q, 1, iv);
    TimesMono(0, off - 1, iv);
    if q >= 20 { TimesMono(18, q, iv); }
  }

  /** Going back up from level 1 to level 2: what is left after the next level-2 pop. */
  function Bounced(rest: int, iv: int): (left: int)
    requires iv > 0 && rest >= iv
    ensures 0 <= left < rest && Rem(left, iv) == Rem(rest, iv)
    ensures left == rest - iv - Times(SlotOffset(rest - iv, iv) - 1, iv)
  {
    hide Quot, Rem, Times, SlotOffset;
    var off := SlotOffset(rest - iv, iv);
    OffsetBounds(rest - iv, iv);
    QuotShift(rest, iv, off);
    TimesSub(off, 1, iv);
    TimesFacts(iv);
    rest - Times(off, iv)
  }

  // ---- the firing tick ----

  /** Ticks from popping off level 1 with `rest` time left until the timer acts. */
  function Tail1(i: int, rest: int): int
    requires i > 0
  {
    20 * Quot(rest, 20 * i) + Tail0(i, Rem(rest, 20 * i))
  }

  function Tail0(i: int, rest: int): int
    requires i > 0
  {
    if rest == 0 then 0 else if rest < i then 1 else Quot(rest, i)
  }

  /** Ticks from popping off level 2 with `rest` time left until the timer acts. */
  function Tail2(i: int, rest: int): int
    requires i > 0
    decreases rest
  {
    if rest <= 0 || Rem(rest, 8000 * i) == 0 then 0
    else if rest < 400 * i then 20 + Tail1(i, rest)
    else SlotOffset(rest - 400 * i, 400 * i) * 400 + Tail2(i, Bounced(rest, 400 * i))
  }

  /** Ticks from AddTimer(obj, time), called with cursors c0 and c1, until the timer acts. */
  function FiringTick(i: int, time: int, c0: int, c1: int): int
    requires i > 0
  {
    if time < 20 * i then SlotOffset(time, i)
    else if !ReachesLevel2(i, time, c0) then (20 - c0) + Tail1(i, time - Times(20 - c0, i))
    else
      var rest := Level2Rest(i, time, c0, c1);
      var off := SlotOffset(rest, 400 * i);
      (20 - c0) + (19 - c1) * 20 + (off - 1) * 400 + Tail2(i, rest - Times(off - 1, 400 * i))
  }

  /** The guard that sends a timer up to the third wheel. */
  predicate ReachesLevel2(i: int, time: int, c0: int)
  {
    time >= 20 * i && time - Times(20 - c0, i) >= 400 * i
  }

  /** time - past_time_ when the timer arrives on the third wheel. */
  function Level2Rest(i: int, time: int, c0: int, c1: int): int
  {
    time - Times(20 - c0, i) - Times(20 - c1, 20 * i)
  }

  lemma Tail1Shift(i: int, rest: int, k: int)
    requires i > 0
    ensures Tail1(i, rest) == 20 * k + Tail1(i, rest - Times(k, 20 * i))
  {
    hide Quot, Rem, Times, Tail0;
    QuotShift(rest, 20 * i, k);
  }

  /** A rest below N*I maps to exactly the slot offset used on level 0. */
  lemma Tail1Small(i: int, rest: int)
    requires i > 0 && 0 <= rest < 20 * i
    ensures Tail1(i, rest) == if rest == 0 then 0 else SlotOffset(rest, i)
  {
    hide Quot, Rem, Times, SlotOffset;
    QuotSmall(rest, 20 * i);
    OffsetBounds(rest, i);
  }

  lemma Tail0Accurate(i: int, rest: int)
    requires i > 0 && rest >= 0
    ensures rest - i < Times(Tail0(i, rest), i) < rest + i
    ensures Rem(rest, i) == 0 ==> Times(Tail0(i, rest), i) == rest
  {
    hide Quot, Rem, Times;
    QuotRem(rest, i);
    TimesFacts(i);
    if rest < i { QuotSmall(rest, i); }
  }

  /** Tail1 lands within one interval of the time left, and on it when I divides it. */
  lemma Tail1Accurate(i: int, rest: int)
    requires i > 0 && rest >= 0
    ensures rest - i < Times(Tail1(i, rest), i) < rest + i
    ensures Rem(rest, i) == 0 ==> Times(Tail1(i, rest), i) == rest
    ensures Tail1(i, rest) >= 0
  {
    hide Quot, Rem, Times, Tail0;
    var q := Quot(rest, 20 * i);
    var r := Rem(rest, 20 * i);
    QuotRem(rest, 20 * i);
    Tail0Accurate(i, r);
    TimesTurn(q, i);
    TimesAdd(20 * q, Tail0(i, r), i);
    QuotShift(rest, i, 20 * q);
    TimesFacts(i);
    if Tail1(i, rest) < 0 { TimesMono(Tail1(i, rest), -1, i); }
  }

  lemma Tail1ShiftBounced(i: int, rest: int)
    requires i > 0 && rest >= 400 * i
    ensures Tail1(i, rest) == SlotOffset(rest - 400 * i, 400 * i) * 400 + Tail1(i, Bounced(rest, 400 * i))
  {
    hide Quot, Rem, Times, Tail1, SlotOffset;
    var off := SlotOffset(rest - 400 * i, 400 * i);
    TimesTurn(off, i);
    TimesSub(off, 1, 400 * i);
    TimesFacts(400 * i);
    Tail1Shift(i, rest, 20 * off);
  }

  /** How the two moduli tested on level 2 relate. */
  lemma MultipleOfTurn(i: int, rest: int)
    requires i > 0 && rest >= 0
    ensures Rem(rest, 8000 * i) == 0 ==> Rem(rest, 400 * i) == 0
    ensures rest < 400 * i ==> Rem(rest, 400 * i) == rest
    ensures rest < 8000 * i ==> Rem(rest, 8000 * i) == rest
  {
    hide Quot, Rem, Times;
    if Rem(rest, 8000 * i) == 0 { RemOfTurns(rest, 400 * i); }
    if rest < 400 * i { QuotSmall(rest, 400 * i); }
    if rest < 8000 * i { QuotSmall(rest, 8000 * i); }
  }

  /** Away from multiples of N*N*I, the detour through level 2 costs nothing. */
  lemma {:induction false} Tail2Generic(i: int, rest: int)
    requires i > 0 && rest >= 0 && Rem(rest, 400 * i) != 0
    ensures Tail2(i, rest) == 20 + Tail1(i, rest)
    decreases rest
  {
    hide Quot, Rem, Times, Tail1, SlotOffset, Bounced;
    MultipleOfTurn(i, rest);
    if rest >= 400 * i {
      Tail2Generic(i, Bounced(rest, 400 * i));
      Tail1ShiftBounced(i, rest);
    }
  }

  /** On multiples of N*N*I the level-2 test fires at a pop, never late; exactly on the rest
      when less than N*N*N*I is left. */
  lemma {:induction false} Tail2Multiple(i: int, rest: int)
    requires i > 0 && rest >= 0 && Rem(rest, 400 * i) == 0
    ensures Times(Tail2(i, rest), i) <= rest
    ensures rest < 8000 * i ==> Times(Tail2(i, rest), i) == rest
    decreases rest
  {
    hide Quot, Rem, Times, Tail1, SlotOffset, Bounced;
    MultipleOfTurn(i, rest);
    TimesFacts(i);
    if rest > 0 && Rem(rest, 8000 * i) != 0 {
      var off := SlotOffset(rest - 400 * i, 400 * i);
      var left := Bounced(rest, 400 * i);
      Tail2Multiple(i, left);
      TimesAdd(off * 400, Tail2(i, left), i);
      TimesTurn(off, i);
      TimesSub(off, 1, 400 * i);
      TimesFacts(400 * i);
    }
  }

  lemma {:induction false} Tail2NonNegative(i: int, rest: int)
    requires i > 0 && rest >= 0
    ensures Tail2(i, rest) >= 0
    decreases rest
  {
    hide Quot, Rem, Times, Tail1, SlotOffset, Bounced;
    if rest > 0 && Rem(rest, 8000 * i) != 0 {
      if rest < 400 * i {
        Tail1Accurate(i, rest);
      } else {
        Tail2NonNegative(i, Bounced(rest, 400 * i));
      }
    }
  }

  lemma CursorProducts(i: int, c0: int, c1: int)
    requires i > 0 && 0 <= c0 < 20 && 0 <= c1 < 20
    ensures 0 <= Times(20 - c0, i) <= 20 * i && 0 <= Times(20 - c1, 20 * i) <= 400 * i
  {
    hide Times;
    TimesFacts(i);
    TimesFacts(20 * i);
    TimesMono(0, 20 - c0, i);
    TimesMono(20 - c0, 20, i);
    TimesMono(0, 20 - c1, 20 * i);
    TimesMono(20 - c1, 20, 20 * i);
  }

  /** A timer that stays off the third wheel acts within one interval of its time, and exactly
      on time when the interval divides it. */
  lemma TwoLevelAccuracy(i: int, time: int, c0: int, c1: int)
    requires i > 0 && time > 0 && 0 <= c0 < 20 && 0 <= c1 < 20
    requires !ReachesLevel2(i, time, c0)
    ensures var f := FiringTick(i, time, c0, c1);
            && f >= 1 && time - i < Times(f, i) < time + i
            && (Rem(time, i) == 0 ==> Times(f, i) == time)
  {
    hide Quot, Rem, Times, SlotOffset, Tail1;
    if time < 20 * i {
      OffsetBounds(time, i);
      QuotRem(time, i);
      TimesFacts(i);
      if time < i { QuotSmall(time, i); }
    } else {
      var rest := time - Times(20 - c0, i);
      CursorProducts(i, c0, c1);
      Tail1Accurate(i, rest);
      QuotShift(time, i, 20 - c0);
      TimesAdd(20 - c0, Tail1(i, rest), i);
    }
  }

  /** Ticks until the first pop off the third wheel, and the rest then. */
  lemma AfterLevel2Pop(i: int, rest: int, c0: int, c1: int) returns (base: int, left: int)
    requires i > 0 && 0 <= c0 < 20 && 0 <= c1 < 20 && rest >= 0
    ensures base == (20 - c0) + (19 - c1) * 20 + (SlotOffset(rest, 400 * i) - 1) * 400
    ensures left == rest - Times(SlotOffset(rest, 400 * i) - 1, 400 * i)
    ensures base >= 1 && left >= 0
    ensures Rem(left, 400 * i) == Rem(rest, 400 * i)
    ensures rest < 8000 * i ==> left < 8000 * i
    ensures Times(base, i) + left + 20 * i == rest + Times(20 - c0, i) + Times(20 - c1, 20 * i)
  {
    hide Quot, Rem, Times, SlotOffset;
    var off := SlotOffset(rest, 400 * i);
    base := (20 - c0) + (19 - c1) * 20 + (off - 1) * 400;
    left := rest - Times(off - 1, 400 * i);
    OffsetBounds(rest, 400 * i);
    QuotShift(rest, 400 * i, off - 1);
    TimesAdd((20 - c0) + (19 - c1) * 20, 400 * (off - 1), i);
    TimesAdd(20 - c0, 20 * (20 - c1) - 20, i);
    TimesSub(20 * (20 - c1), 20, i);
    TimesTurn(20 - c1, i);
    TimesTurn(off - 1, i);
    TimesFacts(i);
  }

  /** Three-level accuracy, exactly: a timer that reaches the third wheel is within one interval
      of its time if and only if the rest it arrives there with is no multiple of N*N*I;
      otherwise it acts at least N*I early, and exactly N*I early when that rest is below
      N*N*N*I. */
  lemma ThreeLevelAccuracy(i: int, time: int, c0: int, c1: int)
    requires i > 0 && time > 0 && 0 <= c0 < 20 && 0 <= c1 < 20
    requires ReachesLevel2(i, time, c0)
    ensures var f := FiringTick(i, time, c0, c1); var rest := Level2Rest(i, time, c0, c1);
            && f >= 1 && rest >= 0
            && ((time - i < Times(f, i) < time + i) <==> Rem(rest, 400 * i) != 0)
            && (Rem(rest, 400 * i) != 0 && Rem(time, i) == 0 ==> Times(f, i) == time)
            && (Rem(rest, 400 * i) == 0 ==> Times(f, i) <= time - 20 * i)
            && (Rem(rest, 400 * i) == 0 && rest < 8000 * i ==> Times(f, i) == time - 20 * i)
  {
    hide Quot, Rem, Times, SlotOffset, Tail1, Tail2;
    var rest := Level2Rest(i, time, c0, c1);
    CursorProducts(i, c0, c1);
    var base, left := AfterLevel2Pop(i, rest, c0, c1);
    Tail2NonNegative(i, left);
    TimesAdd(base, Tail2(i, left), i);
    if Rem(rest, 400 * i) == 0 {
      Tail2Multiple(i, left);
    } else {
      Tail2Generic(i, left);
      Tail1Accurate(i, left);
      TimesAdd(20, Tail1(i, left), i);
      TimesFacts(i);
      TimesAdd(base, 20, i);
      QuotShift(time, i, base + 20);
    }
  }
}
