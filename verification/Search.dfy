/** The searches over serial lists: the k-way intersection behind a multi-word query and the
    binary searches behind a time window. */
module Search {

  ghost predicate Sorted(s: seq<int>) {
    forall i, j | 0 <= i < j < |s| :: s[i] <= s[j]
  }

  // ---- k-way intersection ----

  ghost predicate NoneEmpty(lists: seq<seq<int>>) {
    forall i | 0 <= i < |lists| :: lists[i] != []
  }

  ghost predicate SameHeads(lists: seq<seq<int>>)
    requires NoneEmpty(lists)
  {
    forall i | 0 <= i < |lists| :: lists[i][0] == lists[0][0]
  }

  /** The first of the lists with the smallest head. */
  ghost predicate Smallest(lists: seq<seq<int>>, s: nat)
    requires NoneEmpty(lists)
  {
    && s < |lists| && (forall i | 0 <= i < |lists| :: lists[s][0] <= lists[i][0])
    && (forall i | 0 <= i < s :: lists[s][0] < lists[i][0])
  }

  ghost function Total(lists: seq<seq<int>>): nat {
    if lists == [] then 0 else |lists[0]| + Total(lists[1..])
  }

  lemma {:induction false} TotalDrops(lists: seq<seq<int>>, s: nat)
    requires s < |lists| && lists[s] != []
    ensures Total(lists[s := lists[s][1..]]) == Total(lists) - 1
  {
    if s == 0 {
      assert lists[0 := lists[0][1..]][1..] == lists[1..];
    } else {
      TotalDrops(lists[1..], s - 1);
      assert lists[s := lists[s][1..]][1..] == lists[1..][s - 1 := lists[1..][s - 1][1..]];
    }
  }

  ghost function Tails(lists: seq<seq<int>>): (r: seq<seq<int>>)
    requires NoneEmpty(lists)
    ensures |r| == |lists| && forall i | 0 <= i < |r| :: r[i] == lists[i][1..]
  {
    seq(|lists|, i requires 0 <= i < |lists| => lists[i][1..])
  }

  lemma {:induction false} TotalOfTails(lists: seq<seq<int>>)
    requires NoneEmpty(lists) && lists != []
    ensures Total(Tails(lists)) < Total(lists)
  {
    if |lists| > 1 {
      assert Tails(lists)[1..] == Tails(lists[1..]);
      TotalOfTails(lists[1..]);
    }
  }

  /** How often v is common to all the lists. */
  ghost function Common(lists: seq<seq<int>>, v: int): nat
    requires lists != []
  {
    var m := multiset(lists[0])[v];
    if |lists| == 1 || m <= Common(lists[1..], v) then m else Common(lists[1..], v)
  }

  /** Common is the least number of occurrences over the lists. */
  lemma {:induction false} CommonIsMin(lists: seq<seq<int>>, v: int)
    requires lists != []
    ensures forall i | 0 <= i < |lists| :: Common(lists, v) <= multiset(lists[i])[v]
    ensures exists i :: 0 <= i < |lists| && Common(lists, v) == multiset(lists[i])[v]
  {
    if |lists| > 1 {
      var rest := lists[1..];
      CommonIsMin(rest, v);
      var i :| 0 <= i < |rest| && Common(rest, v) == multiset(rest[i])[v];
      assert rest[i] == lists[i + 1];
      forall j | 0 <= j < |lists| ensures Common(lists, v) <= multiset(lists[j])[v] {
        if j > 0 { assert lists[j] == rest[j - 1]; }
      }
      if multiset(lists[0])[v] <= Common(rest, v) {
        assert Common(lists, v) == multiset(lists[0])[v];
      } else {
        assert Common(lists, v) == multiset(lists[i + 1])[v];
      }
    }
  }

  /** Only the least number fits that description. */
  lemma CommonUnique(lists: seq<seq<int>>, v: int, n: nat, i: nat)
    requires i < |lists| && n == multiset(lists[i])[v] && forall j | 0 <= j < |lists| :: n <= multiset(lists[j])[v]
    ensures Common(lists, v) == n
  {
    CommonIsMin(lists, v);
  }

  lemma HeadTailCount(s: seq<int>, v: int)
    requires s != []
    ensures multiset(s)[v] == multiset(s[1..])[v] + (if s[0] == v then 1 else 0)
  {
    assert s == [s[0]] + s[1..];
  }

  /** Advancing every list past an equal head takes one occurrence of it off the common count. */
  lemma CommonOfTails(lists: seq<seq<int>>, v: int)
    requires lists != [] && NoneEmpty(lists) && SameHeads(lists)
    ensures Common(lists, v) == Common(Tails(lists), v) + (if v == lists[0][0] then 1 else 0)
  {
    var tails := Tails(lists);
    CommonIsMin(tails, v);
    var d := if v == lists[0][0] then 1 else 0;
    var i :| 0 <= i < |tails| && Common(tails, v) == multiset(tails[i])[v];
    forall j | 0 <= j < |lists| ensures multiset(lists[j])[v] == multiset(tails[j])[v] + d {
      HeadTailCount(lists[j], v);
    }
    CommonUnique(lists, v, Common(tails, v) + d, i);
  }

  /** A smallest head that some list lacks is common to none. */
  lemma CommonOfDrop(lists: seq<seq<int>>, s: nat, v: int)
    requires lists != [] && NoneEmpty(lists) && !SameHeads(lists) && Smallest(lists, s)
    requires forall i | 0 <= i < |lists| :: Sorted(lists[i])
    ensures Common(lists[s := lists[s][1..]], v) == Common(lists, v)
  {
    var lists' := lists[s := lists[s][1..]];
    CommonIsMin(lists, v);
    HeadTailCount(lists[s], v);
    if v == lists[s][0] {
      var b :| 0 <= b < |lists| && lists[b][0] != v;
      assert v !in lists[b];
      assert multiset(lists[b])[v] == 0 && lists'[b] == lists[b];
      CommonUnique(lists', v, 0, b);
    } else {
      var i :| 0 <= i < |lists| && Common(lists, v) == multiset(lists[i])[v];
      CommonUnique(lists', v, Common(lists, v), i);
    }
  }

  lemma HeadsNotAbove(a: seq<int>, b: seq<int>)
    requires Sorted(b) && a != [] && multiset(a) == multiset(b)
    ensures b != [] && b[0] <= a[0]
  {
    assert a[0] in multiset(a);
    assert a[0] in b;
  }

  /** Two sorted sequences with the same elements are the same. */
  lemma {:induction false} SortedUnique(a: seq<int>, b: seq<int>)
    requires Sorted(a) && Sorted(b) && multiset(a) == multiset(b)
    ensures a == b
    decreases |a|
  {
    if a == [] {
      assert |multiset(b)| == |b|;
    } else {
      HeadsNotAbove(a, b);
      HeadsNotAbove(b, a);
      assert a == [a[0]] + a[1..] && b == [b[0]] + b[1..];
      assert multiset(a[1..]) == multiset(a) - multiset{a[0]};
      assert multiset(b[1..]) == multiset(b) - multiset{b[0]};
      SortedUnique(a[1..], b[1..]);
    }
  }

  lemma NothingCommon(lists: seq<seq<int>>, i: nat, v: int)
    requires i < |lists| && lists[i] == []
    ensures Common(lists, v) == 0
  {
    CommonUnique(lists, v, 0, i);
  }

  /** What an intersection of the lists is: non-decreasing, each serial as often as it is common
      to all of them. */
  ghost predicate IsIntersection(lists: seq<seq<int>>, r: seq<int>)
    requires lists != []
  {
    Sorted(r) && forall v :: multiset(r)[v] == Common(lists, v)
  }

  /** The lists from the iterators on. */
  ghost function Rests(lists: seq<seq<int>>, at: seq<nat>): (r: seq<seq<int>>)
    requires |at| == |lists| && forall i | 0 <= i < |lists| :: at[i] <= |lists[i]|
    ensures |r| == |lists| && forall i | 0 <= i < |r| :: r[i] == lists[i][at[i]..]
  {
    seq(|lists|, i requires 0 <= i < |lists| => lists[i][at[i]..])
  }

  ghost predicate Iterators(lists: seq<seq<int>>, at: seq<nat>) {
    |at| == |lists| && forall i | 0 <= i < |lists| :: at[i] <= |lists[i]|
  }

  ghost predicate AllSorted(lists: seq<seq<int>>) {
    forall i | 0 <= i < |lists| :: Sorted(lists[i])
  }

  /** The loop has found what is common to the parts already passed. */
  ghost predicate Joined(lists: seq<seq<int>>, at: seq<nat>, r: seq<int>)
    requires lists != [] && Iterators(lists, at)
  {
    && Sorted(r) && (forall v :: multiset(r)[v] + Common(Rests(lists, at), v) == Common(lists, v))
    && (forall x, i | x in r && 0 <= i < |lists| && at[i] < |lists[i]| :: x <= lists[i][at[i]])
  }

  lemma JoinStarts(lists: seq<seq<int>>, at: seq<nat>)
    requires lists != [] && |at| == |lists| && forall i | 0 <= i < |at| :: at[i] == 0
    ensures Joined(lists, at, []) && Rests(lists, at) == lists
  {
    assert Rests(lists, at) == lists;
  }

  lemma JoinEqual(lists: seq<seq<int>>, at: seq<nat>, at': seq<nat>, r: seq<int>)
    requires lists != [] && AllSorted(lists) && Iterators(lists, at) && Joined(lists, at, r)
    requires NoneEmpty(Rests(lists, at)) && SameHeads(Rests(lists, at))
    requires |at'| == |at| && forall i | 0 <= i < |at| :: at'[i] == at[i] + 1
    ensures Iterators(lists, at') && Joined(lists, at', r + [lists[0][at[0]]])
    ensures Total(Rests(lists, at')) < Total(Rests(lists, at))
  {
    hide Common, Total;
    var rests, h := Rests(lists, at), lists[0][at[0]];
    assert rests[0][0] == h;
    forall i | 0 <= i < |lists| ensures at'[i] <= |lists[i]| && lists[i][at[i]] == h { assert rests[i][0] == h; }
    assert Rests(lists, at') == Tails(rests);
    TotalOfTails(rests);
    forall v ensures multiset(r + [h])[v] + Common(Rests(lists, at'), v) == Common(lists, v) {
      CommonOfTails(rests, v);
    }
    forall i, j | 0 <= i < j < |r + [h]| ensures (r + [h])[i] <= (r + [h])[j] {
      if j == |r| { assert r[i] in r && at[0] < |lists[0]|; }
    }
    forall x, i | x in r + [h] && 0 <= i < |lists| && at'[i] < |lists[i]| ensures x <= lists[i][at'[i]] {
      assert lists[i][at[i]] <= lists[i][at[i] + 1];
    }
  }

  lemma JoinDrop(lists: seq<seq<int>>, at: seq<nat>, s: nat, r: seq<int>)
    requires lists != [] && AllSorted(lists) && Iterators(lists, at) && Joined(lists, at, r)
    requires NoneEmpty(Rests(lists, at)) && !SameHeads(Rests(lists, at)) && Smallest(Rests(lists, at), s)
    ensures Iterators(lists, at[s := at[s] + 1]) && Joined(lists, at[s := at[s] + 1], r)
    ensures Total(Rests(lists, at[s := at[s] + 1])) < Total(Rests(lists, at))
  {
    hide Common, Total;
    var rests, at' := Rests(lists, at), at[s := at[s] + 1];
    assert rests[s] == lists[s][at[s]..];
    assert Rests(lists, at') == rests[s := rests[s][1..]];
    TotalDrops(rests, s);
    forall v { CommonOfDrop(rests, s, v); }
  }

  lemma JoinEnds(lists: seq<seq<int>>, at: seq<nat>, r: seq<int>, i: nat)
    requires lists != [] && Iterators(lists, at) && Joined(lists, at, r)
    requires i < |lists| && at[i] == |lists[i]|
    ensures IsIntersection(lists, r)
  {
    forall v { NothingCommon(Rests(lists, at), i, v); }
  }

  /** Find_smallest_iterator. */
  method FindSmallestIterator(lists: seq<seq<int>>, at: seq<nat>) returns (smallest: nat)
    requires lists != [] && Iterators(lists, at) && NoneEmpty(Rests(lists, at))
    ensures Smallest(Rests(lists, at), smallest)
  {
    assert forall i | 0 <= i < |lists| :: Rests(lists, at)[i][0] == lists[i][at[i]];
    smallest := 0;
    var smallestSerial := lists[0][at[0]];
    for i := 1 to |lists|
      invariant smallest < |lists| && smallestSerial == lists[smallest][at[smallest]]
      invariant forall j | 0 <= j < i :: smallestSerial <= lists[j][at[j]]
      invariant forall j | 0 <= j < smallest :: smallestSerial < lists[j][at[j]]
    {
      if lists[i][at[i]] < smallestSerial {
        smallest, smallestSerial := i, lists[i][at[i]];
      }
    }
  }

  /** Are_the_iterator_serial_equal. */
  method AreTheIteratorSerialEqual(lists: seq<seq<int>>, at: seq<nat>) returns (result: bool)
    requires lists != [] && Iterators(lists, at) && NoneEmpty(Rests(lists, at))
    ensures result == SameHeads(Rests(lists, at))
  {
    assert forall i | 0 <= i < |lists| :: Rests(lists, at)[i][0] == lists[i][at[i]];
    var serial := lists[0][at[0]];
    for i := 0 to |lists|
      invariant forall j | 0 <= j < i :: lists[j][at[j]] == serial
    {
      if lists[i][at[i]] != serial {
        return false;
      }
    }
    return true;
  }

  /** An exhausted list, if there is one. */
  method FindEnd(lists: seq<seq<int>>, at: seq<nat>) returns (end: bool, which: nat)
    requires lists != [] && Iterators(lists, at)
    ensures end ==> which < |lists| && at[which] == |lists[which]|
    ensures !end ==> NoneEmpty(Rests(lists, at))
  {
    end, which := false, 0;
    for i := 0 to |lists|
      invariant forall j | 0 <= j < i :: at[j] < |lists[j]|
    {
      if at[i] == |lists[i]| {
        return true, i;
      }
    }
  }

  /** The join loop of Join_search. */
  method Join(lists: seq<seq<int>>) returns (result: seq<int>)
    requires lists != [] && AllSorted(lists)
    ensures IsIntersection(lists, result)
  {
    hide Common, Total, Joined, IsIntersection, NoneEmpty, SameHeads;
    var at: seq<nat> := seq(|lists|, _ => 0);
    result := [];
    StartIterators(lists, at);
    while true
      invariant Iterators(lists, at) && Joined(lists, at, result)
      decreases Total(Rests(lists, at))
    {
      var end, which := FindEnd(lists, at);
      if end {
        JoinEnds(lists, at, result, which);
        break;
      }
      var equal := AreTheIteratorSerialEqual(lists, at);
      if equal {
        var head := Head(lists, at);
        var next := NextAll(at);
        JoinEqual(lists, at, next, result);
        result := result + [head];
        at := next;
      } else {
        var smallest := FindSmallestIterator(lists, at);
        JoinDrop(lists, at, smallest, result);
        at := at[smallest := at[smallest] + 1];
      }
    }
  }

  lemma StartIterators(lists: seq<seq<int>>, at: seq<nat>)
    requires lists != [] && |at| == |lists| && forall i | 0 <= i < |at| :: at[i] == 0
    ensures Iterators(lists, at) && Joined(lists, at, [])
  {
    JoinStarts(lists, at);
  }

  method Head(lists: seq<seq<int>>, at: seq<nat>) returns (h: int)
    requires lists != [] && Iterators(lists, at) && NoneEmpty(Rests(lists, at))
    ensures at[0] < |lists[0]| && h == lists[0][at[0]]
  {
    assert Rests(lists, at)[0] != [];
    h := lists[0][at[0]];
  }

  /** Every iterator moves on by one. */
  method NextAll(at: seq<nat>) returns (next: seq<nat>)
    ensures |next| == |at| && forall i | 0 <= i < |at| :: next[i] == at[i] + 1
  {
    next := at;
    for k := 0 to |at|
      invariant |next| == |at| && forall i | 0 <= i < |at| :: next[i] == if i < k then at[i] + 1 else at[i]
    {
      next := next[k := next[k] + 1];
    }
  }

  // ---- a time window in one bulk ----

  ghost predicate Indexes(list: seq<int>, times: seq<int>) {
    forall i | 0 <= i < |list| :: 0 <= list[i] < |times|
  }

  /** Which values reach t. */
  ghost function Reach(values: seq<int>, t: int): (r: seq<bool>)
    ensures |r| == |values| && forall k | 0 <= k < |r| :: r[k] <==> values[k] >= t
  {
    seq(|values|, k requires 0 <= k < |values| => values[k] >= t)
  }

  /** Which entries of a list of serials have a time that reaches t. */
  ghost function ReachAlong(list: seq<int>, times: seq<int>, t: int): (r: seq<bool>)
    requires Indexes(list, times)
    ensures |r| == |list| && forall k | 0 <= k < |r| :: r[k] <==> times[list[k]] >= t
  {
    seq(|list|, k requires 0 <= k < |list| => times[list[k]] >= t)
  }

  /** The binary search the program writes three times: a place left..right + 1 where the flags turn
      from false to true, whatever their order. */
  ghost function Bisect(past: seq<bool>, left: int, right: int): (r: int)
    requires 0 <= left <= right + 1 <= |past|
    ensures left <= r <= right + 1 && (r == left || !past[r - 1]) && (r == right + 1 || past[r])
    decreases right - left + 1
  {
    if left > right then left
    else
      var mid := left + (right - left) / 2;
      if past[mid] then Bisect(past, left, mid - 1) else Bisect(past, mid + 1, right)
  }

  /** The search with the tests of the two ends in front of it. */
  ghost function Boundary(past: seq<bool>): (r: int)
    ensures 0 <= r <= |past| && (r == 0 || !past[r - 1]) && (r == |past| || past[r])
  {
    if past == [] || past[0] then 0
    else if !past[|past| - 1] then |past|
    else Bisect(past, 0, |past| - 1)
  }

  lemma BisectStep(past: seq<bool>, left: int, right: int)
    requires 0 <= left <= right < |past|
    ensures var mid := left + (right - left) / 2;
            Bisect(past, left, right) == if past[mid] then Bisect(past, left, mid - 1) else Bisect(past, mid + 1, right)
  {
  }

  lemma BisectEnds(past: seq<bool>, left: int)
    requires 0 <= left <= |past|
    ensures Bisect(past, left, left - 1) == left
  {
  }

  /** Find_start_time_serial: whatever the order, a position where the times reach startTime. */
  method FindStartTimeSerial(startTime: int, list: seq<int>, times: seq<int>) returns (r: int)
    requires Indexes(list, times)
    ensures r == -1 <==> list == [] || (times[list[0]] < startTime && times[list[|list| - 1]] < startTime)
    ensures r != -1 ==> 0 <= r < |list| && times[list[r]] >= startTime && (r == 0 || times[list[r - 1]] < startTime)
    ensures Boundary(ReachAlong(list, times, startTime)) == if r == -1 then |list| else r
  {
    hide ReachAlong, Bisect;
    ghost var past := ReachAlong(list, times, startTime);
    var n := |list|;
    if n == 0 {
      return -1;
    }
    if times[list[0]] >= startTime {
      return 0;
    }
    if times[list[n - 1]] < startTime {
      return -1;
    }
    var left, right := 0, n - 1;
    while left <= right
      invariant 0 <= left <= right + 1 <= n
      invariant left == 0 || times[list[left - 1]] < startTime
      invariant right == n - 1 || times[list[right + 1]] >= startTime
      invariant Bisect(past, left, right) == Bisect(past, 0, n - 1)
    {
      var mid := left + (right - left) / 2;
      BisectStep(past, left, right);
      if times[list[mid]] >= startTime {
        right := mid - 1;
      } else {
        left := mid + 1;
      }
    }
    BisectEnds(past, left);
    return left;
  }

  /** Find_end_time_serial: whatever the order, a position after which the times pass endTime. */
  method FindEndTimeSerial(endTime: int, list: seq<int>, times: seq<int>) returns (r: int)
    requires Indexes(list, times)
    ensures r == -1 <==> list == [] || times[list[0]] > endTime
    ensures r != -1 ==> 0 <= r < |list| && times[list[r]] <= endTime && (r == |list| - 1 || times[list[r + 1]] > endTime)
    ensures Boundary(ReachAlong(list, times, endTime + 1)) == r + 1
  {
    hide ReachAlong, Bisect;
    ghost var past := ReachAlong(list, times, endTime + 1);
    var n := |list|;
    if n == 0 {
      return -1;
    }
    if times[list[0]] > endTime {
      return -1;
    }
    if times[list[n - 1]] <= endTime {
      return n - 1;
    }
    var left, right := 0, n - 1;
    while left <= right
      invariant 0 <= left <= right + 1 <= n
      invariant left == 0 || times[list[left - 1]] <= endTime
      invariant right == n - 1 || times[list[right + 1]] > endTime
      invariant Bisect(past, left, right) == Bisect(past, 0, n - 1)
    {
      var mid := left + (right - left) / 2;
      BisectStep(past, left, right);
      if times[list[mid]] > endTime {
        right := mid - 1;
      } else {
        left := mid + 1;
      }
    }
    BisectEnds(past, left);
    return right;
  }

  /** The positions first..last of the list are exactly those with a time in start..end. */
  ghost predicate Window(start: int, end: int, list: seq<int>, times: seq<int>, first: int, last: int)
    requires Indexes(list, times)
  {
    && 0 <= first <= last < |list|
    && forall i | 0 <= i < |list| :: first <= i <= last <==> start <= times[list[i]] <= end
  }

  ghost predicate NoneWithin(start: int, end: int, list: seq<int>, times: seq<int>)
    requires Indexes(list, times)
  {
    forall i | 0 <= i < |list| :: !(start <= times[list[i]] <= end)
  }

  /** What lies before the window comes first and what lies behind it last. Times that do not
      decrease are so for every window, and any times are for a window with all of them. */
  ghost predicate Sided(start: int, end: int, list: seq<int>, times: seq<int>)
    requires Indexes(list, times)
  {
    forall i, j | 0 <= i < j < |list| ::
      (times[list[i]] >= start ==> times[list[j]] >= start) && (times[list[j]] <= end ==> times[list[i]] <= end)
  }

  /** The part of the list the two searches find. */
  ghost function FoundBetween(start: int, end: int, list: seq<int>, times: seq<int>): (r: seq<int>)
    requires Indexes(list, times)
    ensures forall k | 0 <= k < |r| :: r[k] in list
  {
    var first := Boundary(ReachAlong(list, times, start));
    var behind := Boundary(ReachAlong(list, times, end + 1));
    if first < behind then list[first..behind] else []
  }

  /** The two binary searches of Search_time_key and the tests behind them. The window found is
      exact over times that have their side of it, as ordered times do, and nothing is found when
      there is nothing, in any order. */
  method FindWindow(start: int, end: int, list: seq<int>, times: seq<int>) returns (found: bool, first: int, last: int)
    requires Indexes(list, times)
    ensures found ==> 0 <= first <= last < |list|
    ensures FoundBetween(start, end, list, times) == if found then list[first..last + 1] else []
    ensures Sided(start, end, list, times) ==>
              if found then Window(start, end, list, times, first, last) else NoneWithin(start, end, list, times)
    ensures NoneWithin(start, end, list, times) ==> !found
  {
    hide ReachAlong, Boundary, Sided, NoneWithin, Window;
    if NoneWithin(start, end, list, times) { NothingBetween(start, end, list, times); }
    if Sided(start, end, list, times) { SidedIsExact(start, end, list, times); }
    first := FindStartTimeSerial(start, list, times);
    last := FindEndTimeSerial(end, list, times);
    if first == -1 || last == -1 {
      return false, first, last;
    }
    if first > last {
      return false, first, last;
    }
    found := true;
  }

  /** Times that have their side of the window turn once for each search. */
  lemma SidedIsExact(start: int, end: int, list: seq<int>, times: seq<int>)
    requires Indexes(list, times) && Sided(start, end, list, times)
    ensures var first := Boundary(ReachAlong(list, times, start));
            var behind := Boundary(ReachAlong(list, times, end + 1));
            if first < behind then Window(start, end, list, times, first, behind - 1)
            else NoneWithin(start, end, list, times)
  {
    hide ReachAlong, Boundary;
    TurnsOnce(ReachAlong(list, times, start));
    TurnsOnce(ReachAlong(list, times, end + 1));
  }

  lemma TurnsOnce(past: seq<bool>)
    requires forall i, j | 0 <= i < j < |past| && past[i] :: past[j]
    ensures forall k | 0 <= k < |past| :: past[k] <==> Boundary(past) <= k
  {
    hide Boundary;
  }

  /** With nothing in the window the second search turns where the first does, or before. */
  lemma NothingBetween(start: int, end: int, list: seq<int>, times: seq<int>)
    requires Indexes(list, times) && NoneWithin(start, end, list, times)
    ensures FoundBetween(start, end, list, times) == []
  {
    hide ReachAlong;
    var from, behind := ReachAlong(list, times, start), ReachAlong(list, times, end + 1);
    forall k | 0 <= k < |list| && from[k] ensures behind[k] {
      assert !(start <= times[list[k]] <= end);
    }
    if list != [] { BisectDown(from, behind, 0, |list| - 1); }
  }

  lemma NothingOfNone(start: int, end: int, times: seq<int>)
    ensures FoundBetween(start, end, [], times) == []
  {
  }

  /** More flags, an earlier turn. */
  lemma {:induction false} BisectDown(few: seq<bool>, many: seq<bool>, left: int, right: int)
    requires |few| == |many| && 0 <= left <= right + 1 <= |few| && forall k | 0 <= k < |few| && few[k] :: many[k]
    ensures Bisect(many, left, right) <= Bisect(few, left, right)
    decreases right - left + 1
  {
    hide Bisect;
    if left > right {
      BisectEnds(few, left);
      BisectEnds(many, left);
    } else {
      var mid := left + (right - left) / 2;
      BisectStep(few, left, right);
      BisectStep(many, left, right);
      if few[mid] {
        BisectDown(few, many, left, mid - 1);
      } else if !many[mid] {
        BisectDown(few, many, mid + 1, right);
      }
    }
  }

  // ---- the bulks of a time window ----

  /** Find_start_time_bulkhandler over the end times of the bulks of a key: where the search begins. */
  ghost function StartBulk(ends: seq<int>, start: int): (r: int)
    requires ends != []
    ensures 0 <= r < |ends| && (r == 0 || ends[r] <= start) && (r == 0 <== ends[0] > start)
  {
    if ends[0] > start then 0
    else if ends[|ends| - 1] < start then |ends| - 1
    else Bisect(Reach(ends, start + 1), 0, |ends| - 1) - 1
  }

  /** Over end times that do not decrease: everything left of r ends by startTime and everything
      right of it later; r itself ends by startTime unless it is the first. */
  ghost predicate Splits(startTime: int, ends: seq<int>, r: nat) {
    && r < |ends| && (r == 0 || ends[r] <= startTime)
    && (forall i | 0 <= i < r :: ends[i] <= startTime)
    && (forall i | r < i < |ends| :: startTime < ends[i])
  }

  lemma StartSplits(ends: seq<int>, start: int)
    requires ends != [] && Sorted(ends)
    ensures Splits(start, ends, StartBulk(ends, start))
  {
    hide Bisect, Reach;
  }

  /** The first bulk from r on that ends before the window, or their number: where the search ends,
      because the flag set there is never reset. */
  ghost function StopBulk(ends: seq<int>, start: int, r: nat): (stop: nat)
    requires r <= |ends|
    ensures r <= stop <= |ends| && (forall k | r <= k < stop :: start <= ends[k])
    ensures stop < |ends| ==> ends[stop] < start
    decreases |ends| - r
  {
    if r < |ends| && start <= ends[r] then StopBulk(ends, start, r + 1) else r
  }
}
