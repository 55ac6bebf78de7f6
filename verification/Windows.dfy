/** A search by time over all bulks of a key: which bulks it reaches, what it shows of them whatever
    the order of the times, and when that is what was wanted. */
module Windows {
  import opened Text
  import opened Search
  import opened Logs
  import opened Records
  import opened Bulk
  import opened Scan
  import opened Results
  import opened Answers

  // ---- end times ----

  /** The greatest time of a bulk, 0 without logs. */
  function EndOf(logs: seq<Log>): (r: nat)
    ensures forall k | 0 <= k < |logs| :: logs[k].time <= r
  {
    if logs == [] then 0
    else
      var n := |logs| - 1;
      if logs[n].time <= EndOf(logs[..n]) then EndOf(logs[..n]) else logs[n].time
  }

  lemma {:induction false} EndOfReached(logs: seq<Log>)
    requires logs != []
    ensures exists k :: 0 <= k < |logs| && logs[k].time == EndOf(logs)
  {
    var n := |logs| - 1;
    if logs[n].time <= EndOf(logs[..n]) {
      if n == 0 {
        assert logs[0].time == EndOf(logs);
      } else {
        EndOfReached(logs[..n]);
        var k :| 0 <= k < n && logs[..n][k].time == EndOf(logs[..n]);
        assert logs[k].time == EndOf(logs);
      }
    } else {
      assert logs[n].time == EndOf(logs);
    }
  }

  function EndsOf(bulks: seq<seq<Log>>, chosen: seq<int>): (r: seq<int>)
    requires Chosen(bulks, chosen)
    ensures |r| == |chosen| && forall k | 0 <= k < |r| :: r[k] == EndOf(bulks[chosen[k]])
  {
    seq(|chosen|, k requires 0 <= k < |chosen| => EndOf(bulks[chosen[k]]))
  }

  // ---- what is wanted and what is shown ----

  /** The lines wanted of the chosen bulks, oldest first. */
  function OldestOf(bulks: seq<seq<Log>>, chosen: seq<int>, key: string, start: int, end: int): seq<string>
    requires Chosen(bulks, chosen)
  {
    if chosen == [] then []
    else
      var n := |chosen| - 1;
      OldestOf(bulks, chosen[..n], key, start, end) + Oldest(bulks[chosen[n]], key, start, end)
  }

  /** The lines one bulk shows. */
  ghost function FoundLines(logs: seq<Log>, key: string, start: int, end: int): seq<string> {
    Forwards(logs, FoundSerials(logs, key, start, end))
  }

  /** The lines the chosen bulks show. */
  ghost function FoundOf(bulks: seq<seq<Log>>, chosen: seq<int>, key: string, start: int, end: int): seq<string>
    requires Chosen(bulks, chosen)
  {
    if chosen == [] then []
    else
      var n := |chosen| - 1;
      FoundOf(bulks, chosen[..n], key, start, end) + FoundLines(bulks[chosen[n]], key, start, end)
  }

  /** ... of the chosen bulks from r to m. */
  ghost function FoundPart(bulks: seq<seq<Log>>, chosen: seq<int>, r: nat, m: nat, key: string, start: int, end: int):
    seq<string>
    requires Chosen(bulks, chosen) && r <= m <= |chosen|
  {
    FoundOf(bulks, chosen[r..m], key, start, end)
  }

  /** ... from r up to the first that ends before the window. */
  ghost function FoundFrom(bulks: seq<seq<Log>>, chosen: seq<int>, r: nat, key: string, start: int, end: int): seq<string>
    requires Chosen(bulks, chosen) && r <= |chosen|
  {
    FoundPart(bulks, chosen, r, StopBulk(EndsOf(bulks, chosen), start, r), key, start, end)
  }

  /** The bulks of the key that are searched: from the one chosen up to the first that ends before
      the window. */
  ghost function Searched(bulks: seq<seq<Log>>, key: string, start: int): (r: seq<int>)
    ensures Chosen(bulks, r)
  {
    var chosen := BulksWith(bulks, key);
    if chosen == [] then []
    else
      var first := StartBulk(EndsOf(bulks, chosen), start);
      chosen[first..StopBulk(EndsOf(bulks, chosen), start, first)]
  }

  /** What a search by time shows. */
  ghost function WindowShown(bulks: seq<seq<Log>>, key: string, start: int, end: int): seq<string> {
    FoundOf(bulks, Searched(bulks, key, start), key, start, end)
  }

  lemma ShownIsFrom(bulks: seq<seq<Log>>, key: string, start: int, end: int)
    requires BulksWith(bulks, key) != []
    ensures var chosen := BulksWith(bulks, key);
            WindowShown(bulks, key, start, end) ==
              FoundFrom(bulks, chosen, StartBulk(EndsOf(bulks, chosen), start), key, start, end)
  {
  }

  /** No log that is wanted lies in a bulk that is not searched. */
  ghost predicate NothingMissed(bulks: seq<seq<Log>>, key: string, start: int, end: int) {
    forall i | 0 <= i < |bulks| && i !in Searched(bulks, key, start) :: Oldest(bulks[i], key, start, end) == []
  }

  /** The logs of each bulk are in turn. */
  ghost predicate EachInTurn(bulks: seq<seq<Log>>, key: string, start: int, end: int) {
    forall i | 0 <= i < |bulks| :: InTurn(bulks[i], key, start, end)
  }

  lemma InTurnOfAll(bulks: seq<seq<Log>>, key: string, start: int, end: int)
    requires InTurn(All(bulks), key, start, end)
    ensures EachInTurn(bulks, key, start, end)
  {
    hide All;
    forall i | 0 <= i < |bulks| ensures InTurn(bulks[i], key, start, end) {
      forall p, q | 0 <= p < q < |bulks[i]| && bulks[i][p].key == key && bulks[i][q].key == key
        ensures bulks[i][p].time >= start ==> bulks[i][q].time >= start
        ensures bulks[i][q].time <= end ==> bulks[i][p].time <= end
      {
        var k := AllAt(bulks, i, p);
        var l := AllAt(bulks, i, q);
      }
    }
  }

  // ---- the lines of each bulk ----

  lemma FoundIsWanted(logs: seq<Log>, key: string, start: int, end: int)
    requires InTurn(logs, key, start, end) || Oldest(logs, key, start, end) == []
    ensures FoundLines(logs, key, start, end) == Oldest(logs, key, start, end)
  {
    hide FoundSerials, WindowSerials, Forwards, Oldest, InTurn;
    WindowForwards(logs, key, start, end);
    FoundIsWindow(logs, key, start, end);
  }

  lemma {:induction false} FoundOfIsWanted(bulks: seq<seq<Log>>, chosen: seq<int>, key: string, start: int, end: int)
    requires Chosen(bulks, chosen)
    requires forall k | 0 <= k < |chosen| ::
               InTurn(bulks[chosen[k]], key, start, end) || Oldest(bulks[chosen[k]], key, start, end) == []
    ensures FoundOf(bulks, chosen, key, start, end) == OldestOf(bulks, chosen, key, start, end)
  {
    hide FoundLines, Oldest, InTurn;
    if chosen != [] {
      var n := |chosen| - 1;
      FoundOfIsWanted(bulks, chosen[..n], key, start, end);
      FoundIsWanted(bulks[chosen[n]], key, start, end);
    }
  }

  lemma FoundPartStep(bulks: seq<seq<Log>>, chosen: seq<int>, r: nat, m: nat, key: string, start: int, end: int)
    requires Chosen(bulks, chosen) && r <= m < |chosen|
    ensures FoundPart(bulks, chosen, r, r, key, start, end) == []
    ensures FoundPart(bulks, chosen, r, m + 1, key, start, end) ==
              FoundPart(bulks, chosen, r, m, key, start, end) + FoundLines(bulks[chosen[m]], key, start, end)
  {
    hide FoundLines;
    assert chosen[r..m + 1][..m - r] == chosen[r..m];
  }

  lemma {:induction false} OldestOfConcat(bulks: seq<seq<Log>>, a: seq<int>, b: seq<int>, key: string, start: int, end: int)
    requires Chosen(bulks, a) && Chosen(bulks, b) && Chosen(bulks, a + b)
    ensures OldestOf(bulks, a + b, key, start, end) ==
              OldestOf(bulks, a, key, start, end) + OldestOf(bulks, b, key, start, end)
  {
    hide Oldest;
    if b == [] {
      assert a + b == a;
    } else {
      var n := |b| - 1;
      assert (a + b)[..|a| + n] == a + b[..n] && (a + b)[|a| + n] == b[n];
      OldestOfConcat(bulks, a, b[..n], key, start, end);
    }
  }

  lemma {:induction false} OldestOfMore(bulks: seq<seq<Log>>, more: seq<seq<Log>>, chosen: seq<int>, key: string,
                                        start: int, end: int)
    requires Chosen(bulks, chosen)
    ensures OldestOf(bulks + more, chosen, key, start, end) == OldestOf(bulks, chosen, key, start, end)
  {
    hide Oldest;
    if chosen != [] { OldestOfMore(bulks, more, chosen[..|chosen| - 1], key, start, end); }
  }

  /** Nothing is wanted of some bulks exactly if nothing is wanted of each. */
  lemma {:induction false} NothingOfEach(bulks: seq<seq<Log>>, chosen: seq<int>, key: string, start: int, end: int)
    requires Chosen(bulks, chosen)
    ensures OldestOf(bulks, chosen, key, start, end) == [] <==>
              forall k | 0 <= k < |chosen| :: Oldest(bulks[chosen[k]], key, start, end) == []
  {
    hide Oldest;
    if chosen != [] { NothingOfEach(bulks, chosen[..|chosen| - 1], key, start, end); }
  }

  lemma {:induction false} NoKeyNothingWanted(logs: seq<Log>, key: string, start: int, end: int)
    requires KeySerials(logs, key) == []
    ensures Oldest(logs, key, start, end) == []
  {
    hide Shown;
    if logs != [] { NoKeyNothingWanted(logs[..|logs| - 1], key, start, end); }
  }

  /** The bulks of the key have every log wanted. */
  lemma {:induction false} WindowBulksSuffice(bulks: seq<seq<Log>>, key: string, start: int, end: int)
    ensures OldestOf(bulks, BulksWith(bulks, key), key, start, end) == Oldest(All(bulks), key, start, end)
  {
    hide Oldest, KeySerials;
    if bulks == [] {
      NothingWanted(key, start, end);
    } else {
      var n := |bulks| - 1;
      var front, chosen := bulks[..n], BulksWith(bulks[..n], key);
      WindowBulksSuffice(front, key, start, end);
      OldestOfMore(front, [bulks[n]], chosen, key, start, end);
      assert front + [bulks[n]] == bulks;
      OldestConcat(All(front), bulks[n], key, start, end);
      if KeySerials(bulks[n], key) != [] {
        assert (chosen + [n])[..|chosen|] == chosen;
      } else {
        NoKeyNothingWanted(bulks[n], key, start, end);
        assert chosen + [] == chosen;
      }
    }
  }

  lemma NothingWanted(key: string, start: int, end: int)
    ensures Oldest([], key, start, end) == []
  {
  }

  lemma {:induction false} EndedNothingWanted(logs: seq<Log>, key: string, start: int, end: int)
    requires forall k | 0 <= k < |logs| :: logs[k].time < start
    ensures Oldest(logs, key, start, end) == []
  {
    hide Shown;
    if logs != [] { EndedNothingWanted(logs[..|logs| - 1], key, start, end); }
  }

  // ---- the bulks passed over ----

  lemma {:induction false} KeyBulksChosen(bulks: seq<seq<Log>>, key: string, i: nat)
    requires i < |bulks| && KeySerials(bulks[i], key) != []
    ensures i in BulksWith(bulks, key)
  {
    hide KeySerials;
    if i < |bulks| - 1 { KeyBulksChosen(bulks[..|bulks| - 1], key, i); }
  }

  /** What is wanted lies before the bulks searched, in them and behind them; nothing is missed
      exactly if it all lies in them. */
  lemma WantedParts(bulks: seq<seq<Log>>, key: string, start: int, end: int)
    returns (before: seq<string>, behind: seq<string>)
    ensures Oldest(All(bulks), key, start, end) ==
              before + OldestOf(bulks, Searched(bulks, key, start), key, start, end) + behind
    ensures NothingMissed(bulks, key, start, end) <==> before == [] && behind == []
  {
    hide Oldest, BulksWith, KeySerials, EndOf, All, OldestOf, StartBulk, StopBulk;
    var chosen := BulksWith(bulks, key);
    WindowBulksSuffice(bulks, key, start, end);
    if chosen == [] {
      before, behind := [], [];
      assert Searched(bulks, key, start) == chosen;
      OnlyKeyBulks(bulks, key, start, end, 0, 0);
    } else {
      var r := StartBulk(EndsOf(bulks, chosen), start);
      var stop := StopBulk(EndsOf(bulks, chosen), start, r);
      before, behind := OldestOf(bulks, chosen[..r], key, start, end), OldestOf(bulks, chosen[stop..], key, start, end);
      assert chosen == (chosen[..r] + chosen[r..stop]) + chosen[stop..];
      OldestOfConcat(bulks, chosen[..r], chosen[r..stop], key, start, end);
      OldestOfConcat(bulks, chosen[..r] + chosen[r..stop], chosen[stop..], key, start, end);
      NothingOutside(bulks, chosen, key, start, end, r, stop);
      OnlyKeyBulks(bulks, key, start, end, r, stop);
    }
  }

  lemma NothingOutside(bulks: seq<seq<Log>>, chosen: seq<int>, key: string, start: int, end: int, r: nat, stop: nat)
    requires Chosen(bulks, chosen) && r <= stop <= |chosen|
    ensures (OldestOf(bulks, chosen[..r], key, start, end) == [] &&
             OldestOf(bulks, chosen[stop..], key, start, end) == []) <==>
              forall k | 0 <= k < |chosen| && !(r <= k < stop) :: Oldest(bulks[chosen[k]], key, start, end) == []
  {
    hide Oldest, OldestOf;
    NothingOfEach(bulks, chosen[..r], key, start, end);
    NothingOfEach(bulks, chosen[stop..], key, start, end);
    assert forall k | 0 <= k < r :: chosen[..r][k] == chosen[k];
    assert forall k | stop <= k < |chosen| :: chosen[stop..][k - stop] == chosen[k];
  }

  /** The bulks not searched are those without the key and those left and right of the part searched. */
  lemma OnlyKeyBulks(bulks: seq<seq<Log>>, key: string, start: int, end: int, r: nat, stop: nat)
    requires r <= stop <= |BulksWith(bulks, key)|
    ensures var chosen := BulksWith(bulks, key);
            (forall i | 0 <= i < |bulks| && i !in chosen[r..stop] :: Oldest(bulks[i], key, start, end) == []) <==>
              forall k | 0 <= k < |chosen| && !(r <= k < stop) :: Oldest(bulks[chosen[k]], key, start, end) == []
  {
    hide Oldest, BulksWith, KeySerials;
    var chosen := BulksWith(bulks, key);
    forall k | 0 <= k < |chosen| && !(r <= k < stop) ensures chosen[k] !in chosen[r..stop] {
    }
    forall k | r <= k < stop ensures chosen[k] in chosen[r..stop] {
      assert chosen[r..stop][k - r] == chosen[k];
    }
    forall i | 0 <= i < |bulks| && i !in chosen[r..stop]
      ensures Oldest(bulks[i], key, start, end) == [] || exists k :: 0 <= k < |chosen| && !(r <= k < stop) && chosen[k] == i
    {
      if KeySerials(bulks[i], key) == [] {
        NoKeyNothingWanted(bulks[i], key, start, end);
      } else {
        KeyBulksChosen(bulks, key, i);
        var k :| 0 <= k < |chosen| && chosen[k] == i;
      }
    }
  }

  // ---- when the answer is the one wanted ----

  /** Of logs in turn the bulks searched show exactly what is wanted of them. */
  lemma ShownOfSearched(bulks: seq<seq<Log>>, key: string, start: int, end: int)
    requires EachInTurn(bulks, key, start, end)
    ensures WindowShown(bulks, key, start, end) == OldestOf(bulks, Searched(bulks, key, start), key, start, end)
  {
    hide Searched, FoundOf, OldestOf, InTurn, Oldest;
    FoundOfIsWanted(bulks, Searched(bulks, key, start), key, start, end);
  }

  /** The chunks sent carry what is wanted if and only if nothing is missed. */
  lemma WindowExactIff(bulks: seq<seq<Log>>, key: string, start: int, end: int, chunks: seq<Chunk>, clientId: int)
    requires EachInTurn(bulks, key, start, end) && AllStorable(All(bulks))
    requires Carries(chunks, clientId, Answer(WindowShown(bulks, key, start, end)))
    ensures Carries(chunks, clientId, Answer(Oldest(All(bulks), key, start, end))) <==>
              NothingMissed(bulks, key, start, end)
  {
    hide All, Oldest, EndOf, OldestOf, Searched, WindowShown, NothingMissed, EachInTurn, AllStorable, Carries;
    ShownOfSearched(bulks, key, start, end);
    var before, behind := WantedParts(bulks, key, start, end);
    OldestBegins(All(bulks), key, start, end);
    SameReply(chunks, clientId, before, OldestOf(bulks, Searched(bulks, key, start), key, start, end), behind);
  }

  /** The reply to a search by time. Only lines of the key are shown. If the key's logs are in turn
      in each of its bulks, those wanted are shown that lie in the bulks searched, and the reply is
      the one wanted if and only if none lies in another; over increasing ends that means that the
      search can begin or nothing is wanted. */
  ghost predicate WindowAnswered(bulks: seq<seq<Log>>, key: string, start: int, end: int, chunks: seq<Chunk>,
                                 clientId: int)
  {
    var shown, wanted := WindowShown(bulks, key, start, end), Oldest(All(bulks), key, start, end);
    && Carries(chunks, clientId, Answer(shown)) && OfKey(shown, All(bulks), key)
    && (Settled(All(bulks), key, start, end) ==> shown == wanted)
    && (EachInTurn(bulks, key, start, end) ==>
          && shown == OldestOf(bulks, Searched(bulks, key, start), key, start, end)
          && (Carries(chunks, clientId, Answer(wanted)) <==> NothingMissed(bulks, key, start, end)))
    && (Increasing(EndsOf(bulks, BulksWith(bulks, key))) ==>
          (NothingMissed(bulks, key, start, end) <==>
             Reachable(EndsOf(bulks, BulksWith(bulks, key)), start) || wanted == []))
  }

  lemma WindowAnswers(bulks: seq<seq<Log>>, key: string, start: int, end: int, chunks: seq<Chunk>, clientId: int)
    requires AllStorable(All(bulks)) && Carries(chunks, clientId, Answer(WindowShown(bulks, key, start, end)))
    ensures WindowAnswered(bulks, key, start, end, chunks, clientId)
  {
    hide All, Oldest, EndOf, OldestOf, Searched, NothingMissed, EachInTurn, AllStorable, Carries, BulksWith, Settled,
         OfKey, FoundOf, Increasing, Reachable;
    FoundOfKey(bulks, Searched(bulks, key, start), key, start, end);
    if Settled(All(bulks), key, start, end) { SettledShown(bulks, key, start, end); }
    if EachInTurn(bulks, key, start, end) {
      ShownOfSearched(bulks, key, start, end);
      WindowExactIff(bulks, key, start, end, chunks, clientId);
    }
    if Increasing(EndsOf(bulks, BulksWith(bulks, key))) { ReachableIff(bulks, key, start, end); }
  }

  /** Lines of logs: each begins with a bracket. */
  ghost predicate LogLines(lines: seq<string>) {
    forall m | 0 <= m < |lines| :: lines[m] != [] && lines[m][0] == '['
  }

  /** A reply that carries some lines carries no more of them; the remark that there is no result
      is no log's line. */
  lemma SameReply(chunks: seq<Chunk>, clientId: int, before: seq<string>, shown: seq<string>, behind: seq<string>)
    requires LogLines(before + shown + behind) && Carries(chunks, clientId, Answer(shown))
    ensures Carries(chunks, clientId, Answer(before + shown + behind)) <==> before == [] && behind == []
  {
    hide Under, Results.Joined, Flatten, Packed, Statistics;
    var wanted := before + shown + behind;
    if before == [] && behind == [] {
      assert wanted == shown;
    } else if shown == [] {
      FlattenBegins(wanted);
      FlattenBegins([NO_RESULT]);
    } else {
      FlattenConcat(before, shown);
      FlattenConcat(before + shown, behind);
      forall m | 0 <= m < |before| ensures before[m] == wanted[m] {}
      forall m | 0 <= m < |behind| ensures behind[m] == wanted[|before| + |shown| + m] {}
      if before != [] { FlattenBegins(before); }
      if behind != [] { FlattenBegins(behind); }
    }
  }

  lemma {:induction false} FlattenConcat(a: seq<string>, b: seq<string>)
    ensures Flatten(a + b) == Flatten(a) + Flatten(b)
  {
    if b == [] {
      assert a + b == a;
    } else {
      var n := |b| - 1;
      assert (a + b)[..|a| + n] == a + b[..n];
      FlattenConcat(a, b[..n]);
    }
  }

  lemma {:induction false} FlattenBegins(lines: seq<string>)
    requires lines != [] && lines[0] != []
    ensures Flatten(lines) != [] && Flatten(lines)[0] == lines[0][0]
  {
    if |lines| > 1 {
      FlattenBegins(lines[..|lines| - 1]);
    } else {
      assert Flatten(lines[..0]) == "";
    }
  }

  lemma {:induction false} OldestBegins(logs: seq<Log>, key: string, start: int, end: int)
    requires AllStorable(logs)
    ensures LogLines(Oldest(logs, key, start, end))
  {
    hide Shown, Storable;
    if logs != [] {
      var n := |logs| - 1;
      OldestBegins(logs[..n], key, start, end);
      ShownBegins(logs[n]);
    }
  }

  lemma ShownBegins(log: Log)
    requires Storable(log)
    ensures Shown(log) != [] && Shown(log)[0] == '['
  {
    hide FindNewline, Digits, Clean;
    ShownFits(log);
    assert Render(log)[0] == '[';
  }

  // ---- bulks that end one after another ----

  ghost predicate Increasing(s: seq<int>) {
    forall i, j | 0 <= i < j < |s| :: s[i] < s[j]
  }

  /** Where the search can begin: before the first bulk of the key ends, or when one of its bulks
      ends. */
  ghost predicate Reachable(ends: seq<int>, start: int) {
    ends != [] && (start < ends[0] || start in ends)
  }

  /** Before the chosen bulk nothing is wanted. */
  lemma ChosenBulkSuffices(bulks: seq<seq<Log>>, key: string, start: int, end: int)
    requires BulksWith(bulks, key) != [] && Increasing(EndsOf(bulks, BulksWith(bulks, key)))
    ensures var chosen := BulksWith(bulks, key);
            forall k | 0 <= k < StartBulk(EndsOf(bulks, chosen), start) :: Oldest(bulks[chosen[k]], key, start, end) == []
  {
    hide Oldest, BulksWith, EndOf, StartBulk;
    var chosen := BulksWith(bulks, key);
    var ends := EndsOf(bulks, chosen);
    forall k | 0 <= k < StartBulk(ends, start) ensures Oldest(bulks[chosen[k]], key, start, end) == [] {
      assert ends[k] < ends[StartBulk(ends, start)] <= start;
      EndedNothingWanted(bulks[chosen[k]], key, start, end);
    }
  }

  /** With increasing ends the search goes through all bulks behind the chosen one, or through none. */
  lemma SearchedIncreasing(ends: seq<int>, start: int)
    requires ends != [] && Increasing(ends)
    ensures var r := StartBulk(ends, start);
            StopBulk(ends, start, r) == if Reachable(ends, start) then |ends| else r
  {
    hide StartBulk, StopBulk;
    assert Sorted(ends);
    StartSplits(ends, start);
    var r := StartBulk(ends, start);
    StopBulkAt(ends, start, r);
    if start in ends {
      var i :| 0 <= i < |ends| && ends[i] == start;
      assert i == r;
    }
  }

  lemma StopBulkAt(ends: seq<int>, start: int, r: nat)
    requires r < |ends|
    ensures StopBulk(ends, start, r) == r <==> ends[r] < start
  {
  }

  /** Then nothing is missed exactly if the search can begin or nothing is wanted; and if it cannot
      begin nothing is shown. */
  lemma ReachableIff(bulks: seq<seq<Log>>, key: string, start: int, end: int)
    requires Increasing(EndsOf(bulks, BulksWith(bulks, key)))
    ensures NothingMissed(bulks, key, start, end) <==>
              Reachable(EndsOf(bulks, BulksWith(bulks, key)), start) || Oldest(All(bulks), key, start, end) == []
    ensures !Reachable(EndsOf(bulks, BulksWith(bulks, key)), start) ==> WindowShown(bulks, key, start, end) == []
  {
    hide Oldest, All, NothingMissed, Reachable, Searched, EndOf, BulksWith;
    var before, behind := WantedParts(bulks, key, start, end);
    ReachedOrNot(bulks, key, start, end);
  }

  lemma ReachedOrNot(bulks: seq<seq<Log>>, key: string, start: int, end: int)
    requires Increasing(EndsOf(bulks, BulksWith(bulks, key)))
    ensures if Reachable(EndsOf(bulks, BulksWith(bulks, key)), start) then NothingMissed(bulks, key, start, end)
            else Searched(bulks, key, start) == []
  {
    hide Oldest, BulksWith, EndOf, StartBulk, StopBulk;
    var chosen := BulksWith(bulks, key);
    if chosen != [] {
      var ends := EndsOf(bulks, chosen);
      SearchedIncreasing(ends, start);
      if Reachable(ends, start) {
        ChosenBulkSuffices(bulks, key, start, end);
        OnlyKeyBulks(bulks, key, start, end, StartBulk(ends, start), |chosen|);
      }
    }
  }

  // ---- windows whose answer does not depend on how the bulks were cut ----

  /** The place of the key's first log, or the number of logs. */
  ghost function FirstOf(logs: seq<Log>, key: string): (r: nat)
    ensures r <= |logs| && (forall k | 0 <= k < r :: logs[k].key != key) && (r < |logs| ==> logs[r].key == key)
  {
    if logs == [] then 0
    else
      var n := |logs| - 1;
      var r := FirstOf(logs[..n], key);
      if r < n || logs[n].key == key then r else n + 1
  }

  /** No log of the key lies before the window, and if its first log lies on the start no other
      does. */
  ghost predicate BeginsInTime(logs: seq<Log>, key: string, start: int) {
    var first := FirstOf(logs, key);
    && (forall i | 0 <= i < |logs| && logs[i].key == key :: start <= logs[i].time)
    && (first < |logs| && logs[first].time == start ==>
          forall j | first < j < |logs| && logs[j].key == key :: start < logs[j].time)
  }

  /** Nothing is wanted, or the key's logs are in turn and the window begins in time for them: then
      the answer does not depend on where one bulk ends and the next begins. */
  ghost predicate Settled(logs: seq<Log>, key: string, start: int, end: int) {
    Oldest(logs, key, start, end) == [] || (InTurn(logs, key, start, end) && BeginsInTime(logs, key, start))
  }

  lemma {:induction false} FirstInFirst(bulks: seq<seq<Log>>, key: string)
    requires BulksWith(bulks, key) != []
    ensures var first := FirstOf(All(bulks), key);
            first < |All(bulks)| && All(bulks)[first].time <= EndOf(bulks[BulksWith(bulks, key)[0]])
  {
    hide KeySerials, EndOf, FirstOf;
    var n := |bulks| - 1;
    var front, logs := All(bulks[..n]), bulks[n];
    if BulksWith(bulks[..n], key) != [] {
      FirstInFirst(bulks[..n], key);
      assert FirstOf(front + logs, key) == FirstOf(front, key) by { FirstConcat(front, logs, key); }
    } else {
      KeyBulksIff(bulks[..n], key);
      var p := KeyLogIn(logs, key);
      FirstConcat(front, logs, key);
      forall k | 0 <= k < |front| ensures front[k].key != key {
        if front[k].key == key { KeySerialsHold(front, key, k); }
      }
    }
  }

  lemma FirstConcat(a: seq<Log>, b: seq<Log>, key: string)
    ensures FirstOf(a + b, key) == if FirstOf(a, key) < |a| then FirstOf(a, key) else |a| + FirstOf(b, key)
  {
    hide FirstOf;
    var r := FirstOf(a + b, key);
    assert forall k | 0 <= k < |a| :: (a + b)[k] == a[k];
    assert forall k | 0 <= k < |b| :: (a + b)[|a| + k] == b[k];
    assert r < |a| ==> a[r].key == key;
    assert |a| <= r < |a| + |b| ==> b[r - |a|].key == key;
    assert FirstOf(b, key) < |b| ==> (a + b)[|a| + FirstOf(b, key)].key == key;
  }

  /** If the window begins in time, the search begins at the key's first bulk and no bulk ends it. */
  lemma EndsBehindStart(bulks: seq<seq<Log>>, key: string, start: int)
    requires BeginsInTime(All(bulks), key, start)
    ensures Searched(bulks, key, start) == BulksWith(bulks, key)
  {
    hide BulksWith, KeySerials, EndOf, All, StartBulk, StopBulk, FirstOf;
    var chosen := BulksWith(bulks, key);
    if chosen != [] {
      var ends := EndsOf(bulks, chosen);
      forall k | 0 <= k < |chosen| ensures start <= ends[k] && (k > 0 && ends[0] == start ==> start < ends[k]) {
        EndBehindStart(bulks, key, start, k);
      }
      assert StartBulk(ends, start) == 0;
      assert StopBulk(ends, start, 0) == |ends|;
      assert chosen[0..|chosen|] == chosen;
    }
  }

  lemma EndBehindStart(bulks: seq<seq<Log>>, key: string, start: int, k: nat)
    requires BeginsInTime(All(bulks), key, start) && k < |BulksWith(bulks, key)|
    ensures var ends := EndsOf(bulks, BulksWith(bulks, key));
            start <= ends[k] && (k > 0 && ends[0] == start ==> start < ends[k])
  {
    hide BulksWith, KeySerials, EndOf, All, FirstOf;
    var chosen := BulksWith(bulks, key);
    BulksWithHold(bulks, key, k);
    var p := KeyLogIn(bulks[chosen[k]], key);
    var at := AllAt(bulks, chosen[k], p);
    if k > 0 {
      FirstInFirst(bulks, key);
      BulksWithHold(bulks, key, 0);
      var p0 := KeyLogIn(bulks[chosen[0]], key);
      var at0 := AllAt(bulks, chosen[0], p0);
      PrefixesInOrder(bulks, chosen[0], chosen[k]);
      assert at0 < at;
    }
  }

  /** What is shown is then what is wanted, wherever the bulks were cut. */
  lemma SettledShown(bulks: seq<seq<Log>>, key: string, start: int, end: int)
    requires Settled(All(bulks), key, start, end)
    ensures WindowShown(bulks, key, start, end) == Oldest(All(bulks), key, start, end)
  {
    hide BulksWith, All, Oldest, InTurn, BeginsInTime, Searched, OldestOf, FoundOf;
    WindowBulksSuffice(bulks, key, start, end);
    if Oldest(All(bulks), key, start, end) == [] {
      var before, behind := WantedParts(bulks, key, start, end);
      NothingOfEach(bulks, Searched(bulks, key, start), key, start, end);
      FoundOfIsWanted(bulks, Searched(bulks, key, start), key, start, end);
    } else {
      InTurnOfAll(bulks, key, start, end);
      ShownOfSearched(bulks, key, start, end);
      EndsBehindStart(bulks, key, start);
    }
  }

  /** A window that begins before every time of the key and ends no earlier than any of them shows
      all the key's logs in append order, whatever the order of their times and the cuts. */
  lemma WholeKeyShown(bulks: seq<seq<Log>>, key: string, start: int, end: int)
    requires forall k | 0 <= k < |All(bulks)| && All(bulks)[k].key == key :: start < All(bulks)[k].time <= end
    ensures Settled(All(bulks), key, start, end)
    ensures Below(KeySerials(All(bulks), key), |All(bulks)|)
    ensures WindowShown(bulks, key, start, end) == Forwards(All(bulks), KeySerials(All(bulks), key))
  {
    hide All, Oldest, WindowShown, FirstOf, Forwards, KeySerials, InTurn;
    OrderedOrCovered(All(bulks), key, start, end);
    SettledShown(bulks, key, start, end);
    WindowForwards(All(bulks), key, start, end);
    KeySerialsSorted(All(bulks), key);
    WindowHasAll(All(bulks), key, start, end);
  }

  lemma {:induction false} WindowHasAll(logs: seq<Log>, key: string, start: int, end: int)
    requires forall k | 0 <= k < |logs| && logs[k].key == key :: start < logs[k].time <= end
    ensures WindowSerials(logs, key, start, end) == KeySerials(logs, key)
  {
    if logs != [] { WindowHasAll(logs[..|logs| - 1], key, start, end); }
  }

  /** In a single bulk a search by time finds what is wanted of logs in turn, for every window. */
  lemma OneBulkShown(logs: seq<Log>, key: string, start: int, end: int)
    requires InTurn(logs, key, start, end)
    ensures WindowShown([logs], key, start, end) == Oldest(logs, key, start, end)
  {
    hide Oldest, InTurn, KeySerials, EndOf, FoundLines, FoundOf, Searched;
    var bulks := [logs];
    NoBulkSearched(bulks, key, start);
    FoundOfFew(bulks, key, start, end);
    assert bulks[..0] == [] && All(bulks) == logs;
    assert BulksWith(bulks[..0], key) == [];
    FoundIsWanted(logs, key, start, end);
    if KeySerials(logs, key) == [] {
      NoKeyNothingWanted(logs, key, start, end);
    } else {
      assert BulksWith(bulks, key) == [0];
      if EndOf(logs) < start { EndedNothingWanted(logs, key, start, end); }
      OneSearched(bulks, key, start);
    }
  }

  lemma NoBulkSearched(bulks: seq<seq<Log>>, key: string, start: int)
    ensures BulksWith(bulks, key) == [] ==> Searched(bulks, key, start) == []
  {
  }

  lemma FoundOfFew(bulks: seq<seq<Log>>, key: string, start: int, end: int)
    requires |bulks| == 1
    ensures FoundOf(bulks, [], key, start, end) == []
    ensures FoundOf(bulks, [0], key, start, end) == FoundLines(bulks[0], key, start, end)
  {
    hide FoundLines;
    assert [0][..0] == [];
  }

  lemma OneSearched(bulks: seq<seq<Log>>, key: string, start: int)
    requires |bulks| == 1 && BulksWith(bulks, key) == [0]
    ensures Searched(bulks, key, start) == if start <= EndOf(bulks[0]) then [0] else []
  {
    hide EndOf, BulksWith, Bisect;
    var ends := EndsOf(bulks, [0]);
    assert StartBulk(ends, start) == 0;
    assert StopBulk(ends, start, 0) == if start <= ends[0] then 1 else 0;
  }

  // ---- lines of a key ----

  /** Every line is one of a log with the key. */
  ghost predicate OfKey(lines: seq<string>, logs: seq<Log>, key: string) {
    forall m | 0 <= m < |lines| :: LineOfKey(lines[m], logs, key)
  }

  ghost predicate LineOfKey(line: string, logs: seq<Log>, key: string) {
    exists k :: 0 <= k < |logs| && logs[k].key == key && line == Shown(logs[k])
  }

  lemma {:induction false} ForwardsOfKey(logs: seq<Log>, serials: seq<int>, key: string)
    requires Below(serials, |logs|) && forall k | 0 <= k < |serials| :: logs[serials[k]].key == key
    ensures OfKey(Forwards(logs, serials), logs, key)
  {
    hide Shown;
    if serials != [] { ForwardsOfKey(logs, serials[..|serials| - 1], key); }
  }

  lemma OfKeyInAll(lines: seq<string>, bulks: seq<seq<Log>>, i: nat, key: string)
    requires i < |bulks| && OfKey(lines, bulks[i], key)
    ensures OfKey(lines, All(bulks), key)
  {
    hide Shown, All;
    forall m | 0 <= m < |lines| ensures LineOfKey(lines[m], All(bulks), key) {
      assert LineOfKey(lines[m], bulks[i], key);
      var p :| 0 <= p < |bulks[i]| && bulks[i][p].key == key && lines[m] == Shown(bulks[i][p]);
      var at := AllAt(bulks, i, p);
    }
  }

  /** Whatever the order, only lines of the key are shown. */
  lemma {:induction false} FoundOfKey(bulks: seq<seq<Log>>, chosen: seq<int>, key: string, start: int, end: int)
    requires Chosen(bulks, chosen)
    ensures OfKey(FoundOf(bulks, chosen, key, start, end), All(bulks), key)
  {
    hide All, FoundSerials, LineOfKey, Forwards;
    if chosen != [] {
      var n := |chosen| - 1;
      var logs := bulks[chosen[n]];
      FoundOfKey(bulks, chosen[..n], key, start, end);
      ForwardsOfKey(logs, FoundSerials(logs, key, start, end), key);
      OfKeyInAll(FoundLines(logs, key, start, end), bulks, chosen[n], key);
    }
  }

  // ---- examples ----

  /** Logs of a key in order, no two of its bulks ending together, and a window that begins before
      the first of them ends: yet the bulk between ends the search, because its other logs are
      older than those of the first. */
  lemma LaterBulkMissed()
    ensures var bulks := [[Log("k", 5, ""), Log("j", 100, "")], [Log("k", 10, "")], [Log("k", 60, "")]];
            && Chronological(All(bulks), "k") && EndsOf(bulks, BulksWith(bulks, "k")) == [100, 10, 60]
            && Reachable(EndsOf(bulks, BulksWith(bulks, "k")), 50)
            && Oldest(All(bulks), "k", 50, 70) == [Shown(Log("k", 60, ""))]
            && WindowShown(bulks, "k", 50, 70) == []
  {
    hide All, BulksWith, EndOf, Oldest, FoundLines, Bisect, KeySerials, Shown;
    var a, j, b, c := Log("k", 5, ""), Log("j", 100, ""), Log("k", 10, ""), Log("k", 60, "");
    ThreeBulks(a, j, b, c);
    FoundIsWanted([a, j], "k", 50, 70);
    var bulks := [[a, j], [b], [c]];
    var ends := EndsOf(bulks, [0, 1, 2]);
    assert StartBulk(ends, 50) == 0;
    assert StopBulk(ends, 50, 0) == 1 by { assert ends[1] < 50; }
    assert [0, 1, 2][0..1] == [0];
    assert Searched(bulks, "k", 50) == [0];
    assert bulks[0] == [a, j];
    assert [0][..0] == [];
  }

  lemma ThreeBulks(a: Log, j: Log, b: Log, c: Log)
    requires a.key == b.key == c.key != j.key && a.time < j.time && b.time < 50 && a.time < 50 && 50 <= c.time <= 70
    ensures var bulks := [[a, j], [b], [c]];
            && All(bulks) == [a, j, b, c] && BulksWith(bulks, a.key) == [0, 1, 2]
            && EndsOf(bulks, [0, 1, 2]) == [j.time, b.time, c.time]
    ensures Oldest([a, j], a.key, 50, 70) == [] && Oldest([a, j, b, c], a.key, 50, 70) == [Shown(c)]
  {
    hide Shown, KeySerials, EndOf, Oldest;
    var bulks := [[a, j], [b], [c]];
    OneLog(b);
    OneLog(c);
    TwoLogs(a, j);
    FourLogs(a, j, b, c);
    assert bulks[..2] == [[a, j], [b]] && bulks[..2][..1] == [[a, j]] && bulks[..1] == [[a, j]] && bulks[..1][..0] == [];
    assert All(bulks[..1]) == [a, j];
    assert All(bulks[..2]) == [a, j, b];
    assert BulksWith(bulks[..1], a.key) == [0];
    assert BulksWith(bulks[..2], a.key) == [0, 1];
  }

  lemma TwoLogs(a: Log, j: Log)
    requires a.key != j.key && a.time < j.time && a.time < 50
    ensures KeySerials([a, j], a.key) == [0] && EndOf([a, j]) == j.time && Oldest([a, j], a.key, 50, 70) == []
  {
    hide Shown;
    assert [a, j][..1] == [a] && [a][..0] == [];
    OneLog(a);
    assert Oldest([a], a.key, 50, 70) == [];
  }

  lemma FourLogs(a: Log, j: Log, b: Log, c: Log)
    requires a.key == b.key == c.key != j.key && a.time < j.time && b.time < 50 && a.time < 50 && 50 <= c.time <= 70
    ensures Oldest([a, j, b, c], a.key, 50, 70) == [Shown(c)]
  {
    hide Shown;
    TwoLogs(a, j);
    assert [a, j, b][..2] == [a, j] && [a, j, b, c][..3] == [a, j, b];
    assert Oldest([a, j, b], a.key, 50, 70) == [];
  }

  lemma TwoBulks(a: Log, b: Log)
    requires a.key == b.key
    ensures var bulks := [[a], [b]];
            All(bulks) == [a, b] && BulksWith(bulks, a.key) == [0, 1] && EndsOf(bulks, [0, 1]) == [a.time, b.time]
  {
    hide KeySerials, EndOf;
    var bulks := [[a], [b]];
    OneLog(a);
    OneLog(b);
    assert bulks[..1] == [[a]] && bulks[..1][..0] == [];
    assert All(bulks[..1]) == [a] && BulksWith(bulks[..1], a.key) == [0];
  }

  lemma OneLog(a: Log)
    ensures KeySerials([a], a.key) == [0] && EndOf([a]) == a.time
  {
    assert [a][..0] == [];
  }
}
