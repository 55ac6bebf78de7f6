/** What the queries of the store answer, as scans of the logs in the order they were appended,
    and how a scan of all the logs splits into scans of the bulks. */
module Scan {
  import opened Wrappers
  import opened Tries
  import opened Logs
  import opened Records

  /** The line a reader is shown for a log. */
  function Shown(log: Log): string {
    FirstLine(Render(log))
  }

  function All(bulks: seq<seq<Log>>): seq<Log> {
    if bulks == [] then [] else All(bulks[..|bulks| - 1]) + bulks[|bulks| - 1]
  }

  function Take<T>(s: seq<T>, n: nat): (r: seq<T>)
    ensures |r| <= n
  {
    if |s| <= n then s else s[..n]
  }

  function Copies(line: string, times: nat): (r: seq<string>)
    ensures |r| == times && forall k | 0 <= k < times :: r[k] == line
  {
    seq(times, _ => line)
  }

  /** The lines of the logs, newest first, each as often as it is hit. */
  function Newest(logs: seq<Log>, hits: Log -> nat): seq<string> {
    if logs == [] then []
    else
      var n := |logs| - 1;
      Copies(Shown(logs[n]), hits(logs[n])) + Newest(logs[..n], hits)
  }

  function KeyHits(key: string): Log -> nat {
    (log: Log) => if log.key == key then 1 else 0
  }

  function WordHits(words: seq<string>): Log -> nat
    requires words != []
  {
    (log: Log) => CommonOccurrences(words, Tokens(log.content))
  }

  function EveryLog(): Log -> nat {
    (log: Log) => 1
  }

  /** The lines of the logs wanted, oldest first. */
  function Oldest(logs: seq<Log>, key: string, start: int, end: int): seq<string> {
    if logs == [] then []
    else
      var n := |logs| - 1;
      Oldest(logs[..n], key, start, end) + (if Wanted(logs[n], key, start, end) then [Shown(logs[n])] else [])
  }

  // ---- from one bulk to all ----

  lemma Associative<T>(x: seq<T>, y: seq<T>, z: seq<T>)
    ensures x + (y + z) == (x + y) + z
  {
  }

  lemma {:induction false} NewestConcat(a: seq<Log>, b: seq<Log>, hits: Log -> nat)
    ensures Newest(a + b, hits) == Newest(b, hits) + Newest(a, hits)
  {
    hide Copies, Shown;
    if b == [] {
      assert a + b == a;
      assert Newest(b, hits) + Newest(a, hits) == Newest(a, hits);
    } else {
      var n := |b| - 1;
      assert (a + b)[..|a| + n] == a + b[..n] && (a + b)[|a| + n] == b[n];
      NewestConcat(a, b[..n], hits);
      Associative(Copies(Shown(b[n]), hits(b[n])), Newest(b[..n], hits), Newest(a, hits));
    }
  }

  lemma {:induction false} OldestConcat(a: seq<Log>, b: seq<Log>, key: string, start: int, end: int)
    ensures Oldest(a + b, key, start, end) == Oldest(a, key, start, end) + Oldest(b, key, start, end)
  {
    hide Shown;
    if b == [] {
      assert a + b == a;
    } else {
      var n := |b| - 1;
      assert (a + b)[..|a| + n] == a + b[..n];
      OldestConcat(a, b[..n], key, start, end);
    }
  }

  lemma {:induction false} AllConcat(bulks: seq<seq<Log>>, more: seq<seq<Log>>)
    ensures All(bulks + more) == All(bulks) + All(more)
  {
    if more == [] {
      assert bulks + more == bulks;
    } else {
      var n := |more| - 1;
      assert (bulks + more)[..|bulks| + n] == bulks + more[..n];
      AllConcat(bulks, more[..n]);
    }
  }

  /** A log appended to the newest bulk is appended to them all. */
  lemma AllAppend(bulks: seq<seq<Log>>, log: Log)
    requires bulks != []
    ensures var n := |bulks| - 1; All(bulks[n := bulks[n] + [log]]) == All(bulks) + [log]
  {
    var n := |bulks| - 1;
    assert bulks[n := bulks[n] + [log]][..n] == bulks[..n];
  }

  lemma AllNewBulk(bulks: seq<seq<Log>>)
    ensures All(bulks + [[]]) == All(bulks)
  {
    assert (bulks + [[]])[..|bulks|] == bulks;
  }

  lemma {:induction false} PrefixesGrow(bulks: seq<seq<Log>>, i: nat, j: nat)
    requires i < j < |bulks| && forall k | 0 <= k < |bulks| - 1 :: bulks[k] != []
    ensures |All(bulks[..i])| < |All(bulks[..j])|
    decreases j
  {
    assert bulks[..j][..j - 1] == bulks[..j - 1];
    if i < j - 1 { PrefixesGrow(bulks, i, j - 1); }
  }

  // ---- serials against lines ----

  /** The lines of the serials, last serial first. */
  function Backwards(logs: seq<Log>, serials: seq<int>): (r: seq<string>)
    requires Below(serials, |logs|)
    ensures |r| == |serials|
  {
    if serials == [] then []
    else
      var n := |serials| - 1;
      [Shown(logs[serials[n]])] + Backwards(logs, serials[..n])
  }

  function Forwards(logs: seq<Log>, serials: seq<int>): (r: seq<string>)
    requires Below(serials, |logs|)
    ensures |r| == |serials|
  {
    if serials == [] then []
    else
      var n := |serials| - 1;
      Forwards(logs, serials[..n]) + [Shown(logs[serials[n]])]
  }

  lemma {:induction false} BackwardsMore(logs: seq<Log>, more: seq<Log>, serials: seq<int>)
    requires Below(serials, |logs|)
    ensures Backwards(logs + more, serials) == Backwards(logs, serials)
  {
    hide Shown;
    if serials != [] { BackwardsMore(logs, more, serials[..|serials| - 1]); }
  }

  lemma {:induction false} ForwardsMore(logs: seq<Log>, more: seq<Log>, serials: seq<int>)
    requires Below(serials, |logs|)
    ensures Forwards(logs + more, serials) == Forwards(logs, serials)
  {
    hide Shown;
    if serials != [] { ForwardsMore(logs, more, serials[..|serials| - 1]); }
  }

  lemma {:induction false} BackwardsRepeat(logs: seq<Log>, serials: seq<int>, v: nat, times: nat)
    requires Below(serials, |logs|) && v < |logs|
    ensures Backwards(logs, serials + Repeat(v, times)) == Copies(Shown(logs[v]), times) + Backwards(logs, serials)
  {
    hide Shown;
    var all := serials + Repeat(v, times);
    if times == 0 {
      assert all == serials;
    } else {
      assert all[..|all| - 1] == serials + Repeat(v, times - 1);
      BackwardsRepeat(logs, serials, v, times - 1);
      assert Copies(Shown(logs[v]), times) == [Shown(logs[v])] + Copies(Shown(logs[v]), times - 1);
    }
  }

  /** One more log, hit so many times. */
  lemma BackwardsStep(logs: seq<Log>, serials: seq<int>, times: nat)
    requires logs != [] && Below(serials, |logs| - 1)
    ensures var n := |logs| - 1;
            Backwards(logs, serials + Repeat(n, times)) == Copies(Shown(logs[n]), times) + Backwards(logs[..n], serials)
  {
    hide Backwards, Shown;
    var n := |logs| - 1;
    BackwardsMore(logs[..n], [logs[n]], serials);
    assert logs[..n] + [logs[n]] == logs;
    BackwardsRepeat(logs, serials, n, times);
  }

  /** Going back through a key's serials shows the newest logs of the key first. */
  lemma {:induction false} KeyBackwards(logs: seq<Log>, key: string)
    ensures Below(KeySerials(logs, key), |logs|)
    ensures Backwards(logs, KeySerials(logs, key)) == Newest(logs, KeyHits(key))
  {
    hide Shown, Backwards;
    KeySerialsSorted(logs, key);
    if logs == [] {
      NoLines(logs);
    } else {
      var n := |logs| - 1;
      var times := if logs[n].key == key then 1 else 0;
      KeyBackwards(logs[..n], key);
      assert Repeat(n, times) == if logs[n].key == key then [n] else [];
      BackwardsStep(logs, KeySerials(logs[..n], key), times);
    }
  }

  lemma NoLines(logs: seq<Log>)
    ensures Backwards(logs, []) == [] && Forwards(logs, []) == []
  {
  }

  /** Going back through the hits of a multi-word search shows the newest hits first. */
  lemma {:induction false} JoinBackwards(logs: seq<Log>, words: seq<string>)
    requires words != []
    ensures Below(JoinSerials(logs, words), |logs|)
    ensures Backwards(logs, JoinSerials(logs, words)) == Newest(logs, WordHits(words))
  {
    hide Shown, Backwards, CommonOccurrences, Tokens;
    JoinSerialsCount(logs, words, 0);
    if logs == [] {
      NoLines(logs);
    } else {
      var n := |logs| - 1;
      JoinBackwards(logs[..n], words);
      BackwardsStep(logs, JoinSerials(logs[..n], words), CommonOccurrences(words, Tokens(logs[n].content)));
    }
  }

  lemma {:induction false} WindowForwards(logs: seq<Log>, key: string, start: int, end: int)
    ensures Below(WindowSerials(logs, key, start, end), |logs|)
    ensures Forwards(logs, WindowSerials(logs, key, start, end)) == Oldest(logs, key, start, end)
  {
    hide Shown;
    if logs != [] {
      var n := |logs| - 1;
      WindowForwards(logs[..n], key, start, end);
      var found := WindowSerials(logs[..n], key, start, end);
      ForwardsMore(logs[..n], [logs[n]], found);
      assert logs[..n] + [logs[n]] == logs;
      if Wanted(logs[n], key, start, end) {
        assert (found + [n])[..|found|] == found;
      } else {
        assert found + [] == found;
      }
    }
  }

  // ---- cutting ----

  lemma TakeMore<T>(s: seq<T>, t: seq<T>, n: nat)
    ensures Take(s, n) + Take(t, n - |Take(s, n)|) == Take(s + t, n)
  {
  }

  lemma TakeFull<T>(s: seq<T>, t: seq<T>, n: nat)
    requires |Take(s, n)| == n
    ensures Take(s + t, n) == Take(s, n)
  {
  }

  // ---- the global key index ----

  /** The bulks that hold the key, oldest first, each once. */
  function BulksWith(bulks: seq<seq<Log>>, key: string): (r: seq<int>)
    ensures forall k | 0 <= k < |r| :: 0 <= r[k] < |bulks|
    ensures forall i, j | 0 <= i < j < |r| :: r[i] < r[j]
  {
    if bulks == [] then []
    else
      var n := |bulks| - 1;
      BulksWith(bulks[..n], key) + (if KeySerials(bulks[n], key) != [] then [n] else [])
  }

  /** The lines of a key, newest first, from those bulks alone. */
  function NewestOf(bulks: seq<seq<Log>>, chosen: seq<int>, hits: Log -> nat): seq<string>
    requires forall k | 0 <= k < |chosen| :: 0 <= chosen[k] < |bulks|
  {
    if chosen == [] then []
    else
      var n := |chosen| - 1;
      Newest(bulks[chosen[n]], hits) + NewestOf(bulks, chosen[..n], hits)
  }

  lemma {:induction false} NewestOfMore(bulks: seq<seq<Log>>, more: seq<seq<Log>>, chosen: seq<int>, hits: Log -> nat)
    requires forall k | 0 <= k < |chosen| :: 0 <= chosen[k] < |bulks|
    ensures NewestOf(bulks + more, chosen, hits) == NewestOf(bulks, chosen, hits)
  {
    hide Newest;
    if chosen != [] { NewestOfMore(bulks, more, chosen[..|chosen| - 1], hits); }
  }

  /** Bulks without the key have nothing to show: the bulks with it give the scan of all logs. */
  lemma {:induction false} KeyBulksSuffice(bulks: seq<seq<Log>>, key: string)
    ensures NewestOf(bulks, BulksWith(bulks, key), KeyHits(key)) == Newest(All(bulks), KeyHits(key))
  {
    hide Newest, KeySerials, KeyHits, Backwards;
    if bulks == [] {
      NewestOfNone(KeyHits(key));
    } else {
      var n := |bulks| - 1;
      var front, chosen := bulks[..n], BulksWith(bulks[..n], key);
      KeyBulksSuffice(front, key);
      NewestOfMore(front, [bulks[n]], chosen, KeyHits(key));
      assert front + [bulks[n]] == bulks;
      NewestConcat(All(front), bulks[n], KeyHits(key));
      KeyBackwards(bulks[n], key);
      if KeySerials(bulks[n], key) != [] {
        assert (chosen + [n])[..|chosen|] == chosen;
      } else {
        NoLines(bulks[n]);
        assert chosen + [] == chosen;
      }
    }
  }

  lemma NewestOfNone(hits: Log -> nat)
    ensures Newest([], hits) == []
  {
  }

  function Indices(n: nat): (r: seq<int>)
    ensures |r| == n && forall k | 0 <= k < n :: r[k] == k
  {
    seq(n, k => k)
  }

  lemma {:induction false} AllBulksSuffice(bulks: seq<seq<Log>>, hits: Log -> nat)
    ensures NewestOf(bulks, Indices(|bulks|), hits) == Newest(All(bulks), hits)
  {
    hide Newest;
    if bulks == [] {
      NewestOfNone(hits);
    } else {
      var n := |bulks| - 1;
      var front := bulks[..n];
      AllBulksSuffice(front, hits);
      NewestOfMore(front, [bulks[n]], Indices(n), hits);
      assert front + [bulks[n]] == bulks;
      assert Indices(n + 1)[..n] == Indices(n);
      NewestConcat(All(front), bulks[n], hits);
    }
  }

  ghost predicate Chosen(bulks: seq<seq<Log>>, chosen: seq<int>) {
    forall k | 0 <= k < |chosen| :: 0 <= chosen[k] < |bulks|
  }

  lemma NewestOfLast(bulks: seq<seq<Log>>, chosen: seq<int>, hits: Log -> nat)
    requires Chosen(bulks, chosen)
    ensures chosen == [] ==> NewestOf(bulks, chosen, hits) == []
    ensures chosen != [] ==> var n := |chosen| - 1;
              NewestOf(bulks, chosen, hits) == Newest(bulks[chosen[n]], hits) + NewestOf(bulks, chosen[..n], hits)
  {
  }

  lemma {:induction false} NewestOfConcat(bulks: seq<seq<Log>>, a: seq<int>, b: seq<int>, hits: Log -> nat)
    requires Chosen(bulks, a) && Chosen(bulks, b) && Chosen(bulks, a + b)
    ensures NewestOf(bulks, a + b, hits) == NewestOf(bulks, b, hits) + NewestOf(bulks, a, hits)
  {
    hide Newest, NewestOf;
    NewestOfLast(bulks, b, hits);
    if b == [] {
      assert a + b == a;
    } else {
      var n := |b| - 1;
      assert (a + b)[..|a| + n] == a + b[..n] && (a + b)[|a| + n] == b[n];
      NewestOfLast(bulks, a + b, hits);
      NewestOfConcat(bulks, a, b[..n], hits);
      Associative(Newest(bulks[b[n]], hits), NewestOf(bulks, b[..n], hits), NewestOf(bulks, a, hits));
    }
  }

  /** The lines of the chosen bulks from the m-th on, newest first, up to a limit. */
  function Cut(bulks: seq<seq<Log>>, chosen: seq<int>, m: nat, hits: Log -> nat, limit: nat): seq<string>
    requires m <= |chosen| && forall k | 0 <= k < |chosen| :: 0 <= chosen[k] < |bulks|
  {
    Take(NewestOf(bulks, chosen[m..], hits), limit)
  }

  /** Going back one bulk: its lines follow, up to what is left of the limit. */
  lemma CutStep(bulks: seq<seq<Log>>, chosen: seq<int>, m: nat, hits: Log -> nat, limit: nat)
    requires m < |chosen| && Chosen(bulks, chosen)
    ensures |Cut(bulks, chosen, m + 1, hits, limit)| <= limit
    ensures Cut(bulks, chosen, m, hits, limit) ==
              Cut(bulks, chosen, m + 1, hits, limit)
              + Take(Newest(bulks[chosen[m]], hits), limit - |Cut(bulks, chosen, m + 1, hits, limit)|)
  {
    hide Newest;
    var one, later := [chosen[m]], chosen[m + 1..];
    assert chosen[m..] == one + later;
    NewestOfConcat(bulks, one, later, hits);
    assert one[..0] == [];
    assert NewestOf(bulks, one, hits) == Newest(bulks[chosen[m]], hits);
    TakeMore(NewestOf(bulks, later, hits), Newest(bulks[chosen[m]], hits), limit);
  }

  /** With the limit reached nothing more is shown. */
  lemma CutEnds(bulks: seq<seq<Log>>, chosen: seq<int>, m: nat, hits: Log -> nat, limit: nat)
    requires m <= |chosen| && Chosen(bulks, chosen)
    requires m == 0 || |Cut(bulks, chosen, m, hits, limit)| == limit
    ensures Cut(bulks, chosen, m, hits, limit) == Take(NewestOf(bulks, chosen, hits), limit)
    ensures Cut(bulks, chosen, |chosen|, hits, limit) == []
  {
    hide Newest;
    assert chosen == chosen[..m] + chosen[m..];
    NewestOfConcat(bulks, chosen[..m], chosen[m..], hits);
    if m > 0 { TakeFull(NewestOf(bulks, chosen[m..], hits), NewestOf(bulks, chosen[..m], hits), limit); }
  }

  lemma KeySerialsAppend(logs: seq<Log>, log: Log, x: string)
    ensures KeySerials(logs + [log], x) == KeySerials(logs, x) + (if log.key == x then [|logs|] else [])
  {
    assert (logs + [log])[..|logs|] == logs;
  }

  /** One more log in the newest bulk puts that bulk on the list of its key, if it is not there. */
  lemma BulksWithMore(bulks: seq<seq<Log>>, log: Log, x: string)
    requires bulks != []
    ensures var n := |bulks| - 1; var found := BulksWith(bulks, x);
            BulksWith(bulks[n := bulks[n] + [log]], x) ==
              if log.key != x || (found != [] && found[|found| - 1] == n) then found else found + [n]
  {
    hide KeySerials;
    var n := |bulks| - 1;
    var bulks' := bulks[n := bulks[n] + [log]];
    assert bulks'[..n] == bulks[..n];
    KeySerialsAppend(bulks[n], log, x);
    var front := BulksWith(bulks[..n], x);
    assert front != [] ==> front[|front| - 1] < n;
    if KeySerials(bulks[n], x) == [] { assert front + [] == front; }
  }

  lemma SomeKeyStartsMore(bulks: seq<seq<Log>>, log: Log, x: string)
    requires bulks != []
    ensures var n := |bulks| - 1;
            SomeKeyStarts(All(bulks[n := bulks[n] + [log]]), x) <==> SomeKeyStarts(All(bulks), x) || x <= log.key
  {
    hide SomeKeyStarts, All;
    AllAppend(bulks, log);
    SomeKeyStartsLast(All(bulks) + [log], x);
    assert (All(bulks) + [log])[..|All(bulks)|] == All(bulks);
  }

  lemma {:induction false} NoKeyNoBulk(bulks: seq<seq<Log>>, x: string)
    requires !SomeKeyStarts(All(bulks), x)
    ensures BulksWith(bulks, x) == []
  {
    if bulks != [] {
      var n := |bulks| - 1;
      var front := All(bulks[..n]);
      assert forall k | 0 <= k < |front| :: All(bulks)[k] == front[k];
      assert forall k | 0 <= k < |bulks[n]| :: All(bulks)[|front| + k] == bulks[n][k];
      NoKeyNoBulk(bulks[..n], x);
      NoKeyNoSerial(bulks[n], x);
    }
  }

  lemma BulksWithNew(bulks: seq<seq<Log>>, x: string)
    ensures BulksWith(bulks + [[]], x) == BulksWith(bulks, x)
  {
    assert (bulks + [[]])[..|bulks|] == bulks;
  }

  /** The global trie: for each key the bulks that hold it. */
  ghost predicate Indexed(root: Node<int>, bulks: seq<seq<Log>>) {
    forall x: string :: Lookup(root, x) == if SomeKeyStarts(All(bulks), x) then Some(BulksWith(bulks, x)) else None
  }

  /** Add_key_global_trie keeps the index: nothing to do if the newest bulk is on the key's list. */
  lemma IndexedListed(root: Node<int>, bulks: seq<seq<Log>>, log: Log)
    requires Indexed(root, bulks) && bulks != []
    requires var list := Lookup(root, log.key);
             list.Some? && list.value != [] && list.value[|list.value| - 1] == |bulks| - 1
    ensures Indexed(root, bulks[|bulks| - 1 := bulks[|bulks| - 1] + [log]])
  {
    hide Lookup, SomeKeyStarts, BulksWith, All;
    var bulks' := bulks[|bulks| - 1 := bulks[|bulks| - 1] + [log]];
    forall x: string ensures Lookup(root, x) == if SomeKeyStarts(All(bulks'), x) then Some(BulksWith(bulks', x)) else None {
      BulksWithMore(bulks, log, x);
      SomeKeyStartsMore(bulks, log, x);
      if x <= log.key { StartsToo(All(bulks), log.key, x); }
    }
  }

  lemma StartsToo(logs: seq<Log>, key: string, x: string)
    requires SomeKeyStarts(logs, key) && x <= key
    ensures SomeKeyStarts(logs, x)
  {
  }

  /** ... and otherwise the newest bulk goes behind the key's list, which is made if need be. */
  lemma IndexedInserted(root: Node<int>, bulks: seq<seq<Log>>, log: Log)
    requires Indexed(root, bulks) && bulks != []
    requires var list := Lookup(root, log.key);
             list.Some? && list.value != [] ==> list.value[|list.value| - 1] != |bulks| - 1
    ensures Indexed(InsertNode(false, root, log.key, |bulks| - 1).0, bulks[|bulks| - 1 := bulks[|bulks| - 1] + [log]])
  {
    hide Lookup, SomeKeyStarts, BulksWith, All, InsertNode, Fold;
    var n := |bulks| - 1;
    var bulks', root' := bulks[n := bulks[n] + [log]], InsertNode(false, root, log.key, n).0;
    FoldKeys(log.key);
    forall x: string
      ensures Lookup(root', x) == if SomeKeyStarts(All(bulks'), x) then Some(BulksWith(bulks', x)) else None
    {
      LookupInsert(false, root, log.key, n, x);
      BulksWithMore(bulks, log, x);
      SomeKeyStartsMore(bulks, log, x);
      if !SomeKeyStarts(All(bulks), x) { NoKeyNoBulk(bulks, x); }
    }
  }

  lemma IndexedNew(root: Node<int>, bulks: seq<seq<Log>>)
    requires Indexed(root, bulks)
    ensures Indexed(root, bulks + [[]])
  {
    hide Lookup, SomeKeyStarts, BulksWith, All;
    AllNewBulk(bulks);
    forall x: string { BulksWithNew(bulks, x); }
  }

  // ---- recent logs ----

  lemma {:induction false} EveryLogAt(logs: seq<Log>, m: nat)
    ensures |Newest(logs, EveryLog())| == |logs|
    ensures m < |logs| ==> Newest(logs, EveryLog())[m] == Shown(logs[|logs| - 1 - m])
  {
    hide Shown;
    if logs != [] { EveryLogAt(logs[..|logs| - 1], if m > 0 then m - 1 else 0); }
  }

  // ---- the logs of a key in their bulks ----

  /** A log of all the bulks, by its bulk and its place there. */
  lemma {:induction false} AllAt(bulks: seq<seq<Log>>, i: nat, p: nat) returns (k: nat)
    requires i < |bulks| && p < |bulks[i]|
    ensures k == |All(bulks[..i])| + p < |All(bulks)| && All(bulks)[k] == bulks[i][p]
  {
    var n := |bulks| - 1;
    if i < n {
      k := AllAt(bulks[..n], i, p);
      assert bulks[..n][..i] == bulks[..i];
    } else {
      k := |All(bulks[..n])| + p;
    }
  }

  lemma {:induction false} PrefixesInOrder(bulks: seq<seq<Log>>, i: nat, j: nat)
    requires i < j <= |bulks|
    ensures |All(bulks[..i])| + |bulks[i]| <= |All(bulks[..j])|
    decreases j
  {
    assert bulks[..j][..j - 1] == bulks[..j - 1];
    if i < j - 1 { PrefixesInOrder(bulks, i, j - 1); }
  }

  lemma KeyLogIn(logs: seq<Log>, key: string) returns (p: nat)
    requires KeySerials(logs, key) != []
    ensures p < |logs| && logs[p].key == key
  {
    hide KeySerials;
    KeySerialsSorted(logs, key);
    p := KeySerials(logs, key)[0];
  }

  lemma {:induction false} BulksWithHold(bulks: seq<seq<Log>>, key: string, k: nat)
    requires k < |BulksWith(bulks, key)|
    ensures KeySerials(bulks[BulksWith(bulks, key)[k]], key) != []
  {
    hide KeySerials;
    var n := |bulks| - 1;
    if k < |BulksWith(bulks[..n], key)| { BulksWithHold(bulks[..n], key, k); }
  }

  lemma {:induction false} KeyBulksIff(bulks: seq<seq<Log>>, key: string)
    ensures BulksWith(bulks, key) == [] <==> KeySerials(All(bulks), key) == []
  {
    hide KeySerials, BulksWith;
    KeySerialsSorted(All(bulks), key);
    if BulksWith(bulks, key) != [] {
      BulksWithHold(bulks, key, 0);
      var p := KeyLogIn(bulks[BulksWith(bulks, key)[0]], key);
      var at := AllAt(bulks, BulksWith(bulks, key)[0], p);
      KeySerialsHold(All(bulks), key, at);
    } else if KeySerials(All(bulks), key) != [] {
      NoBulkNoKey(bulks, key);
    }
  }

  lemma {:induction false} KeySerialsHold(logs: seq<Log>, key: string, k: nat)
    requires k < |logs| && logs[k].key == key
    ensures KeySerials(logs, key) != []
  {
    if k < |logs| - 1 { KeySerialsHold(logs[..|logs| - 1], key, k); }
  }

  lemma {:induction false} NoBulkNoKey(bulks: seq<seq<Log>>, key: string)
    requires BulksWith(bulks, key) == []
    ensures KeySerials(All(bulks), key) == []
  {
    hide KeySerials;
    NoSerials(key);
    if bulks != [] {
      var n := |bulks| - 1;
      NoBulkNoKey(bulks[..n], key);
      NoSerialsConcat(All(bulks[..n]), bulks[n], key);
    }
  }

  lemma NoSerials(key: string)
    ensures KeySerials([], key) == []
  {
  }

  lemma {:induction false} NoSerialsConcat(a: seq<Log>, b: seq<Log>, key: string)
    requires KeySerials(a, key) == [] && KeySerials(b, key) == []
    ensures KeySerials(a + b, key) == []
  {
    if b == [] {
      assert a + b == a;
    } else {
      var n := |b| - 1;
      assert (a + b)[..|a| + n] == a + b[..n] && (a + b)[|a| + n] == b[n];
      NoSerialsConcat(a, b[..n], key);
    }
  }

  /** A key that is asked for is some log's key, or no log's key starts with it. */
  ghost predicate KeyKnown(logs: seq<Log>, key: string) {
    SomeKeyStarts(logs, key) ==> KeySerials(logs, key) != []
  }

  // ---- the words of all bulks ----

  lemma {:induction false} WordInAll(bulks: seq<seq<Log>>, x: string)
    ensures WordIn(All(bulks), x) <==> exists i :: 0 <= i < |bulks| && WordIn(bulks[i], x)
  {
    hide WordIn;
    NoWordIn(x);
    if bulks != [] {
      var n := |bulks| - 1;
      WordInAll(bulks[..n], x);
      WordInConcat(All(bulks[..n]), bulks[n], x);
      if i :| 0 <= i < |bulks| && WordIn(bulks[i], x) { assert i < n ==> bulks[..n][i] == bulks[i]; }
      if i :| 0 <= i < n && WordIn(bulks[..n][i], x) { assert bulks[..n][i] == bulks[i]; }
    }
  }

  lemma NoWordIn(x: string)
    ensures !WordIn([], x)
  {
  }

  lemma WordInConcat(a: seq<Log>, b: seq<Log>, x: string)
    ensures WordIn(a + b, x) <==> WordIn(a, x) || WordIn(b, x)
  {
    hide Occurrences, Tokens;
    if k :| 0 <= k < |a| && Occurrences(Tokens(a[k].content), x) > 0 { assert (a + b)[k] == a[k]; }
    if k :| 0 <= k < |b| && Occurrences(Tokens(b[k].content), x) > 0 { assert (a + b)[|a| + k] == b[k]; }
    if k :| 0 <= k < |a + b| && Occurrences(Tokens((a + b)[k].content), x) > 0 {
      assert k < |a| ==> (a + b)[k] == a[k];
      assert k >= |a| ==> (a + b)[k] == b[k - |a|];
    }
  }
}
