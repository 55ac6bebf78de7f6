/** Runs of the store: whatever happens to it, a query is answered from the logs it has accepted. */
module Runs {
  import opened Logs
  import opened Records
  import opened Bulk
  import opened Scan
  import opened Results
  import opened Answers
  import opened Windows
  import opened Store
  import Request

  // ---- every run ----

  /** What can happen to the store: requests, passes of the worker, timers that act. */
  datatype Op =
    | Append(req: Request.ReqData)
    | Query(req: Request.ReqData)
    | Pass
    | AutoPersistTimer(bulk: nat)
    | ReleaseTimer(bulk: nat)

  /** The queries that keep to the program's own memory when these are all the logs. */
  ghost predicate Defined(logs: seq<Log>, req: Request.ReqData) {
    match req.kind
    case Getkey => true
    case LogCount => true
    case Recent => ValidReq(req)
    case Search => ValidReq(req) && |Tokens(req.keyword)| == 1 ==> !WordIn(logs, req.keyword)
    case SearchTime => ValidReq(req) ==> KeyKnown(logs, req.key)
    case _ => false
  }

  /** Every query does, but for three kinds: one for recent logs that is rejected, one of a single
      word that some log has, and one by time for no log's key that begins some log's. */
  lemma DefinedIs(logs: seq<Log>, req: Request.ReqData)
    ensures Defined(logs, req) <==>
              || req.kind == Request.Getkey || req.kind == Request.LogCount
              || (req.kind == Request.Recent && req.count > 0 && req.clientId > 0)
              || (req.kind == Request.Search && !(|req.keyword| > 0 && req.clientId > 0 && |Tokens(req.keyword)| == 1 &&
                    exists k :: 0 <= k < |logs| && HasWord(logs[k], req.keyword)))
              || (req.kind == Request.SearchTime && !(|req.key| > 0 && req.start > 0 && req.end > 0 && req.clientId > 0 &&
                    (exists k :: 0 <= k < |logs| && req.key <= logs[k].key) &&
                    forall k | 0 <= k < |logs| :: logs[k].key != req.key))
  {
    hide Tokens, Occurrences, HasWord, KeySerials;
    forall k | 0 <= k < |logs| { HasWordIff(logs[k], req.keyword); }
    KeySerialsSorted(logs, req.key);
    if k :| 0 <= k < |logs| && logs[k].key == req.key { KeySerialsHold(logs, req.key, k); }
    if KeySerials(logs, req.key) != [] { assert logs[KeySerials(logs, req.key)[0]].key == req.key; }
  }

  ghost predicate HasWord(log: Log, x: string) {
    exists i :: 0 <= i < |Tokens(log.content)| && LowerOf(x, Tokens(log.content)[i])
  }

  lemma HasWordIff(log: Log, x: string)
    ensures HasWord(log, x) <==> Occurrences(Tokens(log.content), x) > 0
  {
    hide Tokens, Occurrences, LowerOf;
    var tokens := Tokens(log.content);
    OccursIff(tokens, x);
    forall i | 0 <= i < |tokens| { FoldIsLower(tokens[i], x); }
  }

  /** ... and whose answer depends on the logs alone, not on how they are cut into bulks. */
  ghost predicate Determined(logs: seq<Log>, req: Request.ReqData) {
    && Defined(logs, req)
    && (req.kind == Request.SearchTime && ValidReq(req) ==>
          Settled(logs, req.key, Narrowed(req.start), Narrowed(req.end)))
  }

  ghost predicate Legal(logs: seq<Log>, op: Op) {
    match op
    case Append(req) => ValidReq(req) ==> Storable(LogOf(req))
    case Query(req) => Defined(logs, req)
    case _ => true
  }

  /** The logs accepted in a run, in order. */
  function Accepted(ops: seq<Op>): seq<Log> {
    if ops == [] then []
    else
      var op := ops[|ops| - 1];
      Accepted(ops[..|ops| - 1]) + if op.Append? && ValidReq(op.req) then [LogOf(op.req)] else []
  }

  /** The lines a query is answered with when these are all the logs. */
  function Expected(logs: seq<Log>, req: Request.ReqData): seq<string> {
    if !ValidReq(req) then [INVALID_ANSWER]
    else
      match req.kind
      case Getkey => Limited(Newest(logs, KeyHits(req.key)))
      case Search => Limited(HitLines(logs, Tokens(req.keyword)))
      case SearchTime => Answer(Oldest(logs, req.key, Narrowed(req.start), Narrowed(req.end)))
      case Recent => RecentLines(logs, Request.ToInt(req.count))
      case LogCount => [CountAnswer(|logs|)]
      case _ => []
  }

  // ---- how the logs are cut into bulks ----

  datatype Cut = Cut(bulks: seq<seq<Log>>, open: bool)

  /** Appends fill bulks and begin new ones, and the auto-persistence timer of the newest bulk closes
      it; nothing else has a say. */
  function Step(cut: Cut, op: Op): (r: Cut)
    requires cut.bulks != []
    ensures r.bulks != []
  {
    match op
    case Append(req) =>
      if ValidReq(req) then Cut(LogStore.Placed(cut.bulks, cut.open, LogOf(req)), true) else cut
    case AutoPersistTimer(i) =>
      if i == |cut.bulks| - 1 && cut.bulks[i] != [] then cut.(open := false) else cut
    case _ => cut
  }

  function CutOf(ops: seq<Op>): (r: Cut)
    ensures r.bulks != []
  {
    if ops == [] then Cut([[]], true) else Step(CutOf(ops[..|ops| - 1]), ops[|ops| - 1])
  }

  /** The bulks have exactly the logs accepted, in order. */
  lemma {:induction false} CutHasAccepted(ops: seq<Op>)
    ensures All(CutOf(ops).bulks) == Accepted(ops)
  {
    hide Fits;
    if ops == [] {
      var none: seq<seq<Log>> := [[]];
      assert none[..0] == [];
    } else {
      var front, op := ops[..|ops| - 1], ops[|ops| - 1];
      CutHasAccepted(front);
      if op.Append? && ValidReq(op.req) {
        var bulks, log := CutOf(front).bulks, LogOf(op.req);
        AllAppend(bulks, log);
        assert (bulks + [[log]])[..|bulks|] == bulks;
      }
    }
  }

  /** When no auto-persistence timer acts, a bulk is left only for a log that does not fit into its
      two megabytes. */
  ghost predicate OnlyFullLeft(bulks: seq<seq<Log>>) {
    forall i | 0 < i < |bulks| ::
      bulks[i] != [] && |TextOf(bulks[i - 1])| + |Render(bulks[i][0])| + 1 >= 2_097_152
  }

  lemma {:induction false} BulksFill(ops: seq<Op>)
    requires forall i | 0 <= i < |ops| :: !ops[i].AutoPersistTimer?
    ensures CutOf(ops).open && OnlyFullLeft(CutOf(ops).bulks)
  {
    hide TextOf, Render;
    if ops != [] {
      var n := |ops| - 1;
      BulksFill(ops[..n]);
      if ops[n].Append? && ValidReq(ops[n].req) { FillMore(CutOf(ops[..n]).bulks, LogOf(ops[n].req)); }
    }
  }

  lemma FillMore(bulks: seq<seq<Log>>, log: Log)
    requires bulks != [] && OnlyFullLeft(bulks)
    ensures OnlyFullLeft(LogStore.Placed(bulks, true, log))
  {
    hide TextOf, Render, Fits;
    var n := |bulks| - 1;
    FitsBytes(bulks[n], log);
    var more := LogStore.Placed(bulks, true, log);
    forall i | 0 < i < |more| ensures more[i] != [] && |TextOf(more[i - 1])| + |Render(more[i][0])| + 1 >= 2_097_152 {
      if i <= n { assert bulks[i] != [] && more[i][0] == bulks[i][0]; }
    }
  }

  /** Logs that fit into one bulk stay in one, unless a timer acts. */
  lemma {:induction false} OneBulk(ops: seq<Op>)
    requires forall i | 0 <= i < |ops| :: !ops[i].AutoPersistTimer?
    requires |TextOf(Accepted(ops))| + 1 < 2_097_152
    ensures CutOf(ops) == Cut([Accepted(ops)], true)
  {
    hide TextOf, Render, Fits;
    if ops != [] {
      var front, op := ops[..|ops| - 1], ops[|ops| - 1];
      TextGrows(Accepted(front), Accepted(ops));
      OneBulk(front);
      if op.Append? && ValidReq(op.req) {
        FitsBytes(Accepted(front), LogOf(op.req));
        OneMore(Accepted(front), LogOf(op.req));
      }
    }
  }

  lemma TextGrows(a: seq<Log>, b: seq<Log>)
    requires a == b || (|b| == |a| + 1 && b[..|a|] == a)
    ensures |TextOf(a)| <= |TextOf(b)|
  {
    hide Render;
  }

  lemma OneMore(a: seq<Log>, log: Log)
    ensures |TextOf(a + [log])| == |TextOf(a)| + |Render(log)|
    ensures LogStore.Appended([a], log) == [a + [log]]
  {
    hide Render;
    assert (a + [log])[..|a|] == a;
  }

  /** Then a search by time over a key whose logs are in turn is a scan, for every window. */
  lemma OneBulkSearched(ops: seq<Op>, key: string, start: int, end: int)
    requires forall i | 0 <= i < |ops| :: !ops[i].AutoPersistTimer?
    requires |TextOf(Accepted(ops))| + 1 < 2_097_152 && InTurn(Accepted(ops), key, start, end)
    ensures WindowShown(CutOf(ops).bulks, key, start, end) == Oldest(Accepted(ops), key, start, end)
  {
    hide CutOf, Accepted, WindowShown, Oldest, InTurn;
    OneBulk(ops);
    OneBulkShown(Accepted(ops), key, start, end);
  }

  /** The run without its queries, the passes of the worker and the release timers. */
  function WithoutEviction(ops: seq<Op>): seq<Op> {
    if ops == [] then []
    else
      var op := ops[|ops| - 1];
      WithoutEviction(ops[..|ops| - 1]) + if op.Append? || op.AutoPersistTimer? then [op] else []
  }

  /** What evicts bulks and what reloads them leaves no trace in any answer. */
  lemma {:induction false} EvictionUnseen(ops: seq<Op>, req: Request.ReqData)
    ensures Reply(CutOf(ops).bulks, req) == Reply(CutOf(WithoutEviction(ops)).bulks, req)
    ensures CutOf(ops) == CutOf(WithoutEviction(ops))
  {
    hide Step, Reply;
    if ops != [] {
      var n := |ops| - 1;
      EvictionUnseen(ops[..n], req);
      var front := WithoutEviction(ops[..n]);
      if ops[n].Append? || ops[n].AutoPersistTimer? {
        assert (front + [ops[n]])[..|front|] == front;
      } else {
        assert front + [] == front;
        StepOver(CutOf(ops[..n]), ops[n]);
      }
    }
  }

  lemma StepOver(cut: Cut, op: Op)
    requires cut.bulks != [] && !op.Append? && !op.AutoPersistTimer?
    ensures Step(cut, op) == cut
  {
  }

  /** The lines a query is answered with when these are the bulks. */
  ghost function Reply(bulks: seq<seq<Log>>, req: Request.ReqData): seq<string> {
    if ValidReq(req) && req.kind == Request.SearchTime
    then Answer(WindowShown(bulks, req.key, Narrowed(req.start), Narrowed(req.end)))
    else Expected(All(bulks), req)
  }

  lemma ReplyDetermined(bulks: seq<seq<Log>>, req: Request.ReqData)
    requires Determined(All(bulks), req)
    ensures Reply(bulks, req) == Expected(All(bulks), req)
  {
    hide Settled, WindowShown, All, Oldest;
    if ValidReq(req) && req.kind == Request.SearchTime {
      SettledShown(bulks, req.key, Narrowed(req.start), Narrowed(req.end));
    }
  }

  // ---- the store ----

  method Ask(store: LogStore, req: Request.ReqData) returns (chunks: seq<Chunk>)
    requires store.Valid() && Defined(All(store.bulks), req)
    modifies store.parts, store`parts
    ensures store.Valid() && store.handlers == old(store.handlers) && store.bulks == old(store.bulks)
    ensures fresh(store.parts - old(store.parts))
    ensures Carries(chunks, req.clientId, Reply(store.bulks, req))
  {
    hide Limited, HitLines, RecentLines, CountAnswer, Newest, KeyHits, All, Tokens, Carries, LogStore.Whole, Oldest,
         WordIn, KeyKnown, Settled, WindowShown, OfKey, OldestOf, NothingMissed, EachInTurn;
    var ok, ret;
    ghost var shown;
    match req.kind
    case Getkey => ret, chunks := store.GetkeyLog(req, 0);
    case Search => ok, ret, chunks := store.SearchLog(req, 0);
    case SearchTime => ok, ret, chunks, shown := store.SearchTimeLog(req, 0);
    case Recent => ok, chunks := store.GetRecentLog(req, 0);
    case LogCount => ret, chunks := store.LogCountLog(req, 0);
  }

  /** One step of a run cuts the logs as Step says. */
  method Perform(store: LogStore, op: Op)
    requires store.Valid() && Legal(All(store.bulks), op)
    modifies store, store.parts
    ensures store.Valid() && fresh(store.parts - old(store.parts))
    ensures |old(store.bulks)| > 0 && Cut(store.bulks, store.open) == Step(Cut(old(store.bulks), old(store.open)), op)
    ensures !op.Append? && op != AutoPersistTimer(|old(store.bulks)| - 1) ==> store.stored == old(store.stored)
  {
    hide LogStore.Bulks, LogStore.Slots, LogStore.Index, LogStore.Tail, All, Storable, Defined, Expected,
         LogStore.Placed;
    store.NewestFacts();
    match op
    case Append(req) => var _ := store.AppendLog(req);
    case Query(req) => var _ := Ask(store, req);
    case Pass => store.CheckBulkDataQueueFull();
    case AutoPersistTimer(i) =>
      if i < |store.handlers| && store.handlers[i].autoPending {
        store.AutoPersist(store.handlers[i], i);
      }
    case ReleaseTimer(i) =>
      if i < |store.handlers| && store.handlers[i].releasePending {
        store.ReleaseTimeout(store.handlers[i], i);
      }
  }

  /** Eviction cannot be seen: after any run of appends, queries, passes and timers every query is
      answered from the bulks into which the appends and the auto-persistence timers have cut the
      accepted logs, and where that does not matter as a scan of the accepted logs answers it. */
  method RunAndAsk(ops: seq<Op>, req: Request.ReqData) returns (chunks: seq<Chunk>)
    requires forall i | 0 <= i < |ops| :: Legal(Accepted(ops[..i]), ops[i])
    requires Defined(Accepted(ops), req)
    ensures Carries(chunks, req.clientId, Reply(CutOf(ops).bulks, req))
    ensures Determined(Accepted(ops), req) ==> Carries(chunks, req.clientId, Expected(Accepted(ops), req))
  {
    hide LogStore.Whole, All, Legal, Expected, Carries, Defined, Settled, Step, Reply, Accepted;
    var store := new LogStore();
    assert ops[..0] == [];
    for i := 0 to |ops|
      invariant fresh(store) && fresh(store.parts) && store.Valid() && Cut(store.bulks, store.open) == CutOf(ops[..i])
    {
      assert ops[..i + 1][..i] == ops[..i];
      CutHasAccepted(ops[..i]);
      Perform(store, ops[i]);
    }
    assert ops[..|ops|] == ops;
    CutHasAccepted(ops);
    chunks := Ask(store, req);
    if Determined(Accepted(ops), req) { ReplyDetermined(store.bulks, req); }
  }

  /** Two logs of a key in two bulks: the timer of the first has acted in between. */
  method TwoBulkStore() returns (store: LogStore)
    ensures fresh(store) && fresh(store.parts) && store.Valid()
    ensures store.bulks == [[Log("k", 5, "")], [Log("k", 10, "")]]
  {
    hide LogStore.Bulks, LogStore.Slots, LogStore.Index, LogStore.Tail, All, Storable, Render;
    var first := Request.NEW_REQ.(kind := Request.Append, key := "k", time := 5);
    var second := first.(time := 10);
    TwoStorable();
    store := new LogStore();
    store.EmptyNewestTakes(LogOf(first));
    LogStore.AppendedToNew([], LogOf(first));
    assert [] + [[]] == store.bulks;
    var ret := store.AppendLog(first);
    assert store.bulks == [[LogOf(first)]];
    store.AutoPersist(store.handlers[|store.handlers| - 1], |store.handlers| - 1);
    ret := store.AppendLog(second);
  }

  /** Logs in order and a window inside the second bulk: the answer is that there is no result,
      though there is one. */
  method WindowMissed() returns (chunks: seq<Chunk>)
    ensures Carries(chunks, 1, [NO_RESULT])
    ensures Oldest([Log("k", 5, ""), Log("k", 10, "")], "k", 7, 10) == [Shown(Log("k", 10, ""))]
  {
    hide LogStore.Whole, All, Carries, BulksWith, EndOf, KeySerials, Oldest, Reachable, Increasing, WindowShown,
         NothingMissed, Settled, OfKey, Shown, KeyKnown, Render;
    TwoInOrder();
    var store := TwoBulkStore();
    var query := Request.NEW_REQ.(kind := Request.SearchTime, key := "k", start := 7, end := 10, clientId := 1);
    var ok, ret;
    ghost var shown;
    ok, ret, chunks, shown := store.SearchTimeLog(query, 0);
  }

  lemma TwoStorable()
    ensures Storable(Log("k", 5, "")) && Storable(Log("k", 10, ""))
  {
  }

  lemma TwoInOrder()
    ensures var a, b := Log("k", 5, ""), Log("k", 10, ""); var bulks := [[a], [b]];
            && KeyKnown(All(bulks), "k") && WindowShown(bulks, "k", 7, 10) == []
            && Oldest([a, b], "k", 7, 10) == [Shown(b)]
  {
    hide Shown, BulksWith, All, EndOf, SomeKeyStarts, WindowShown, NothingMissed;
    var a, b := Log("k", 5, ""), Log("k", 10, "");
    TwoBulks(a, b);
    assert [a, b][..1] == [a];
    KeySerialsHold([a, b], "k", 0);
    ReachableIff([[a], [b]], "k", 7, 10);
  }
}
