/** The timers of the bulks on their wheels: when the worker's ticks save a bulk and evict it. */
module Deadlines {
  import opened Wrappers
  import opened Logs
  import opened TimerArith
  import TimerRun
  import opened TimerTheorems
  import opened TimerWheel
  import opened Bulk
  import opened Scan
  import opened Answers
  import opened Store
  import opened Runs
  import Request

  /** The store and the wheels share no object. */
  ghost predicate Separate(store: LogStore, wheels: TimerWheelSet, m: TimerBase)
    reads store, wheels
  {
    {store as object} + store.parts !! {wheels as object, m} + wheels.repr
  }

  /** What else may happen while the newest bulk is not appended to and its timer does not act. */
  ghost predicate Quiet(logs: seq<Log>, newest: nat, op: Op) {
    match op
    case Append(_) => false
    case Query(req) => Defined(logs, req)
    case AutoPersistTimer(i) => i != newest
    case _ => true
  }

  method PerformQuiet(store: LogStore, ops: seq<Op>)
    requires store.Valid()
    requires forall k | 0 <= k < |ops| :: Quiet(All(store.bulks), |store.bulks| - 1, ops[k])
    modifies store, store.parts
    ensures store.Valid() && fresh(store.parts - old(store.parts)) && store.bulks == old(store.bulks)
    ensures store.open == old(store.open) && store.stored == old(store.stored)
  {
    hide LogStore.Whole, All, Defined;
    for k := 0 to |ops|
      invariant store.Valid() && fresh(store.parts - old(store.parts)) && store.bulks == old(store.bulks)
      invariant store.open == old(store.open) && store.stored == old(store.stored)
    {
      Perform(store, ops[k]);
    }
  }

  /** A round of the worker: what else happens, a tick of the wheels, and the timer of the newest
      bulk if it acts. */
  method WorkerRound(store: LogStore, wheels: TimerWheelSet, m: TimerBase, ghost u: TimerUnit, ghost b: TimerRun.Birth,
                     others: seq<Op>)
    requires store.Valid() && Counting(wheels, m, u, b) && Separate(store, wheels, m)
    requires |store.bulks| > 0 && store.bulks[|store.bulks| - 1] != []
    requires forall k | 0 <= k < |others| :: Quiet(All(store.bulks), |store.bulks| - 1, others[k])
    modifies store, store.parts, wheels, wheels.repr
    ensures store.Valid() && fresh(store.parts - old(store.parts)) && store.bulks == old(store.bulks)
    ensures Counting(wheels, m, u, b) && wheels.repr == old(wheels.repr) && Separate(store, wheels, m)
    ensures wheels.Last().now == old(wheels.Last()).now + 1
    ensures if old(store.open) && b.due <= wheels.Last().now then !store.open && store.stored
            else store.open == old(store.open) && (old(store.stored) ==> store.stored)
  {
    hide LogStore.Whole, All, Defined, Quiet, TimerWheelSet.Valid, OnePerMember;
    PerformQuiet(store, others);
    var acted := TickAndLook(wheels, m, u, b);
    store.NewestFacts();
    var n := |store.handlers| - 1;
    if acted && store.handlers[n].autoPending {
      store.AutoPersist(store.handlers[n], n);
    }
  }

  /** Append_log with the timer it sets. */
  method AppendAndSet(store: LogStore, wheels: TimerWheelSet, m: TimerBase, req: Request.ReqData)
    returns (ghost u: TimerUnit, ghost b: TimerRun.Birth)
    requires ValidReq(req) && Storable(LogOf(req)) && Separate(store, wheels, m) && |store.bulks| > 0
    requires m !in wheels.members ==> m.timerUnit == null
    requires wheels.Valid() && OnePerMember(wheels.w) && store.Valid()
    modifies store, store.parts, wheels, wheels.repr, m
    ensures store.bulks == LogStore.Placed(old(store.bulks), old(store.open), LogOf(req)) && store.open
    ensures Separate(store, wheels, m) && fresh(store.parts - old(store.parts))
    ensures fresh(wheels.repr - old(wheels.repr) - {m}) && wheels.interval > 0 && b.c0 < N && b.c1 < N
    ensures Counting(wheels, m, u, b) && wheels.Last().now == b.tick
    ensures b.due == b.tick + FiringTick(wheels.interval, AUTOSAVE_TIME, b.c0, b.c1)
    ensures store.Valid()
  {
    hide LogStore.Whole, All, Storable, LogStore.Placed, TimerWheelSet.Valid, OnePerMember, FiringTick;
    var _ := store.AppendLog(req);
    u, b := SetAndCount(wheels, m, AUTOSAVE_TIME);
  }

  /** Then rounds of the worker, with whatever else happens but for appends: the newest bulk takes logs
      for 300 ticks after its last append, and from then on it is closed and on disk. */
  method AutoPersistAfter(store: LogStore, wheels: TimerWheelSet, m: TimerBase, req: Request.ReqData,
                          rounds: seq<seq<Op>>)
    requires ValidReq(req) && Storable(LogOf(req)) && Separate(store, wheels, m) && |store.bulks| > 0
    requires var bulks := LogStore.Placed(store.bulks, store.open, LogOf(req));
             forall k, i | 0 <= k < |rounds| && 0 <= i < |rounds[k]| :: Quiet(All(bulks), |bulks| - 1, rounds[k][i])
    requires m !in wheels.members ==> m.timerUnit == null
    requires wheels.interval == PERSISTENCE_SLEEP_TIME
    requires wheels.Valid() && OnePerMember(wheels.w) && store.Valid()
    modifies store, store.parts, wheels, wheels.repr, m
    ensures store.bulks == LogStore.Placed(old(store.bulks), old(store.open), LogOf(req))
    ensures store.open == (|rounds| < 300) && store.stored == (|rounds| >= 300)
    ensures store.Valid()
  {
    hide LogStore.Whole, All, Defined, Quiet, Storable, Fits, TimerWheelSet.Valid, OnePerMember, FiringTick;
    ghost var u, b := AppendAndSet(store, wheels, m, req);
    ServerTimersOnTheDot(b.c0, b.c1);
    ghost var bulks := store.bulks;
    for k := 0 to |rounds|
      invariant store.Valid() && fresh(store.parts - old(store.parts)) && store.bulks == bulks
      invariant Counting(wheels, m, u, b) && wheels.Last().now == b.tick + k
      invariant Separate(store, wheels, m) && fresh(wheels.repr - old(wheels.repr) - {m})
      invariant store.open == (k < 300) && (k >= 300 ==> store.stored)
    {
      WorkerRound(store, wheels, m, u, b, rounds[k]);
    }
    store.NewestFacts();
  }

  /** A tick of the wheels, and the release timer of a bulk if it acts. */
  method ReleaseRound(store: LogStore, wheels: TimerWheelSet, m: TimerBase, ghost u: TimerUnit, ghost b: TimerRun.Birth,
                      h: MemoryBulkHandler, ghost i: nat)
    requires i < |store.handlers| == |store.bulks| && h == store.handlers[i]
    requires Separate(store, wheels, m) && Counting(wheels, m, u, b) && store.Valid()
    modifies store.parts, wheels, wheels.repr
    ensures Counting(wheels, m, u, b) && wheels.repr == old(wheels.repr)
    ensures wheels.Last().now == old(wheels.Last()).now + 1
    ensures if old(h.releasePending) && b.due <= wheels.Last().now
            then h.state == Saved && h.data == null && !h.releasePending
            else h.state == old(h.state) && h.data == old(h.data) && h.releasePending == old(h.releasePending)
    ensures store.Valid()
  {
    hide LogStore.Bulks, LogStore.Slots, LogStore.Index, LogStore.Tail, TimerWheelSet.Valid, OnePerMember;
    var acted := TickAndLook(wheels, m, u, b);
    if acted && h.releasePending {
      store.ReleaseTimeout(h, i);
    }
  }

  /** Search_key in a bulk that is on disk, with the timer it sets: the text it has in memory stays
      there for 120 ticks after this last query, and is then released. */
  method ReleaseAfter(store: LogStore, wheels: TimerWheelSet, m: TimerBase, h: MemoryBulkHandler, ghost i: nat,
                      key: string, ticks: nat)
    returns (r: Option<seq<int>>)
    requires i < |store.handlers| == |store.bulks| && h == store.handlers[i] && h.OnDisk()
    requires m !in wheels.members ==> m.timerUnit == null
    requires wheels.interval == PERSISTENCE_SLEEP_TIME && OnePerMember(wheels.w) && Separate(store, wheels, m)
    requires wheels.Valid() && store.Valid()
    modifies store.parts, wheels, wheels.repr, m
    ensures r == if SomeKeyStarts(store.bulks[i], key) then Some(KeySerials(store.bulks[i], key)) else None
    ensures if ticks < 120 then h.state == old(h.state) && h.data == old(h.data) && h.releasePending
            else h.state == Saved && h.data == null && !h.releasePending
    ensures store.Valid()
  {
    hide LogStore.Bulks, LogStore.Slots, LogStore.Index, LogStore.Tail, SomeKeyStarts, KeySerials, TimerWheelSet.Valid,
         OnePerMember, FiringTick, Apart;
    r := store.SearchKeyIn(h, i, key);
    ghost var u, b := SetAndCount(wheels, m, RELEASE_TIME);
    ServerTimersOnTheDot(b.c0, b.c1);
    for k := 0 to ticks
      invariant Counting(wheels, m, u, b) && wheels.Last().now == b.tick + k
      invariant Separate(store, wheels, m) && fresh(wheels.repr - old(wheels.repr) - {m})
      invariant if k < 120 then h.state == old(h.state) && h.data == old(h.data) && h.releasePending
                else h.state == Saved && h.data == null && !h.releasePending
      invariant store.Valid()
    {
      ReleaseRound(store, wheels, m, u, b, h, i);
    }
  }
}
