/** The log store: the bulks in order, the ring whose slots they are lent, the global key index,
    and the operations of the data manager and of the persistence worker on them. */
module Store {
  import opened Wrappers
  import opened Text
  import opened Tries
  import opened Ring
  import opened Search
  import opened Logs
  import opened Records
  import opened Bulk
  import opened Scan
  import opened Results
  import opened Answers
  import opened Windows
  import Request

  const BULK_QUEUE_LEN := 64
  const PERSISTENCE_THRESHOLD := 48

  /** The ring of bulk storage: its slots are lent out in place. */
  class BulkDataQueue {
    const units: seq<BulkData>
    var writePosition: nat
    var readPosition: nat

    ghost predicate Valid()
      reads this
    {
      && |units| == BULK_QUEUE_LEN && Positions(BULK_QUEUE_LEN, writePosition, readPosition)
      && forall i, j | 0 <= i < j < |units| :: units[i] != units[j]
    }

    ghost function Contents(): (r: seq<BulkData>)
      requires Valid()
      reads this
      ensures forall k | 0 <= k < |r| :: r[k] in units
    {
      Queued(units, writePosition, readPosition)
    }

    constructor ()
      ensures Valid() && Contents() == [] && fresh(units)
    {
      var made: seq<BulkData> := [];
      for k := 0 to BULK_QUEUE_LEN
        invariant |made| == k && fresh(made) && forall i, j | 0 <= i < j < k :: made[i] != made[j]
      {
        var unit := new BulkData();
        made := made + [unit];
      }
      units := made;
      writePosition, readPosition := 0, 0;
    }

    method Size() returns (n: int)
      requires Valid()
      ensures n == |Contents()|
    {
      n := SizeOf(BULK_QUEUE_LEN, writePosition, readPosition);
    }

    /** Get_Unit: the next free slot, cleared; null when the ring is full. */
    method GetUnit() returns (unit: BulkData?)
      requires Valid()
      modifies this`writePosition, units[writePosition]
      ensures Valid() && (unit == null <==> |old(Contents())| == 63)
      ensures unit == null ==> writePosition == old(writePosition) && unchanged(units[writePosition])
      ensures unit != null ==>
                unit == units[old(writePosition)] && unit !in old(Contents()) && unit.Zeroed() && unit.handler == null
      ensures Contents() == if unit == null then old(Contents()) else old(Contents()) + [unit]
    {
      QueuedSize(units, writePosition, readPosition);
      if IsFull(BULK_QUEUE_LEN, writePosition, readPosition) {
        return null;
      }
      unit := units[writePosition];
      QueuedWrite(units, writePosition, readPosition, unit);
      assert units[writePosition := unit] == units;
      unit.Clear();
      writePosition := Advance(BULK_QUEUE_LEN, writePosition);
    }

    method FrontUnit() returns (unit: BulkData?)
      requires Valid()
      ensures unit == if Contents() == [] then null else Contents()[0]
    {
      if IsEmpty(writePosition, readPosition) {
        return null;
      }
      QueuedRead(units, writePosition, readPosition);
      return units[readPosition];
    }

    method ReleaseFrontUnit() returns (unit: BulkData?)
      requires Valid()
      modifies this`readPosition
      ensures Valid()
      ensures old(Contents()) == [] ==> unit == null && Contents() == []
      ensures old(Contents()) != [] ==> unit == old(Contents())[0] && Contents() == old(Contents())[1..]
    {
      if IsEmpty(writePosition, readPosition) {
        return null;
      }
      QueuedRead(units, writePosition, readPosition);
      unit := units[readPosition];
      readPosition := Advance(BULK_QUEUE_LEN, readPosition);
    }
  }

  // ---- the invariant of the store, piece by piece ----

  /** No two bulks share a part, and none has the global trie for a part. */
  ghost predicate Apart(handlers: seq<MemoryBulkHandler>, globalTrie: Trie<int>) {
    && (forall i, j | 0 <= i < j < |handlers| :: handlers[i].Repr() !! handlers[j].Repr())
    && forall i | 0 <= i < |handlers| :: globalTrie !in handlers[i].Repr()
  }

  /** A bulk in order: only one that takes logs may be empty. */
  ghost predicate Sound(h: MemoryBulkHandler, logs: seq<Log>)
    reads h.Repr(), h.data
  {
    h.Valid() && h.logs == logs && (logs == [] ==> h.state == Appending && !h.autoPending)
  }

  /** Which bulk a slot is lent to: a bulk not yet saved owns its slot and the slot knows it; one
      that is saved has at most a buffer of its own, and its old slot names nobody. */
  ghost predicate Lent(h: MemoryBulkHandler, slot: BulkData?, units: seq<BulkData>)
    reads h`state, h`data, slot
  {
    if h.OnDisk() then h.data !in units && (slot != null ==> slot.handler == null)
    else slot != null && h.data == slot
  }

  /** Slots are taken in the order of the bulks: the queued slots are those of the newest. */
  function SlotOf(queued: seq<BulkData>, bulks: nat, i: nat): (slot: BulkData?)
    requires |queued| <= bulks && i < bulks
    ensures slot == null || slot in queued
  {
    if i < bulks - |queued| then null else queued[i - (bulks - |queued|)]
  }

  ghost predicate Numbered(handlers: seq<MemoryBulkHandler>, bulks: seq<seq<Log>>) {
    && |handlers| == |bulks| && (forall i | 0 <= i < |handlers| :: handlers[i].startSerial == |All(bulks[..i])|)
    && forall i | 0 <= i < |bulks| - 1 :: bulks[i] != []
  }

  class LogStore {
    const queue: BulkDataQueue
    const globalTrie: Trie<int>
    var handlers: seq<MemoryBulkHandler>
    var logSerial: nat

    /** The logs of each bulk, as they were appended. */
    ghost var bulks: seq<seq<Log>>

    /** Whether the newest bulk takes logs, and whether it is on disk. */
    ghost var open: bool
    ghost var stored: bool

    /** Every object of the store, with the storage its bulks hold. */
    ghost var parts: set<object>

    ghost predicate Owned(objects: set<object>)
      reads this`handlers, objects
    {
      && this !in objects && queue in objects && globalTrie in objects && (forall u | u in queue.units :: u in objects)
      && |handlers| > 0 && Apart(handlers, globalTrie)
      && forall i | 0 <= i < |handlers| :: handlers[i] in objects && handlers[i].Footprint() <= objects
    }

    /** The bulks have these logs. */
    ghost predicate Bulks(objects: set<object>, contents: seq<seq<Log>>)
      requires Owned(objects) && |contents| == |handlers|
      reads this`handlers, objects
    {
      forall i | 0 <= i < |handlers| :: Sound(handlers[i], contents[i])
    }

    ghost predicate Slots(objects: set<object>)
      requires Owned(objects)
      reads this`handlers, objects
    {
      queue.Valid() && Leases(objects, queue.Contents())
    }

    /** These slots are lent, and no others. */
    ghost predicate Leases(objects: set<object>, queued: seq<BulkData>)
      requires Owned(objects)
      reads this`handlers, objects
    {
      && |queued| <= |handlers| && (forall u | u in queued :: u in objects)
      && forall i | 0 <= i < |handlers| :: Lent(handlers[i], SlotOf(queued, |handlers|, i), queue.units)
    }

    /** The global trie is the index of these bulks. */
    ghost predicate KeysOf(objects: set<object>, indexed: seq<seq<Log>>)
      requires Owned(objects)
      reads this`handlers, objects
    {
      && globalTrie.Intact() && globalTrie.root.Some? && globalTrie.valid && !globalTrie.readOnly && !globalTrie.lowercase
      && Indexed(globalTrie.root.value, indexed)
    }

    ghost predicate Index(objects: set<object>)
      requires Owned(objects)
      reads this`handlers, this`bulks, this`logSerial, objects
    {
      Numbered(handlers, bulks) && logSerial == handlers[|handlers| - 1].startSerial && KeysOf(objects, bulks)
    }

    /** The newest bulk is the one that may take logs; while it does, its auto-persistence timer is
        pending once it has a log. */
    ghost predicate Tail(objects: set<object>)
      requires Owned(objects) && |bulks| == |handlers|
      reads this`handlers, this`bulks, this`open, this`stored, objects
    {
      var n := |handlers| - 1;
      && (open <==> handlers[n].state == Appending) && (stored <==> handlers[n].OnDisk())
      && (open ==> (handlers[n].autoPending <==> bulks[n] != []))
    }

    /** The invariant, with these objects as the parts of the store. */
    ghost predicate Whole(objects: set<object>)
      reads this`handlers, this`bulks, this`open, this`stored, this`logSerial, objects
    {
      && |bulks| == |handlers| && Owned(objects) && Bulks(objects, bulks) && Slots(objects) && Index(objects)
      && Tail(objects)
    }

    ghost predicate Valid()
      reads this, parts
    {
      Whole(parts)
    }

    /** Init_data_manager: an empty store has one empty bulk. */
    constructor ()
      ensures Valid() && bulks == [[]] && open && All(bulks) == [] && fresh(parts)
    {
      hide Whole, Queued, Trie.Intact, MemoryBulkHandler.Valid, BulkData.Zeroed, All, BulkDataQueue.Valid,
           BulkDataQueue.Contents;
      queue := new BulkDataQueue();
      globalTrie := new Trie<int>(false);
      handlers, logSerial := [], 0;
      bulks, parts, open, stored := [], {}, true, false;
      new;
      BeginFirst();
    }

    method BeginFirst()
      requires queue.Valid() && queue.Contents() == [] && logSerial == 0 && open && !stored
      requires globalTrie.Intact() && globalTrie.root == Some(Node(ROOT, map[], [])) && globalTrie.valid
      requires !globalTrie.readOnly && !globalTrie.lowercase
      modifies this`handlers, this`bulks, this`parts, queue, queue.units
      ensures Valid() && bulks == [[]] && open && All(bulks) == []
      ensures fresh(parts - {queue, globalTrie} - (set u | u in queue.units))
    {
      hide Whole, Queued, Trie.Intact, MemoryBulkHandler.Valid, BulkData.Zeroed, All, BulkDataQueue.Valid,
           BulkDataQueue.Contents;
      var h := MakeFirst();
      handlers := [h];
      bulks := [[]];
      parts := {queue, globalTrie} + (set u | u in queue.units) + h.Repr();
      FirstIsValid(h);
    }

    /** The first bulk takes the first slot. */
    method MakeFirst() returns (h: MemoryBulkHandler)
      requires queue.Valid() && queue.Contents() == []
      modifies queue, queue.units
      ensures fresh(h.Repr()) && h.Valid() && h.logs == [] && h.state == Appending && !h.autoPending && h.startSerial == 0
      ensures queue.Valid() && h.data != null && queue.Contents() == [h.data] && h.data in queue.units
    {
      hide Queued, MemoryBulkHandler.Valid, BulkData.Zeroed;
      var unit := queue.GetUnit();
      h := new MemoryBulkHandler(0, unit);
    }

    lemma FirstIsValid(h: MemoryBulkHandler)
      requires handlers == [h] && bulks == [[]] && open && !stored && logSerial == 0
      requires this !in parts && globalTrie !in h.Repr()
      requires h.Valid() && h.logs == [] && h.state == Appending && !h.autoPending && h.startSerial == 0
      requires queue.Valid() && h.data != null && queue.Contents() == [h.data] && h.data in queue.units
      requires globalTrie.Intact() && globalTrie.root == Some(Node(ROOT, map[], [])) && globalTrie.valid
      requires !globalTrie.readOnly && !globalTrie.lowercase
      requires parts == {queue, globalTrie} + (set u | u in queue.units) + h.Repr()
      ensures Valid() && All(bulks) == []
    {
      hide Sound, Numbered, Indexed, Queued, Trie.Intact, MemoryBulkHandler.Valid, All;
      FirstBulk(h);
    }

    static lemma FirstBulk(h: MemoryBulkHandler)
      requires h.Valid() && h.logs == [] && h.state == Appending && !h.autoPending && h.startSerial == 0
      ensures Sound(h, []) && Numbered([h], [[]]) && All([[]]) == []
      ensures Indexed(Node(ROOT, map[], []), [[]])
    {
      hide MemoryBulkHandler.Valid;
      var none: seq<seq<Log>> := [[]];
      assert none[..0] == [];
      forall x: string
        ensures Lookup(Empty(), x) == if SomeKeyStarts(All(none), x) then Some(BulksWith(none, x)) else None
      {
        NoLogs(x);
      }
    }

    /** A bulk that only moved parts of its own in and out of memory leaves the store as it was. */
    twostate lemma StillWhole(i: nat, new h: MemoryBulkHandler, new objects: set<object>)
      requires handlers == old(handlers) && bulks == old(bulks) && logSerial == old(logSerial) && parts == old(parts)
      requires open == old(open) && stored == old(stored)
      requires i < |handlers| == |bulks| && h == handlers[i]
      requires unchanged(parts - h.Repr()) && objects == WithStorage(h)
      requires queue !in h.Footprint() && globalTrie !in h.Footprint()
      requires forall j | 0 <= j < |handlers| && j != i :: old(handlers[j].Footprint()) !! old(handlers[i].Footprint())
      requires h.logs == bulks[i] && h.OnDisk() == old(handlers[i].OnDisk())
      requires (!h.OnDisk() ==> h.state == old(handlers[i].state)) && h.autoPending == old(handlers[i].autoPending)
      requires h.data == old(handlers[i].data) || (h.OnDisk() && h.data != null && fresh(h.data))
      requires h.logs == [] ==> h.state == Appending && !h.autoPending
      requires old(Valid()) && h.Valid()
      ensures Whole(objects)
    {
      hide MemoryBulkHandler.Valid, Numbered, Indexed, Trie.Intact, SlotOf, Queued, Apart, Sound;
      SoundAgain(h, bulks[i]);
      assert Owned(objects);
      forall j | 0 <= j < |handlers| ensures Sound(handlers[j], bulks[j]) {
      }
      assert Slots(objects) && Index(objects);
    }

    method SearchKeyIn(h: MemoryBulkHandler, ghost i: nat, key: string) returns (r: Option<seq<int>>)
      requires i < |handlers| == |bulks| && h == handlers[i]
      requires Valid()
      modifies h`keyRead, h`releasePending, h.keyTrie
      ensures r == if SomeKeyStarts(bulks[i], key) then Some(KeySerials(bulks[i], key)) else None
      ensures h.releasePending == (old(h.releasePending) || h.OnDisk())
      ensures Valid()
    {
      hide MemoryBulkHandler.Valid, Numbered, Indexed, Trie.Intact, KeySerials, SomeKeyStarts, SlotOf, Queued, Apart,
           Sound;
      Alone(h, i);
      r := h.SearchKey(key);
      StillWhole(i, h, parts);
    }

    method SearchKeywordIn(h: MemoryBulkHandler, ghost i: nat, word: string) returns (r: Option<seq<int>>)
      requires i < |handlers| == |bulks| && h == handlers[i]
      requires Valid()
      modifies h`wordRead, h`releasePending, h.wordTrie
      ensures r == if SomeLogStarts(bulks[i], word) then Some(WordSerials(bulks[i], word)) else None
      ensures Valid()
    {
      hide MemoryBulkHandler.Valid, Numbered, Indexed, Trie.Intact, WordSerials, SomeLogStarts, SlotOf, Queued, Apart,
           Sound;
      Alone(h, i);
      r := h.SearchKeyword(word);
      StillWhole(i, h, parts);
    }

    method JoinSearchIn(h: MemoryBulkHandler, ghost i: nat, words: seq<string>) returns (r: seq<int>)
      requires i < |handlers| == |bulks| && h == handlers[i] && words != []
      requires Valid()
      modifies h`wordRead, h`releasePending, h.wordTrie
      ensures r == JoinSerials(bulks[i], words)
      ensures Valid()
    {
      hide MemoryBulkHandler.Valid, Numbered, Indexed, Trie.Intact, JoinSerials, SlotOf, Queued, Apart, Sound;
      Alone(h, i);
      r := h.JoinSearch(words);
      StillWhole(i, h, parts);
    }

    method SearchTimeKeyIn(h: MemoryBulkHandler, ghost i: nat, start: nat, end: nat, key: string)
      returns (r: Option<seq<int>>, first: int, last: int, endSearch: bool)
      requires i < |handlers| == |bulks| && h == handlers[i]
      requires Valid()
      modifies h`keyRead, h.keyTrie, h`timestampRead, h`timestampList, h`releasePending
      ensures r.Some? ==> 0 <= first <= last < |r.value| && r.value == KeySerials(bulks[i], key)
      ensures FoundSerials(bulks[i], key, start, end) == if r.Some? then r.value[first..last + 1] else []
      ensures endSearch == (start > h.endTime)
      ensures Valid()
    {
      hide MemoryBulkHandler.Valid, Numbered, Indexed, Trie.Intact, KeySerials, FoundSerials, SlotOf, Queued,
           Apart, Sound;
      Alone(h, i);
      r, first, last, endSearch := h.SearchTimeKey(start, end, key);
      StillWhole(i, h, parts);
    }

    method GetContentRefIn(h: MemoryBulkHandler, ghost i: nat, serial: nat, ghost log: Log) returns (line: string)
      requires i < |handlers| == |bulks| && h == handlers[i] && serial < |bulks[i]| && log == bulks[i][serial]
      requires Valid()
      modifies h`offsetRead, h`offsetList, h`state, h`data, h`releasePending, this`parts
      ensures line == Shown(log) && line != [] && |line| + 1 < LOGS_SIZE
      ensures fresh(parts - old(parts)) && Valid()
    {
      hide Bulks, Slots, Index, Tail, Shown;
      line := ReloadLine(h, i, serial, log);
      parts := WithStorage(h);
    }

    /** The parts when h may have got storage of its own. */
    ghost function WithStorage(h: MemoryBulkHandler): set<object>
      reads this`parts, h`data
    {
      parts + if h.data == null then {} else {h.data}
    }

    method ReloadLine(h: MemoryBulkHandler, ghost i: nat, serial: nat, ghost log: Log) returns (line: string)
      requires i < |handlers| == |bulks| && h == handlers[i] && serial < |bulks[i]| && log == bulks[i][serial]
      requires Valid()
      modifies h`offsetRead, h`offsetList, h`state, h`data, h`releasePending
      ensures line == Shown(log) && line != [] && |line| + 1 < LOGS_SIZE
      ensures (h.data == old(h.data) || fresh(h.data)) && Whole(WithStorage(h))
    {
      hide MemoryBulkHandler.Valid, Numbered, Indexed, Trie.Intact, SlotOf, Queued, Render, FirstLine, Storable,
           Apart, Sound;
      Alone(h, i);
      h.LogsStorable();
      ShownFits(log);
      line := h.GetContentRef(serial);
      StillWhole(i, h, WithStorage(h));
    }

    // ---- what a query sends ----

    /** The result handler of a query and its result are no part of the store. */
    ghost predicate Outside(out: QueryResultHandler)
      reads this`parts, out
    {
      out !in parts && out.result !in parts
    }

    /** One log: LogHandler, Get_content_ref, Append. */
    method Show(h: MemoryBulkHandler, ghost i: nat, serial: nat, ghost log: Log, out: QueryResultHandler)
      requires i < |handlers| == |bulks| && h == handlers[i] && serial < |bulks[i]| && log == bulks[i][serial]
      requires Valid() && out.Valid() && Outside(out)
      modifies h`offsetRead, h`offsetList, h`state, h`data, h`releasePending, this`parts
      modifies out`sent, out`result, out`count, out`lines, out.result
      ensures out.lines == old(out.lines) + [Shown(log)]
      ensures Valid() && out.Valid() && Outside(out)
      ensures (out.result == old(out.result) || fresh(out.result)) && fresh(parts - old(parts))
    {
      hide Whole, QueryResultHandler.Valid, Shown;
      var line := GetContentRefIn(h, i, serial, log);
      out.Append(line);
    }

    /** The lines of a list of serials from its end, while num is not negative. */
    method ShowBackwards(h: MemoryBulkHandler, ghost i: nat, ghost logs: seq<Log>, serials: seq<int>,
                         out: QueryResultHandler, num: nat)
      returns (left: int)
      requires i < |handlers| == |bulks| && h == handlers[i] && logs == bulks[i] && Below(serials, |logs|)
      requires Valid() && out.Valid() && Outside(out)
      modifies h`offsetRead, h`offsetList, h`state, h`data, h`releasePending, this`parts
      modifies out`sent, out`result, out`count, out`lines, out.result
      ensures out.lines == old(out.lines) + Take(Backwards(logs, serials), num + 1)
      ensures left == num - |Take(Backwards(logs, serials), num + 1)|
      ensures Valid() && out.Valid() && Outside(out)
      ensures (out.result == old(out.result) || fresh(out.result)) && fresh(parts - old(parts))
    {
      hide Valid, Outside, QueryResultHandler.Valid, Shown, Backwards;
      ghost var lines, all := out.lines, Backwards(logs, serials);
      left := num;
      var k := |serials|;
      while k > 0 && left >= 0
        invariant 0 <= k <= |serials| && left == num - (|serials| - k) && -1 <= left
        invariant Valid() && out.Valid() && Outside(out)
        invariant (out.result == old(out.result) || fresh(out.result)) && fresh(parts - old(parts))
        invariant out.lines == lines + all[..|serials| - k]
      {
        k := k - 1;
        BackwardsAt(logs, serials, |serials| - 1 - k);
        Show(h, i, serials[k], logs[serials[k]], out);
        left := left - 1;
      }
    }

    // ---- lookup by key ----

    /** The logs of the key in one bulk. */
    method ShowKey(h: MemoryBulkHandler, ghost i: nat, ghost logs: seq<Log>, key: string, out: QueryResultHandler, num: nat)
      returns (left: int)
      requires i < |handlers| == |bulks| && h == handlers[i] && logs == bulks[i]
      requires Valid() && out.Valid() && Outside(out)
      modifies h`keyRead, h.keyTrie, h`offsetRead, h`offsetList, h`state, h`data, h`releasePending, this`parts
      modifies out`sent, out`result, out`count, out`lines, out.result
      ensures out.lines == old(out.lines) + Take(Newest(logs, KeyHits(key)), num + 1)
      ensures left == num - |Take(Newest(logs, KeyHits(key)), num + 1)|
      ensures Valid() && out.Valid() && Outside(out)
      ensures (out.result == old(out.result) || fresh(out.result)) && fresh(parts - old(parts))
    {
      hide Bulks, Slots, Index, Tail, QueryResultHandler.Valid, Backwards, Newest, KeyHits, KeySerials, SomeKeyStarts;
      left := num;
      KeyBackwards(logs, key);
      var list := SearchKeyIn(h, i, key);
      if list != None {
        left := ShowBackwards(h, i, logs, list.value, out, num);
      } else {
        NoKeyNoSerial(logs, key);
        NoLines(logs);
      }
    }

    /** Getkey_log: the logs with the key, newest first, as a scan of all logs finds them. */
    method GetkeyLog(req: Request.ReqData, elapsed: nat) returns (ret: int, chunks: seq<Chunk>)
      requires Valid()
      modifies parts, this`parts
      ensures Valid() && handlers == old(handlers) && bulks == old(bulks) && fresh(parts - old(parts))
      ensures ret == if req.kind == Request.Getkey && |req.key| > 0 && req.clientId > 0 then 1 else -1
      ensures Carries(chunks, req.clientId,
                      if ret == 1 then Limited(Newest(All(bulks), KeyHits(req.key))) else [INVALID_ANSWER])
    {
      hide Whole, QueryResultHandler.Valid, Newest, KeyHits, All, BulksWith, NewestOf, Carries, Statistics,
           SomeKeyStarts;
      var out := new QueryResultHandler(req.clientId);
      if !ValidReq(req) || req.kind != Request.Getkey {
        out.Append(INVALID_ANSWER);
        assert out.lines == [INVALID_ANSWER];
        chunks := out.Finish(elapsed);
        return -1, chunks;
      }
      var num := MAX_NUM_RESULT;
      var list := FindKey(req.key);
      if list != None {
        num := ShowKeyBulks(list.value, req.key, out);
      } else {
        NothingToShow(All(bulks), req.key);
      }
      if num == 0 {
        out.Append(NO_RESULT);
      }
      assert out.lines == Limited(Newest(All(bulks), KeyHits(req.key)));
      chunks := out.Finish(elapsed);
      ret := 1;
    }

    /** Find_key_in_global_trie. */
    method FindKey(key: string) returns (list: Option<seq<int>>)
      requires Valid()
      ensures list == if SomeKeyStarts(All(bulks), key) then Some(BulksWith(bulks, key)) else None
    {
      hide Bulks, Slots, Numbered, Trie.Intact, SomeKeyStarts, BulksWith, All;
      list := globalTrie.Search(key);
    }

    static lemma NothingToShow(logs: seq<Log>, key: string)
      requires !SomeKeyStarts(logs, key)
      ensures Newest(logs, KeyHits(key)) == []
    {
      hide KeySerials, Newest, KeyHits, SomeKeyStarts;
      NoKeyNoSerial(logs, key);
      KeyBackwards(logs, key);
      NoLines(logs);
    }

    /** The loop of Getkey_log over the bulks of the key, newest first. */
    method ShowKeyBulks(list: seq<int>, key: string, out: QueryResultHandler) returns (num: int)
      requires Valid() && out.Valid() && Outside(out) && list == BulksWith(bulks, key)
      modifies parts, this`parts, out`sent, out`result, out`count, out`lines, out.result
      ensures handlers == old(handlers) && bulks == old(bulks)
      ensures out.lines == old(out.lines) + Take(Newest(All(bulks), KeyHits(key)), MAX_NUM_RESULT + 1)
      ensures num == MAX_NUM_RESULT - |Take(Newest(All(bulks), KeyHits(key)), MAX_NUM_RESULT + 1)|
      ensures Valid() && out.Valid() && Outside(out)
      ensures (out.result == old(out.result) || fresh(out.result)) && fresh(parts - old(parts))
    {
      hide Bulks, Slots, Index, Tail, QueryResultHandler.Valid, Newest, KeyHits, All, BulksWith, Cut, NewestOf, Take;
      ghost var lines, hits := out.lines, KeyHits(key);
      KeyBulksSuffice(bulks, key);
      CutEnds(bulks, list, 0, hits, MAX_NUM_RESULT + 1);
      num := MAX_NUM_RESULT;
      var m := |list|;
      while m > 0 && num >= 0
        invariant 0 <= m <= |list| && -1 <= num == MAX_NUM_RESULT - |Cut(bulks, list, m, hits, MAX_NUM_RESULT + 1)|
        invariant handlers == old(handlers) && bulks == old(bulks)
        invariant out.lines == lines + Cut(bulks, list, m, hits, MAX_NUM_RESULT + 1)
        invariant Valid() && out.Valid() && Outside(out)
        invariant (out.result == old(out.result) || fresh(out.result)) && fresh(parts - old(parts))
      {
        m := m - 1;
        CutStep(bulks, list, m, hits, MAX_NUM_RESULT + 1);
        num := ShowKey(handlers[list[m]], list[m], bulks[list[m]], key, out, num);
      }
      CutEnds(bulks, list, m, hits, MAX_NUM_RESULT + 1);
    }

    // ---- the persistence worker ----

    /** The auto-persistence timer of a bulk acts. */
    method AutoPersist(h: MemoryBulkHandler, ghost i: nat)
      requires i < |handlers| == |bulks| && h == handlers[i] && h.autoPending
      requires Valid()
      modifies h.Footprint(), this`open, this`stored
      ensures h.state == Saved && !h.autoPending && Valid()
      ensures handlers == old(handlers) && bulks == old(bulks)
      ensures open == (old(open) && i != |handlers| - 1) && stored == (old(stored) || i == |handlers| - 1)
    {
      hide Whole, Bulks, Slots, Index, Apart;
      assert |bulks| == |handlers| && Owned(parts) && Tail(parts) by { TailOf(); }
      TimerPersists(h, i);
      SetTail(open && i != |handlers| - 1, stored || i == |handlers| - 1);
    }

    lemma TailOf()
      requires Valid()
      ensures |bulks| == |handlers| && Owned(parts) && Tail(parts)
    {
      hide Bulks, Slots, Index, Apart;
    }

    ghost method SetTail(takesLogs: bool, onDisk: bool)
      requires |bulks| == |handlers| && Owned(parts) && Bulks(parts, bulks) && Slots(parts) && Index(parts)
      requires var n := |handlers| - 1;
               && (takesLogs <==> handlers[n].state == Appending) && (onDisk <==> handlers[n].OnDisk())
               && (takesLogs ==> (handlers[n].autoPending <==> bulks[n] != []))
      modifies this`open, this`stored
      ensures Valid() && open == takesLogs && stored == onDisk
    {
      hide Bulks, Slots, Index, Apart;
      open, stored := takesLogs, onDisk;
    }

    method TimerPersists(h: MemoryBulkHandler, ghost i: nat)
      requires i < |handlers| == |bulks| && h == handlers[i] && h.autoPending
      requires Valid()
      modifies h.Footprint()
      ensures Owned(parts) && Bulks(parts, bulks) && Slots(parts) && Index(parts) && h.state == Saved && !h.autoPending
      ensures var n := |handlers| - 1;
              i != n ==>
                handlers[n].state == old(handlers[n].state) && handlers[n].autoPending == old(handlers[n].autoPending)
    {
      hide MemoryBulkHandler.Valid, Numbered, Indexed, Trie.Intact, SlotOf, Queued, Apart, Sound;
      Alone(h, i);
      h.AutoPersistenceAct();
      SoundAgain(h, bulks[i]);
      assert Owned(parts);
      assert Bulks(parts, bulks) && Slots(parts) && Index(parts);
    }

    /** What one bulk shares with the rest of the store: nothing. */
    lemma Alone(h: MemoryBulkHandler, i: nat)
      requires Valid() && i < |handlers| == |bulks| && h == handlers[i]
      ensures h.Valid() && h.logs == bulks[i] && (h.logs == [] ==> h.state == Appending && !h.autoPending)
      ensures queue !in h.Footprint() && globalTrie !in h.Footprint() && this !in h.Footprint()
      ensures forall j | 0 <= j < |handlers| && j != i :: handlers[j].Footprint() !! h.Footprint()
    {
      hide MemoryBulkHandler.Valid, Numbered, Indexed, Trie.Intact, SlotOf, Queued, Slots, Index;
      forall j | 0 <= j < |handlers| ensures handlers[j].data != null ==> handlers[j].data.handler == handlers[j] {
        handlers[j].OwnsData();
      }
    }

    static lemma SoundAgain(h: MemoryBulkHandler, logs: seq<Log>)
      requires h.Valid() && h.logs == logs && (logs == [] ==> h.state == Appending && !h.autoPending)
      ensures Sound(h, logs)
    {
      hide MemoryBulkHandler.Valid;
    }

    /** The release timer of a bulk acts: what it frees is a buffer of the bulk's own, never a slot. */
    method ReleaseTimeout(h: MemoryBulkHandler, ghost i: nat)
      requires i < |handlers| == |bulks| && h == handlers[i] && h.releasePending
      requires Valid()
      modifies h.Repr()
      ensures h.state == Saved && h.data == null && !h.releasePending && Valid()
      ensures unchanged(queue) && (old(h.data) != null ==> old(h.data) !in queue.units)
    {
      hide MemoryBulkHandler.Valid, Numbered, Indexed, Trie.Intact, SlotOf, Queued, Apart, Sound;
      Alone(h, i);
      h.ReleasableIsOnDisk();
      h.TimeoutAct();
      SoundAgain(h, bulks[i]);
      assert Owned(parts);
      assert Bulks(parts, bulks) && Slots(parts) && Index(parts) && Tail(parts);
    }

    /** Persistence of a bulk whose slot is at the head of the ring. */
    method PersistIn(h: MemoryBulkHandler, ghost i: nat)
      requires i < |handlers| - 1 && |handlers| == |bulks| && h == handlers[i] && bulks[i] != []
      requires Valid()
      modifies h.Footprint()
      ensures h.state == Saved && h.data == null && Valid()
      ensures unchanged(queue) && forall j | 0 <= j < |handlers| && j != i :: handlers[j].state == old(handlers[j].state)
    {
      hide MemoryBulkHandler.Valid, Numbered, Indexed, Trie.Intact, SlotOf, Queued, Apart, Sound;
      Alone(h, i);
      var _ := h.Persistence();
      SoundAgain(h, bulks[i]);
      assert Owned(parts);
      assert Bulks(parts, bulks) && Slots(parts) && Index(parts) && Tail(parts);
    }

    /** The slot at the head of the ring and its bulk. */
    lemma HeadOfRing(slot: BulkData, base: nat)
      requires Valid() && queue.Contents() != [] && slot == queue.Contents()[0] && base == |handlers| - |queue.Contents()|
      ensures base < |handlers| && slot in queue.units
      ensures if handlers[base].OnDisk() then slot.handler == null && handlers[base].data !in queue.units
              else slot.handler == handlers[base] && handlers[base].data == slot
      ensures base + 1 < |handlers| ==> bulks[base] != []
    {
      hide MemoryBulkHandler.Valid, Indexed, Trie.Intact, Queued;
      assert SlotOf(queue.Contents(), |handlers|, base) == slot;
      handlers[base].OwnsData();
    }

    /** One round of the pass: the bulk of the head slot is persisted, the slot given back. */
    method PersistFront()
      requires Valid() && |queue.Contents()| > 1
      modifies parts
      ensures Valid() && handlers == old(handlers) && bulks == old(bulks)
      ensures queue.Contents() == old(queue.Contents())[1..]
      ensures handlers[|handlers| - 1].state == old(handlers[|handlers| - 1].state)
    {
      hide Bulks, Index, Lent, Queued, SlotOf;
      ghost var base := |handlers| - |queue.Contents()|;
      var data := queue.FrontUnit();
      HeadOfRing(data, base);
      var h := data.handler;
      if h != null {
        PersistIn(h, base);
      }
      ReleaseFront(base);
    }

    /** The head slot is given back once its bulk does not need it. */
    method ReleaseFront(ghost base: nat)
      requires Valid() && queue.Contents() != [] && base == |handlers| - |queue.Contents()| && handlers[base].OnDisk()
      modifies queue`readPosition
      ensures Valid() && queue.Contents() == old(queue.Contents())[1..]
    {
      hide MemoryBulkHandler.Valid, Indexed, Trie.Intact, Queued, Sound, Apart, Numbered;
      HeadOfRing(queue.Contents()[0], base);
      var _ := queue.ReleaseFrontUnit();
      assert Owned(parts);
      assert Bulks(parts, bulks) && Slots(parts) && Index(parts) && Tail(parts);
    }

    /** Check_bulk_data_queue_full: with the ring filling up, all but the newest bulks of the
        threshold are persisted and their slots given back; the newest bulk is left alone. */
    method CheckBulkDataQueueFull()
      requires Valid()
      modifies parts
      ensures Valid() && handlers == old(handlers) && bulks == old(bulks)
      ensures queue.Contents() ==
                if |old(queue.Contents())| >= 48 then old(queue.Contents())[47..] else old(queue.Contents())
      ensures handlers[|handlers| - 1].state == old(handlers[|handlers| - 1].state)
    {
      hide Bulks, Lent, Index, Tail, Queued, SlotOf;
      var size := queue.Size();
      if size >= PERSISTENCE_THRESHOLD {
        for i := 0 to PERSISTENCE_THRESHOLD - 1
          invariant Valid() && handlers == old(handlers) && bulks == old(bulks)
          invariant queue.Contents() == old(queue.Contents())[i..]
          invariant handlers[|handlers| - 1].state == old(handlers[|handlers| - 1].state)
        {
          PersistFront();
        }
      }
    }

    // ---- appending ----

    static function Appended(bulks: seq<seq<Log>>, log: Log): seq<seq<Log>>
      requires bulks != []
    {
      bulks[|bulks| - 1 := bulks[|bulks| - 1] + [log]]
    }

    /** Where a log goes: into the newest bulk if that takes logs and has room, else into a new one. */
    static function Placed(bulks: seq<seq<Log>>, open: bool, log: Log): seq<seq<Log>>
      requires bulks != []
    {
      if open && Fits(bulks[|bulks| - 1], log) then Appended(bulks, log) else bulks + [[log]]
    }

    /** Append to the newest bulk; the global trie is not told yet. */
    method AppendToNewest(log: Log) returns (ret: int)
      requires Valid() && Storable(log)
      modifies this`bulks, this`open, parts
      ensures handlers == old(handlers) && |old(bulks)| > 0
      ensures ret == -1 ==> Valid() && bulks == old(bulks) && bulks[|bulks| - 1] != []
      ensures old(bulks)[|old(bulks)| - 1] == [] ==> ret != -1
      ensures ret == -1 <==> !old(handlers[|handlers| - 1].HasRoom(log))
      ensures ret != -1 ==> handlers[|handlers| - 1].state == Appending && handlers[|handlers| - 1].autoPending
      ensures (ret != -1 ==> bulks == Appended(old(bulks), log)) && open == (ret != -1)
      ensures Owned(parts) && |bulks| == |handlers| && Bulks(parts, bulks) && Slots(parts) && KeysOf(parts, old(bulks))
      ensures Numbered(handlers, bulks) && logSerial == handlers[|handlers| - 1].startSerial && Tail(parts)
    {
      hide Numbered, Slots, KeysOf, Bulks, Apart, Storable;
      ret := AppendRecordIn(handlers[|handlers| - 1], |handlers| - 1, log);
      open := ret != -1;
      if ret != -1 {
        NumberedMore(handlers, bulks, log);
        bulks := Appended(bulks, log);
      }
    }

    method AppendRecordIn(h: MemoryBulkHandler, ghost i: nat, log: Log) returns (ret: int)
      requires Valid() && Storable(log) && i == |handlers| - 1 && h == handlers[i] && |bulks| == |handlers|
      modifies h.Footprint()
      ensures ret == -1 ==> bulks[i] != []
      ensures bulks[i] == [] ==> ret != -1
      ensures (ret == -1 <==> !old(h.HasRoom(log))) && (ret != -1 ==> h.state == Appending && h.autoPending)
      ensures h.OnDisk() == old(h.OnDisk()) && (ret == -1 ==> h.state != Appending)
      ensures Owned(parts) && Slots(parts) && Index(parts)
      ensures Bulks(parts, if ret == -1 then bulks else Appended(bulks, log))
    {
      hide MemoryBulkHandler.Valid, Indexed, Numbered, Trie.Intact, SlotOf, Queued, Apart, Sound, Storable, Render,
           Slots, Index, Tail;
      Alone(h, i);
      ret := h.AppendRecord(log);
      StillShared(i, h);
      ghost var contents := if ret == -1 then bulks else Appended(bulks, log);
      SoundAgain(h, contents[i]);
      assert Bulks(parts, contents);
    }

    /** A bulk that keeps its storage leaves the rest of the store as it was. */
    twostate lemma StillShared(i: nat, new h: MemoryBulkHandler)
      requires handlers == old(handlers) && bulks == old(bulks) && logSerial == old(logSerial) && parts == old(parts)
      requires i < |handlers| == |bulks| && h == handlers[i]
      requires unchanged(parts - h.Footprint())
      requires queue !in h.Footprint() && globalTrie !in h.Footprint()
      requires forall j | 0 <= j < |handlers| && j != i :: old(handlers[j].Footprint()) !! old(handlers[i].Footprint())
      requires h.data == old(handlers[i].data) && h.OnDisk() == old(handlers[i].OnDisk())
      requires h.data != null ==> h.data.handler == old(handlers[i].data.handler)
      requires old(Valid())
      ensures Owned(parts) && Slots(parts) && Index(parts)
      ensures forall j | 0 <= j < |handlers| && j != i :: Sound(handlers[j], bulks[j])
    {
      hide MemoryBulkHandler.Valid, Indexed, Numbered, Trie.Intact, SlotOf, Queued, Apart, Sound;
      assert Owned(parts);
      assert Slots(parts) && Index(parts);
    }

    static lemma NumberedMore(handlers: seq<MemoryBulkHandler>, bulks: seq<seq<Log>>, log: Log)
      requires Numbered(handlers, bulks) && bulks != []
      ensures Numbered(handlers, bulks[|bulks| - 1 := bulks[|bulks| - 1] + [log]])
    {
      hide All;
      var bulks' := bulks[|bulks| - 1 := bulks[|bulks| - 1] + [log]];
      assert forall i | 0 <= i < |bulks| :: bulks'[..i] == bulks[..i];
    }

    /** Add_key_global_trie. */
    method AddKeyGlobalTrie(log: Log, ghost before: seq<seq<Log>>)
      requires Owned(parts) && KeysOf(parts, before) && |before| == |handlers|
      modifies globalTrie`root, globalTrie`size
      ensures Owned(parts) && KeysOf(parts, Appended(before, log))
    {
      hide Indexed, InsertNode, Apart, Lookup;
      var bulk := |handlers| - 1;
      var list := globalTrie.Search(log.key);
      if list == None {
        IndexedInserted(globalTrie.root.value, before, log);
        globalTrie.Insert(log.key, bulk);
      } else if |list.value| > 0 && list.value[|list.value| - 1] == bulk {
        IndexedListed(globalTrie.root.value, before, log);
      } else {
        IndexedInserted(globalTrie.root.value, before, log);
        FoundNode(globalTrie.root.value, log.key);
        globalTrie.PushBack(log.key, bulk);
      }
    }

    /** With its key in the global trie, the new log is part of the store. */
    method AddKey(log: Log, ghost before: seq<seq<Log>>)
      requires Owned(parts) && |bulks| == |handlers| == |before| && Bulks(parts, bulks) && Slots(parts)
      requires Numbered(handlers, bulks) && logSerial == handlers[|handlers| - 1].startSerial
      requires KeysOf(parts, before) && bulks == Appended(before, log) && Tail(parts)
      modifies globalTrie`root, globalTrie`size
      ensures Valid()
    {
      hide Sound, Numbered, KeysOf, Queued, SlotOf, Lent;
      AddKeyGlobalTrie(log, before);
      assert Bulks(parts, bulks);
      assert Slots(parts);
    }

    static lemma FoundNode(root: Node<int>, word: string)
      requires Lookup(root, word).Some?
      ensures SearchNode(root, word).Some?
    {
    }

    /** The newest slot of the ring is lent to no bulk yet. */
    ghost predicate LastLease(unit: BulkData)
      requires Owned(parts) && queue.Valid()
      reads this, parts
    {
      var queued := queue.Contents();
      && |queued| > 0 && queued[|queued| - 1] == unit && unit !in queued[..|queued| - 1]
      && Leases(parts, queued[..|queued| - 1])
    }

    /** A unit has been taken from the ring for a bulk still to come. */
    ghost predicate Granted(unit: BulkData)
      reads this, parts, unit
    {
      && |bulks| == |handlers| && Owned(parts) && Bulks(parts, bulks) && Index(parts)
      && unit in queue.units && unit.Zeroed() && unit.handler == null
      && queue.Valid() && LastLease(unit)
    }

    /** No bulk points at a slot that is not lent. */
    lemma FreeSlotUnused(slot: BulkData, queued: seq<BulkData>)
      requires Owned(parts) && Leases(parts, queued) && slot in queue.units && slot !in queued
      ensures forall j | 0 <= j < |handlers| :: handlers[j].data != slot
    {
      hide Apart;
    }

    method TryUnit() returns (unit: BulkData?)
      requires Valid()
      modifies queue, queue.units
      ensures unit == null <==> |old(queue.Contents())| == BULK_QUEUE_LEN - 1
      ensures if unit == null then Valid() && queue.Contents() == old(queue.Contents()) else Granted(unit)
    {
      hide Bulks, Leases, Index, Tail, Apart, Queued, BulkData.Zeroed;
      ghost var free := queue.units[queue.writePosition];
      ghost var queued := queue.Contents();
      if free !in queued { FreeSlotUnused(free, queued); }
      unit := queue.GetUnit();
      SlotTaken(free, queued);
      assert unit != null ==> queue.Contents()[..|queue.Contents()| - 1] == queued;
    }

    /** Taking a free slot from the ring, or none, leaves the rest of the store as it was. */
    twostate lemma SlotTaken(new free: BulkData, new queued: seq<BulkData>)
      requires handlers == old(handlers) && bulks == old(bulks) && logSerial == old(logSerial) && parts == old(parts)
      requires open == old(open) && stored == old(stored)
      requires |bulks| == |handlers| && old(queue.Valid()) && queued == old(queue.Contents())
      requires unchanged(parts - {queue, free}) && free in queue.units
      requires unchanged(parts - {queue}) ||
               (free !in queued && forall j | 0 <= j < |handlers| :: handlers[j].data != free)
      requires old(Valid())
      ensures Owned(parts) && Bulks(parts, bulks) && Index(parts) && Leases(parts, queued) && Tail(parts)
    {
      hide Sound, Apart, Numbered, Indexed, Queued, SlotOf, Trie.Intact, BulkData.Zeroed;
      assert Owned(parts);
    }

    /** New_BulkData_init: a unit of the ring for a new bulk. While the ring is full the writer
        spins until the worker has made a pass. */
    method NewBulkDataInit() returns (data: BulkData)
      requires Valid()
      modifies parts
      ensures handlers == old(handlers) && bulks == old(bulks) && logSerial == old(logSerial)
      ensures Granted(data)
    {
      hide Bulks, Index, Tail, Leases, Queued, BulkData.Zeroed, LastLease;
      var unit := TryUnit();
      while unit == null
        invariant handlers == old(handlers) && bulks == old(bulks)
        invariant if unit == null then Valid() && |queue.Contents()| == BULK_QUEUE_LEN - 1 else Granted(unit)
        decreases if unit == null then 1 else 0
      {
        CheckBulkDataQueueFull();
        unit := TryUnit();
      }
      data := unit;
    }

    /** New_memory_bulk: the next bulk starts where the newest ends. */
    method NewMemoryBulk()
      requires Valid() && bulks[|bulks| - 1] != []
      modifies this, parts
      ensures Valid() && bulks == old(bulks) + [[]] && open && |handlers| == |old(handlers)| + 1
      ensures fresh(parts - old(parts))
    {
      hide Bulks, Slots, Index, Tail;
      ghost var n := |handlers| - 1;
      Alone(handlers[n], n);
      handlers[n].SizeIsLogs();
      StartsBehind();
      var h := MakeBulk(logSerial + handlers[|handlers| - 1].size);
      Enlist(h);
    }

    lemma StartsBehind()
      requires Valid()
      ensures logSerial + |bulks[|bulks| - 1]| == |All(bulks)| && logSerial == handlers[|handlers| - 1].startSerial
    {
      hide Bulks, Slots, KeysOf;
      var n := |bulks| - 1;
      assert handlers[n].startSerial == |All(bulks[..n])|;
    }

    /** A bulk with a slot of its own, not yet in the list. */
    ghost predicate Unlisted(h: MemoryBulkHandler)
      reads this, parts, h.Repr(), h.data
    {
      && |bulks| == |handlers| && Owned(parts) && Bulks(parts, bulks) && Index(parts) && queue.Valid()
      && h.Repr() !! parts && Sound(h, []) && h.data != null && h.data in queue.units && LastLease(h.data)
    }

    /** The bulk and its handler are made. */
    method MakeBulk(startSerial: nat) returns (h: MemoryBulkHandler)
      requires Valid()
      modifies parts
      ensures handlers == old(handlers) && bulks == old(bulks) && logSerial == old(logSerial)
      ensures fresh(h.Repr()) && h.startSerial == startSerial && Unlisted(h)
    {
      hide Bulks, Index, Tail, Leases, Queued, BulkData.Zeroed, LastLease;
      var data := NewBulkDataInit();
      h := MakeHandler(startSerial, data);
    }

    method MakeHandler(startSerial: nat, data: BulkData) returns (h: MemoryBulkHandler)
      requires Granted(data)
      modifies data
      ensures fresh(h.Repr()) && h.startSerial == startSerial && Unlisted(h)
    {
      hide Sound, Apart, Numbered, Indexed, Queued, SlotOf, Trie.Intact, BulkData.Zeroed, MemoryBulkHandler.Valid;
      FreeSlotUnused(data, queue.Contents()[..|queue.Contents()| - 1]);
      h := new MemoryBulkHandler(startSerial, data);
      SoundAgain(h, []);
      assert Owned(parts);
      assert Bulks(parts, bulks);
      assert Index(parts) && LastLease(data);
    }

    /** The new bulk goes to the end of the list. */
    method Enlist(h: MemoryBulkHandler)
      requires Unlisted(h) && this !in h.Repr() && h.startSerial == |All(bulks)| && bulks[|bulks| - 1] != []
      modifies this`handlers, this`bulks, this`open, this`stored, this`logSerial, this`parts
      ensures handlers == old(handlers) + [h] && bulks == old(bulks) + [[]] && logSerial == h.startSerial
      ensures parts == old(parts) + h.Repr() && open && Valid()
    {
      hide Sound, Numbered, Indexed, Queued, Trie.Intact, MemoryBulkHandler.Valid, Apart, SlotOf, Lent, Tail;
      FreshIsAppending(h);
      NumberedNew(handlers, bulks, h);
      IndexedNew(globalTrie.root.value, bulks);
      ApartNew(h);
      SlotsNew(h);
      SoundNew(h);
      handlers := handlers + [h];
      logSerial := h.startSerial;
      bulks := bulks + [[]];
      parts := parts + h.Repr();
      assert Owned(parts);
      assert Bulks(parts, bulks);
      assert Slots(parts) && Index(parts);
      SetTail(true, false);
    }

    lemma ApartNew(h: MemoryBulkHandler)
      requires Unlisted(h)
      ensures Apart(handlers + [h], globalTrie) && h.Footprint() <= parts + h.Repr()
    {
      hide Sound, Numbered, Indexed, Queued, Trie.Intact, SlotOf, LastLease, Index;
      forall i | 0 <= i < |handlers| ensures handlers[i].Repr() !! h.Repr() {
        assert handlers[i].Footprint() <= parts;
      }
    }

    lemma SoundNew(h: MemoryBulkHandler)
      requires Unlisted(h)
      ensures forall i | 0 <= i <= |handlers| :: Sound((handlers + [h])[i], (bulks + [[]])[i])
      ensures forall i | 0 <= i < |handlers| :: this !in handlers[i].Footprint()
    {
      hide Sound, Apart, Numbered, Indexed, Queued, Trie.Intact, Index, LastLease;
    }

    lemma SlotsNew(h: MemoryBulkHandler)
      requires Unlisted(h)
      ensures |queue.Contents()| <= |handlers| + 1
      ensures forall i | 0 <= i <= |handlers| ::
                Lent((handlers + [h])[i], SlotOf(queue.Contents(), |handlers| + 1, i), queue.units)
    {
      hide Apart, Numbered, Indexed, Queued, Trie.Intact, Bulks, Index;
      var queued := queue.Contents();
      var front := queued[..|queued| - 1];
      FreshIsAppending(h);
      forall i | 0 <= i < |handlers| ensures SlotOf(queued, |handlers| + 1, i) == SlotOf(front, |handlers|, i) {
      }
    }

    static lemma FreshIsAppending(h: MemoryBulkHandler)
      requires Sound(h, [])
      ensures h.state == Appending && !h.autoPending
    {
    }

    static lemma NumberedNew(handlers: seq<MemoryBulkHandler>, bulks: seq<seq<Log>>, h: MemoryBulkHandler)
      requires Numbered(handlers, bulks) && bulks != [] && bulks[|bulks| - 1] != [] && h.startSerial == |All(bulks)|
      ensures Numbered(handlers + [h], bulks + [[]])
    {
      hide All;
      var bulks' := bulks + [[]];
      assert forall i | 0 <= i <= |bulks| :: bulks'[..i] == bulks[..i];
      assert bulks[..|bulks|] == bulks;
    }

    /** The record and its local index go into the newest bulk, or else into a new one. */
    method Place(log: Log) returns (ghost before: seq<seq<Log>>)
      requires Valid() && Storable(log)
      modifies this, parts
      ensures fresh(parts - old(parts)) && globalTrie in parts
      ensures Owned(parts) && |bulks| == |handlers| == |before| && Bulks(parts, bulks) && Slots(parts)
      ensures Numbered(handlers, bulks) && logSerial == handlers[|handlers| - 1].startSerial
      ensures KeysOf(parts, before) && bulks == Appended(before, log) && All(before) == All(old(bulks))
      ensures Tail(parts) && open
      ensures |old(handlers)| > 0
      ensures before == if old(handlers[|handlers| - 1].HasRoom(log)) then old(bulks) else old(bulks) + [[]]
      ensures handlers[|handlers| - 1].state == Appending && handlers[|handlers| - 1].autoPending
    {
      hide Bulks, Slots, Index, Tail, Numbered, KeysOf, Storable, Apart, All, MemoryBulkHandler.HasRoom;
      before := bulks;
      var offset := AppendToNewest(log);
      if offset == -1 {
        before := PlaceInNew(log);
      }
    }

    /** ... a new bulk has room for any log. */
    method PlaceInNew(log: Log) returns (ghost before: seq<seq<Log>>)
      requires Valid() && Storable(log) && bulks[|bulks| - 1] != []
      modifies this, parts
      ensures fresh(parts - old(parts)) && globalTrie in parts
      ensures Owned(parts) && |bulks| == |handlers| == |before| && Bulks(parts, bulks) && Slots(parts)
      ensures Numbered(handlers, bulks) && logSerial == handlers[|handlers| - 1].startSerial
      ensures KeysOf(parts, before) && bulks == Appended(before, log) && All(before) == All(old(bulks))
      ensures Tail(parts) && open && before == old(bulks) + [[]]
      ensures handlers[|handlers| - 1].state == Appending && handlers[|handlers| - 1].autoPending
    {
      hide Bulks, Slots, Index, Tail, Numbered, KeysOf, Storable, Apart, All, MemoryBulkHandler.HasRoom;
      AllNewBulk(bulks);
      NewMemoryBulk();
      before := bulks;
      var _ := AppendToNewest(log);
    }

    /** Append_log: a valid request's log becomes the newest of all logs. It goes into the newest
        bulk if that has room and into a new one otherwise, whose auto-persistence timer is set. */
    method AppendLog(req: Request.ReqData) returns (ret: int)
      requires Valid() && (ValidReq(req) ==> Storable(LogOf(req)))
      modifies this, parts
      ensures Valid() && fresh(parts - old(parts))
      ensures ret == if ValidReq(req) then 1 else -1
      ensures req.kind == Request.Append ==> (ret == 1 <==> |req.key| > 0 && req.time > 0)
      ensures All(bulks) == All(old(bulks)) + if ret == 1 then [LogOf(req)] else []
      ensures |old(bulks)| > 0 && |handlers| == |bulks|
      ensures ret == 1 ==> bulks == Placed(old(bulks), old(open), LogOf(req)) && open
      ensures ret != 1 ==> bulks == old(bulks) && open == old(open)
      ensures ret == 1 ==> handlers[|handlers| - 1].state == Appending && handlers[|handlers| - 1].autoPending
    {
      hide Bulks, Slots, Index, Tail, Numbered, KeysOf, Storable, Apart, All;
      if !ValidReq(req) {
        return -1;
      }
      RoomInNewest(LogOf(req));
      ghost var before := Place(LogOf(req));
      AllAppend(before, LogOf(req));
      AppendedToNew(old(bulks), LogOf(req));
      AddKey(LogOf(req), before);
      ret := 1;
    }

    static lemma AppendedToNew(bulks: seq<seq<Log>>, log: Log)
      ensures Appended(bulks + [[]], log) == bulks + [[log]]
    {
      var none: seq<Log> := [];
      assert none + [log] == [log] && (bulks + [none])[|bulks|] == none;
    }

    /** The auto-persistence timer is pending for the newest bulk exactly while it takes logs and has
        one. */
    lemma NewestFacts()
      requires Valid()
      ensures |bulks| == |handlers| > 0
      ensures open ==> !stored && (handlers[|handlers| - 1].autoPending <==> bulks[|bulks| - 1] != [])
      ensures handlers[|handlers| - 1].Footprint() <= parts && this !in parts
    {
      hide Bulks, Slots, Index, Apart;
    }

    lemma RoomInNewest(log: Log)
      requires Valid()
      ensures |bulks| > 0 && |handlers| > 0
      ensures handlers[|handlers| - 1].HasRoom(log) <==> open && Fits(bulks[|bulks| - 1], log)
    {
      hide Slots, Index, MemoryBulkHandler.Valid, MemoryBulkHandler.HasRoom, Fits;
      Alone(handlers[|handlers| - 1], |handlers| - 1);
      handlers[|handlers| - 1].RoomIs(log);
    }

    /** An empty bulk has room for any log. */
    lemma EmptyNewestTakes(log: Log)
      requires Valid() && Storable(log) && bulks[|bulks| - 1] == []
      ensures |handlers| > 0 && handlers[|handlers| - 1].HasRoom(log)
    {
      hide Slots, Index, Storable, MemoryBulkHandler.Valid, MemoryBulkHandler.HasRoom;
      Alone(handlers[|handlers| - 1], |handlers| - 1);
      handlers[|handlers| - 1].EmptyTakes(log);
    }

    // ---- search for several words ----

    /** The hits of a search for several words in one bulk. */
    method ShowHits(h: MemoryBulkHandler, ghost i: nat, ghost logs: seq<Log>, words: seq<string>,
                    out: QueryResultHandler, num: nat)
      returns (left: int)
      requires i < |handlers| == |bulks| && h == handlers[i] && logs == bulks[i] && words != []
      requires Valid() && out.Valid() && Outside(out)
      modifies h`wordRead, h.wordTrie, h`offsetRead, h`offsetList, h`state, h`data, h`releasePending, this`parts
      modifies out`sent, out`result, out`count, out`lines, out.result
      ensures out.lines == old(out.lines) + Take(Newest(logs, WordHits(words)), num + 1)
      ensures left == num - |Take(Newest(logs, WordHits(words)), num + 1)|
      ensures Valid() && out.Valid() && Outside(out)
      ensures (out.result == old(out.result) || fresh(out.result)) && fresh(parts - old(parts))
    {
      hide Bulks, Slots, Index, Tail, QueryResultHandler.Valid, Backwards, Newest, WordHits, JoinSerials;
      left := num;
      JoinBackwards(logs, words);
      var result := JoinSearchIn(h, i, words);
      if |result| != 0 {
        left := ShowBackwards(h, i, logs, result, out, num);
      } else {
        NoLines(logs);
      }
    }

    /** The loop of Search_log for several words over the bulks, newest first. */
    method ShowHitBulks(words: seq<string>, out: QueryResultHandler) returns (num: int)
      requires Valid() && out.Valid() && Outside(out) && words != []
      modifies parts, this`parts, out`sent, out`result, out`count, out`lines, out.result
      ensures handlers == old(handlers) && bulks == old(bulks)
      ensures out.lines == old(out.lines) + Take(Newest(All(bulks), WordHits(words)), MAX_NUM_RESULT + 1)
      ensures num == MAX_NUM_RESULT - |Take(Newest(All(bulks), WordHits(words)), MAX_NUM_RESULT + 1)|
      ensures Valid() && out.Valid() && Outside(out)
      ensures (out.result == old(out.result) || fresh(out.result)) && fresh(parts - old(parts))
    {
      hide Bulks, Slots, Index, Tail, QueryResultHandler.Valid, Newest, WordHits, All, Cut, NewestOf, Take;
      ghost var lines, hits, list := out.lines, WordHits(words), Indices(|bulks|);
      AllBulksSuffice(bulks, hits);
      CutEnds(bulks, list, 0, hits, MAX_NUM_RESULT + 1);
      num := MAX_NUM_RESULT;
      var m := |handlers|;
      while m > 0 && num >= 0
        invariant 0 <= m <= |handlers| == |bulks|
        invariant -1 <= num == MAX_NUM_RESULT - |Cut(bulks, list, m, hits, MAX_NUM_RESULT + 1)|
        invariant handlers == old(handlers) && bulks == old(bulks)
        invariant out.lines == lines + Cut(bulks, list, m, hits, MAX_NUM_RESULT + 1)
        invariant Valid() && out.Valid() && Outside(out)
        invariant (out.result == old(out.result) || fresh(out.result)) && fresh(parts - old(parts))
      {
        m := m - 1;
        CutStep(bulks, list, m, hits, MAX_NUM_RESULT + 1);
        num := ShowHits(handlers[m], m, bulks[m], words, out, num);
      }
      CutEnds(bulks, list, m, hits, MAX_NUM_RESULT + 1);
    }

    /** The loop of Search_log for one word. Its inner loop moves the pointer to the list instead of
        the iterator, so at the first bulk with a hit it shows that hit and goes on reading behind
        the list: false. */
    method ShowWordBulks(word: string, out: QueryResultHandler) returns (ok: bool)
      requires Valid() && out.Valid() && Outside(out)
      modifies parts, this`parts, out`sent, out`result, out`count, out`lines, out.result
      ensures handlers == old(handlers) && bulks == old(bulks)
      ensures ok <==> !WordIn(All(bulks), word)
      ensures ok ==> out.lines == old(out.lines)
      ensures Valid() && out.Valid() && Outside(out)
      ensures (out.result == old(out.result) || fresh(out.result)) && fresh(parts - old(parts))
    {
      hide Bulks, Slots, Index, Tail, QueryResultHandler.Valid, All, WordIn, WordSerials, SomeLogStarts, Shown;
      WordInAll(bulks, word);
      var m := |handlers|;
      while m > 0
        invariant 0 <= m <= |handlers| == |bulks| && handlers == old(handlers) && bulks == old(bulks)
        invariant forall i | m <= i < |bulks| :: !WordIn(bulks[i], word)
        invariant out.lines == old(out.lines)
        invariant Valid() && out.Valid() && Outside(out)
        invariant (out.result == old(out.result) || fresh(out.result)) && fresh(parts - old(parts))
      {
        m := m - 1;
        ghost var logs := bulks[m];
        WordInIff(logs, word);
        WordSerialsSorted(logs, word);
        var list := SearchKeywordIn(handlers[m], m, word);
        if list != None && list.value != [] {
          var serial := list.value[|list.value| - 1];
          Show(handlers[m], m, serial, logs[serial], out);
          return false;
        }
        if list == None { NoLogNoSerial(logs, word); }
      }
      ok := true;
    }

    /** Search_log: for several words the logs with all the words, newest first. A query of one word
        is answered only if no log has it, and false is returned otherwise. */
    method SearchLog(req: Request.ReqData, elapsed: nat) returns (ok: bool, ret: int, chunks: seq<Chunk>)
      requires Valid()
      modifies parts, this`parts
      ensures Valid() && handlers == old(handlers) && bulks == old(bulks) && fresh(parts - old(parts))
      ensures !(req.kind == Request.Search && |req.keyword| > 0 && req.clientId > 0) ==>
                ok && ret == -1 && Carries(chunks, req.clientId, [INVALID_ANSWER])
      ensures req.kind == Request.Search && |req.keyword| > 0 && req.clientId > 0 ==>
                ok == !(|Tokens(req.keyword)| == 1 && WordIn(All(bulks), req.keyword))
      ensures req.kind == Request.Search && |req.keyword| > 0 && req.clientId > 0 && ok ==>
                var lines := HitLines(All(bulks), Tokens(req.keyword));
                && ret == 50_000 - |Take(lines, 50_001)|
                && Carries(chunks, req.clientId, Limited(lines))
    {
      hide Whole, QueryResultHandler.Valid, Newest, WordHits, All, Carries, Statistics, Tokens, WordIn;
      var out := new QueryResultHandler(req.clientId);
      ok := true;
      if !ValidReq(req) || req.kind != Request.Search {
        out.Append(INVALID_ANSWER);
        assert out.lines == [INVALID_ANSWER];
        chunks := out.Finish(elapsed);
        return true, -1, chunks;
      }
      var words := Tokens(req.keyword);
      ghost var lines := HitLines(All(bulks), words);
      var num := MAX_NUM_RESULT;
      if |words| == 1 {
        ok := ShowWordBulks(req.keyword, out);
        if !ok {
          return false, num, out.sent;
        }
      } else if |words| > 1 {
        num := ShowHitBulks(words, out);
      }
      if num == 0 {
        out.Append(NO_RESULT);
      }
      assert out.lines == Limited(lines);
      chunks := out.Finish(elapsed);
      ret := num;
    }

    // ---- recent logs and their number ----

    /** The newest logs of one bulk. */
    method ShowRecent(h: MemoryBulkHandler, ghost i: nat, ghost logs: seq<Log>, out: QueryResultHandler, num: nat)
      returns (left: int)
      requires i < |handlers| == |bulks| && h == handlers[i] && logs == bulks[i]
      requires Valid() && out.Valid() && Outside(out)
      modifies h`offsetRead, h`offsetList, h`state, h`data, h`releasePending, this`parts
      modifies out`sent, out`result, out`count, out`lines, out.result
      ensures out.lines == old(out.lines) + Take(Newest(logs, EveryLog()), num)
      ensures left == num - |Take(Newest(logs, EveryLog()), num)|
      ensures Valid() && out.Valid() && Outside(out)
      ensures (out.result == old(out.result) || fresh(out.result)) && fresh(parts - old(parts))
    {
      hide Whole, Outside, QueryResultHandler.Valid, Shown, Newest, EveryLog;
      ghost var lines, all := out.lines, Newest(logs, EveryLog());
      EveryLogAt(logs, 0);
      SizeIs(h, i);
      left := num;
      var index := h.size - 1;
      while index >= 0 && left > 0
        invariant -1 <= index < |logs| && left == num - (|logs| - 1 - index) && 0 <= left
        invariant Valid() && out.Valid() && Outside(out)
        invariant (out.result == old(out.result) || fresh(out.result)) && fresh(parts - old(parts))
        invariant out.lines == lines + all[..|logs| - 1 - index]
      {
        EveryLogAt(logs, |logs| - 1 - index);
        Show(h, i, index, logs[index], out);
        index, left := index - 1, left - 1;
      }
    }

    lemma SizeIs(h: MemoryBulkHandler, i: nat)
      requires Valid() && i < |handlers| == |bulks| && h == handlers[i]
      ensures h.size == |bulks[i]|
    {
      hide MemoryBulkHandler.Valid, Slots, Index, Apart;
      h.SizeIsLogs();
    }

    method ShowRecentBulks(count: nat, out: QueryResultHandler)
      requires Valid() && out.Valid() && Outside(out)
      modifies parts, this`parts, out`sent, out`result, out`count, out`lines, out.result
      ensures handlers == old(handlers) && bulks == old(bulks)
      ensures out.lines == old(out.lines) + Take(Newest(All(bulks), EveryLog()), count)
      ensures Valid() && out.Valid() && Outside(out)
      ensures (out.result == old(out.result) || fresh(out.result)) && fresh(parts - old(parts))
    {
      hide Bulks, Slots, Index, Tail, QueryResultHandler.Valid, Newest, EveryLog, All, Cut, NewestOf, Take;
      ghost var lines, hits, list := out.lines, EveryLog(), Indices(|bulks|);
      AllBulksSuffice(bulks, hits);
      CutEnds(bulks, list, 0, hits, count);
      var num: int := count;
      var m := |handlers|;
      while m > 0 && num > 0
        invariant 0 <= m <= |handlers| == |bulks| && 0 <= num == count - |Cut(bulks, list, m, hits, count)|
        invariant handlers == old(handlers) && bulks == old(bulks)
        invariant out.lines == lines + Cut(bulks, list, m, hits, count)
        invariant Valid() && out.Valid() && Outside(out)
        invariant (out.result == old(out.result) || fresh(out.result)) && fresh(parts - old(parts))
      {
        m := m - 1;
        CutStep(bulks, list, m, hits, count);
        num := ShowRecent(handlers[m], m, bulks[m], out, num);
      }
      CutEnds(bulks, list, m, hits, count);
    }

    /** Get_recent_log: the newest logs, as many as asked for. After rejecting a request it goes on
        with a result handler that is finished already: false, with what has been sent by then. */
    method GetRecentLog(req: Request.ReqData, elapsed: nat) returns (ok: bool, chunks: seq<Chunk>)
      requires Valid()
      modifies parts, this`parts
      ensures Valid() && handlers == old(handlers) && bulks == old(bulks) && fresh(parts - old(parts))
      ensures ok == (req.kind == Request.Recent && req.count > 0 && req.clientId > 0)
      ensures Carries(chunks, req.clientId,
                      if ok then RecentLines(All(bulks), Request.ToInt(req.count)) else [INVALID_ANSWER])
    {
      hide Whole, QueryResultHandler.Valid, Newest, EveryLog, All, Carries, Statistics;
      var out := new QueryResultHandler(req.clientId);
      if !ValidReq(req) || req.kind != Request.Recent {
        out.Append(INVALID_ANSWER);
        assert out.lines == [INVALID_ANSWER];
        chunks := out.Finish(elapsed);
        return false, chunks;
      }
      var count := Request.ToInt(req.count);
      if count > 0 {
        ShowRecentBulks(count, out);
      }
      assert out.lines == RecentLines(All(bulks), count);
      chunks := out.Finish(elapsed);
      ok := true;
    }

    /** LogCount_log: the number of all logs. */
    method LogCountLog(req: Request.ReqData, elapsed: nat) returns (ret: int, chunks: seq<Chunk>)
      requires Valid()
      ensures ret == if req.kind == Request.LogCount && req.clientId > 0 then 1 else -1
      ensures Carries(chunks, req.clientId, [if ret == 1 then CountAnswer(|All(bulks)|) else INVALID_ANSWER])
    {
      hide Bulks, Slots, Index, Tail, Apart, MemoryBulkHandler.Valid, QueryResultHandler.Valid, All, Carries, Statistics,
           Digits;
      ghost var n := |handlers| - 1;
      SizeIs(handlers[n], n);
      StartsBehind();
      var count := handlers[|handlers| - 1].startSerial + handlers[|handlers| - 1].size;
      DigitsFew(count % Request.TWO_TO_64);
      var out := new QueryResultHandler(req.clientId);
      if !ValidReq(req) || req.kind != Request.LogCount {
        out.Append(INVALID_ANSWER);
        assert out.lines == [INVALID_ANSWER];
        chunks := out.Finish(elapsed);
        return -1, chunks;
      }
      out.Append(CountAnswer(count));
      assert out.lines == [CountAnswer(count)];
      chunks := out.Finish(elapsed);
      ret := 1;
    }

    // ---- a time window ----

    /** The lines of a list of serials in order. */
    method ShowForwards(h: MemoryBulkHandler, ghost i: nat, ghost logs: seq<Log>, serials: seq<int>,
                        out: QueryResultHandler)
      requires i < |handlers| == |bulks| && h == handlers[i] && logs == bulks[i] && Below(serials, |logs|)
      requires Valid() && out.Valid() && Outside(out)
      modifies h`offsetRead, h`offsetList, h`state, h`data, h`releasePending, this`parts
      modifies out`sent, out`result, out`count, out`lines, out.result
      ensures out.lines == old(out.lines) + Forwards(logs, serials)
      ensures Valid() && out.Valid() && Outside(out)
      ensures (out.result == old(out.result) || fresh(out.result)) && fresh(parts - old(parts))
    {
      hide Whole, Outside, QueryResultHandler.Valid, Shown;
      ghost var lines := out.lines;
      NoLines(logs);
      assert serials[..0] == [];
      for k := 0 to |serials|
        invariant Valid() && out.Valid() && Outside(out)
        invariant (out.result == old(out.result) || fresh(out.result)) && fresh(parts - old(parts))
        invariant out.lines == lines + Forwards(logs, serials[..k])
      {
        assert serials[..k + 1][..k] == serials[..k];
        Show(h, i, serials[k], logs[serials[k]], out);
      }
      assert serials[..|serials|] == serials;
    }

    /** The search of Search_time_key in one bulk and, unless the search has ended, its lines. */
    method ShowWindow(h: MemoryBulkHandler, ghost i: nat, ghost logs: seq<Log>, start: nat, end: nat, key: string,
                      ended: bool, out: QueryResultHandler)
      returns (endSearch: bool, shown: nat, ghost lines: seq<string>)
      requires i < |handlers| == |bulks| && h == handlers[i] && logs == bulks[i]
      requires Valid() && out.Valid() && Outside(out)
      modifies h`keyRead, h.keyTrie, h`timestampRead, h`timestampList
      modifies h`offsetRead, h`offsetList, h`state, h`data, h`releasePending, this`parts
      modifies out`sent, out`result, out`count, out`lines, out.result
      ensures endSearch == (ended || start > EndOf(logs))
      ensures out.lines == old(out.lines) + lines && shown == |lines|
      ensures lines == if endSearch then [] else FoundLines(logs, key, start, end)
      ensures Valid() && out.Valid() && Outside(out)
      ensures (out.result == old(out.result) || fresh(out.result)) && fresh(parts - old(parts))
    {
      hide Bulks, Slots, Index, Tail, QueryResultHandler.Valid, KeySerials, FoundSerials, Forwards, EndOf;
      EndIs(h, i);
      KeySerialsSorted(logs, key);
      var list, first, last, past := SearchTimeKeyIn(h, i, start, end, key);
      endSearch, shown, lines := ended || past, 0, [];
      if !endSearch {
        NoLines(logs);
        if list != None {
          ShowForwards(h, i, logs, list.value[first..last + 1], out);
          shown, lines := last + 1 - first, Forwards(logs, list.value[first..last + 1]);
        }
      }
    }

    lemma EndIs(h: MemoryBulkHandler, i: nat)
      requires Valid() && i < |handlers| == |bulks| && h == handlers[i]
      ensures h.endTime == EndOf(bulks[i])
    {
      hide MemoryBulkHandler.Valid, Slots, Index, Apart;
      h.ValidSpan();
      SpanEnd(h.logs, h.startTime, h.endTime);
    }

    static lemma SpanEnd(logs: seq<Log>, start: nat, end: nat)
      requires Span(logs, start, end)
      ensures end == EndOf(logs)
    {
      if logs != [] { EndOfReached(logs); }
    }

    /** Find_start_time_bulkhandler: the bulk where a search from startTime begins. */
    method FindStartTimeBulkhandler(startTime: nat, list: seq<int>) returns (r: int)
      requires Valid() && |bulks| == |handlers| && Chosen(bulks, list)
      ensures r == -1 <==> list == []
      ensures list != [] ==> 0 <= r < |list| && (r == 0 || EndsOf(bulks, list)[r] <= startTime)
      ensures list != [] ==> r == StartBulk(EndsOf(bulks, list), startTime)
      ensures list != [] && Sorted(EndsOf(bulks, list)) ==> Splits(startTime, EndsOf(bulks, list), r)
    {
      hide Whole, EndOf, Bisect, Reach, Splits;
      ghost var ends := EndsOf(bulks, list);
      forall k | 0 <= k < |list| ensures handlers[list[k]].endTime == ends[k] {
        EndIs(handlers[list[k]], list[k]);
      }
      if list != [] && Sorted(ends) { StartSplits(ends, startTime); }
      var n := |list|;
      if n == 0 {
        return -1;
      }
      if handlers[list[0]].endTime > startTime {
        return 0;
      }
      if handlers[list[n - 1]].endTime < startTime {
        return n - 1;
      }
      r := LastUpTo(startTime, list, ends);
    }

    /** ... its binary search: the last bulk before one that ends later. */
    method LastUpTo(startTime: nat, list: seq<int>, ghost ends: seq<int>) returns (r: int)
      requires |ends| == |list| && forall k | 0 <= k < |list| :: 0 <= list[k] < |handlers|
      requires forall k | 0 <= k < |list| :: handlers[list[k]].endTime == ends[k]
      ensures r + 1 == Bisect(Reach(ends, startTime + 1), 0, |list| - 1)
    {
      hide Reach, Bisect;
      ghost var past := Reach(ends, startTime + 1);
      var left, right := 0, |list| - 1;
      while left <= right
        invariant 0 <= left <= right + 1 <= |list|
        invariant Bisect(past, left, right) == Bisect(past, 0, |list| - 1)
      {
        var mid := left + (right - left) / 2;
        BisectStep(past, left, right);
        if handlers[list[mid]].endTime > startTime {
          right := mid - 1;
        } else {
          left := mid + 1;
        }
      }
      BisectEnds(past, left);
      return right;
    }

    /** The loop of SearchTime_log. */
    method ShowWindows(list: seq<int>, start: nat, end: nat, key: string, out: QueryResultHandler)
      returns (num: nat, ghost lines: seq<string>)
      requires Valid() && out.Valid() && Outside(out) && list == BulksWith(bulks, key) && list != []
      modifies parts, this`parts, out`sent, out`result, out`count, out`lines, out.result
      ensures handlers == old(handlers) && bulks == old(bulks)
      ensures out.lines == old(out.lines) + lines && num == |lines| && lines == WindowShown(bulks, key, start, end)
      ensures Valid() && out.Valid() && Outside(out)
      ensures (out.result == old(out.result) || fresh(out.result)) && fresh(parts - old(parts))
    {
      hide Bulks, Slots, Index, Tail, QueryResultHandler.Valid, BulksWith, EndOf, StartBulk, Splits, FoundFrom,
           WindowShown;
      ShownIsFrom(bulks, key, start, end);
      var r := FindStartTimeBulkhandler(start, list);
      num, lines := ShowFrom(list, r, start, end, key, out);
    }

    /** ... from the bulk found on. */
    method ShowFrom(list: seq<int>, r: nat, start: nat, end: nat, key: string, out: QueryResultHandler)
      returns (num: nat, ghost lines: seq<string>)
      requires |bulks| == |handlers| && Chosen(bulks, list) && r < |list|
      requires out.Valid() && Outside(out) && Valid()
      modifies parts, this`parts, out`sent, out`result, out`count, out`lines, out.result
      ensures handlers == old(handlers) && bulks == old(bulks)
      ensures out.lines == old(out.lines) + lines && num == |lines|
      ensures lines == FoundFrom(old(bulks), list, r, key, start, end)
      ensures Valid() && out.Valid() && Outside(out)
      ensures (out.result == old(out.result) || fresh(out.result)) && fresh(parts - old(parts))
    {
      hide Bulks, Slots, Index, Tail, QueryResultHandler.Valid, EndOf, Apart, Outside, FoundLines, FoundPart, StopBulk;
      var endSearch := false;
      num, lines := 0, [];
      ghost var stop := StopBulk(EndsOf(bulks, list), start, r);
      FoundPartStep(bulks, list, r, r, key, start, end);
      for index := r to |list|
        invariant handlers == old(handlers) && bulks == old(bulks)
        invariant out.lines == old(out.lines) + lines && num == |lines| && endSearch == (index > stop)
        invariant lines == FoundPart(bulks, list, r, if index < stop then index else stop, key, start, end)
        invariant Valid() && out.Valid() && Outside(out)
        invariant (out.result == old(out.result) || fresh(out.result)) && fresh(parts - old(parts))
      {
        var shown;
        ghost var more;
        var i := list[index];
        FoundPartStep(bulks, list, r, index, key, start, end);
        endSearch, shown, more := ShowWindow(handlers[i], i, bulks[i], start, end, key, endSearch, out);
        num, lines := num + shown, lines + more;
      }
    }

    /** SearchTime_log. Only lines of the key are shown. If the key's logs are in turn in each of its
        bulks, those wanted are shown that lie in the bulks searched, and the answer is the one wanted
        if and only if none lies in another; over increasing ends that means that the search can begin
        or nothing is wanted. A key that is no log's but starts one makes the program read in front of
        a list: false. */
    method SearchTimeLog(req: Request.ReqData, elapsed: nat)
      returns (ok: bool, ret: int, chunks: seq<Chunk>, ghost shown: seq<string>)
      requires Valid()
      modifies parts, this`parts
      ensures handlers == old(handlers) && bulks == old(bulks)
      ensures !(req.kind == Request.SearchTime && |req.key| > 0 && req.start > 0 && req.end > 0 && req.clientId > 0) ==>
                ok && ret == -1 && Carries(chunks, req.clientId, [INVALID_ANSWER])
      ensures req.kind == Request.SearchTime && |req.key| > 0 && req.start > 0 && req.end > 0 && req.clientId > 0 ==>
                ok == KeyKnown(All(bulks), req.key)
      ensures req.kind == Request.SearchTime && |req.key| > 0 && req.start > 0 && req.end > 0 && req.clientId > 0 && ok ==>
                var key, start, end := req.key, Narrowed(req.start), Narrowed(req.end);
                && ret == 1 && shown == WindowShown(bulks, key, start, end)
                && WindowAnswered(bulks, key, start, end, chunks, req.clientId)
      ensures Valid() && fresh(parts - old(parts))
    {
      hide Bulks, Slots, Index, Tail, QueryResultHandler.Valid, All, Carries, Statistics, KeyKnown, WindowShown,
           AllStorable, WindowAnswered;
      var out := new QueryResultHandler(req.clientId);
      shown := [];
      if !ValidReq(req) || req.kind != Request.SearchTime {
        out.Append(INVALID_ANSWER);
        assert out.lines == [INVALID_ANSWER];
        chunks := out.Finish(elapsed);
        return true, -1, chunks, [];
      }
      var start, end := Narrowed(req.start), Narrowed(req.end);
      ok, shown := ShowWindowAnswer(req.key, start, end, out);
      if !ok {
        return false, 0, out.sent, [];
      }
      chunks := out.Finish(elapsed);
      ret := 1;
      AllLogsStorable();
      WindowAnswers(bulks, req.key, start, end, chunks, req.clientId);
    }

    /** ... its lookup and its lines, or the remark that there are none. */
    method ShowWindowAnswer(key: string, start: nat, end: nat, out: QueryResultHandler)
      returns (ok: bool, ghost shown: seq<string>)
      requires Valid() && out.Valid() && Outside(out) && out.lines == []
      modifies parts, this`parts, out`sent, out`result, out`count, out`lines, out.result
      ensures handlers == old(handlers) && bulks == old(bulks) && ok == KeyKnown(All(bulks), key)
      ensures ok ==> out.lines == Answer(shown) && shown == WindowShown(bulks, key, start, end)
      ensures Valid() && out.Valid() && Outside(out)
      ensures (out.result == old(out.result) || fresh(out.result)) && fresh(parts - old(parts))
    {
      hide Bulks, Slots, Index, Tail, QueryResultHandler.Valid, All, SomeKeyStarts, BulksWith, KeySerials, WindowShown;
      KeyBulksIff(bulks, key);
      var num := 0;
      ok, shown := true, [];
      var list := FindKey(key);
      if list == Some([]) {
        return false, [];
      }
      if list != None {
        num, shown := ShowWindows(list.value, start, end, key, out);
      } else {
        NoSuchKey(bulks, key, start, end);
      }
      if num == 0 {
        out.Append(NO_RESULT);
      }
    }

    static lemma NoSuchKey(bulks: seq<seq<Log>>, key: string, start: int, end: int)
      requires !SomeKeyStarts(All(bulks), key)
      ensures KeyKnown(All(bulks), key) && WindowShown(bulks, key, start, end) == []
    {
      hide SomeKeyStarts, All, KeySerials, BulksWith;
      NoKeyNoSerial(All(bulks), key);
      KeyBulksIff(bulks, key);
    }

    lemma AllLogsStorable()
      requires Valid()
      ensures AllStorable(All(bulks))
    {
      hide MemoryBulkHandler.Valid, Slots, Index, Apart, All, Storable;
      forall i | 0 <= i < |bulks| ensures AllStorable(bulks[i]) { handlers[i].LogsStorable(); }
      StorableInAll(bulks);
    }

    static lemma {:induction false} StorableInAll(bulks: seq<seq<Log>>)
      requires forall i | 0 <= i < |bulks| :: AllStorable(bulks[i])
      ensures AllStorable(All(bulks))
    {
      hide Storable;
      if bulks != [] { StorableInAll(bulks[..|bulks| - 1]); }
    }

    // ---- what the invariant says ----

    /** A slot in use names nobody or the one bulk that is not yet saved and has it as storage; no
        bulk has a free slot as storage. */
    lemma SlotOwnership()
      requires Valid()
      ensures forall u | u in queue.Contents() && u.handler != null ::
                u.handler in handlers && (u.handler.state == Appending || u.handler.state == InQueue) && u.handler.data == u
      ensures forall h | h in handlers && h.data != null && h.data in queue.units ::
                h.data in queue.Contents() && h.data.handler == h && (h.state == Appending || h.state == InQueue)
    {
      hide MemoryBulkHandler.Valid, Index, Apart, Queued;
      var queued := queue.Contents();
      forall j | 0 <= j < |handlers|
        ensures handlers[j].state != Init && (handlers[j].data != null ==> handlers[j].data.handler == handlers[j])
      {
        handlers[j].OwnsData();
      }
      forall k | 0 <= k < |queued| ensures queued[k] == SlotOf(queued, |handlers|, |handlers| - |queued| + k) {
      }
    }

    /** The start serials, which name the files of the bulks, increase strictly. */
    lemma StartSerialsIncrease(i: nat, j: nat)
      requires Valid() && i < j < |handlers|
      ensures handlers[i].startSerial < handlers[j].startSerial
    {
      hide Bulks, Slots, KeysOf;
      PrefixesGrow(bulks, i, j);
    }
  }
}
