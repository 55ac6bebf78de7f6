/** A bulk of logs and its life: appended to in a slot lent by the ring, persisted, evicted, and
    read back piece by piece when a query needs a piece. Every query answers from the logs alone,
    whatever part of the bulk is in memory. */
module Bulk {
  import opened Wrappers
  import opened Text
  import opened Tries
  import opened LogFile
  import opened Search
  import opened Logs
  import opened Records

  const BULKSIZE := 4096 * 512

  datatype MemoryBulkState = Init | Appending | InQueue | InMemory | Saved

  /** Storage for the text of one bulk: a slot of the ring, or a buffer of its own. */
  class BulkData {
    var handler: MemoryBulkHandler?
    var buffer: string

    /** new BulkData(): zeroed, with no handler yet. */
    constructor ()
      ensures handler == null && Zeroed()
    {
      handler := null;
      buffer := seq(BULKSIZE, _ => NUL);
    }

    ghost predicate Zeroed()
      reads this`buffer
    {
      |buffer| == BULKSIZE && forall k | 0 <= k < BULKSIZE :: buffer[k] == NUL
    }

    /** memset of the whole unit. */
    method Clear()
      modifies this
      ensures handler == null && Zeroed()
    {
      handler := null;
      buffer := seq(BULKSIZE, _ => NUL);
    }
  }

  // ---- what a bulk of logs is ----

  /** A log as ReqData holds it: a key of 1 to 15 bytes, a non-zero time, C strings. */
  ghost predicate Storable(log: Log) {
    && 1 <= |log.key| <= 15 && |log.content| <= 1023 && 0 < log.time < 0x1_0000_0000_0000_0000
    && NulFree(log.key) && NulFree(log.content) && Clean(log)
  }

  ghost predicate AllStorable(logs: seq<Log>) {
    forall k | 0 <= k < |logs| :: Storable(logs[k])
  }

  /** start_time_ and end_time_ are the least and the greatest time, 0 without logs. */
  ghost predicate Span(logs: seq<Log>, start: nat, end: nat) {
    if logs == [] then start == 0 && end == 0
    else
      && (forall k | 0 <= k < |logs| :: start <= logs[k].time <= end)
      && (exists k :: 0 <= k < |logs| && logs[k].time == start)
      && (exists k :: 0 <= k < |logs| && logs[k].time == end)
  }

  lemma StorableParts(logs: seq<Log>)
    requires AllStorable(logs)
    ensures AllNulFree(logs) && AllClean(logs) && forall k | 0 <= k < |logs| :: logs[k].key != []
  {
  }

  /** There is room for the record of the log behind those of the others, and a byte more. */
  predicate Fits(logs: seq<Log>, log: Log) {
    |TextOf(logs)| + |Render(log)| + 1 < BULKSIZE
  }

  /** A bulk has two megabytes. */
  lemma FitsBytes(logs: seq<Log>, log: Log)
    ensures Fits(logs, log) <==> |TextOf(logs)| + |Render(log)| + 1 < 2_097_152
  {
  }

  class MemoryBulkHandler {
    const startSerial: nat
    const keyTrie: Trie<int>
    const wordTrie: Trie<int>
    const keyFile: TrieFile
    const wordFile: TrieFile

    var state: MemoryBulkState
    var offsetRead: bool
    var timestampRead: bool
    var keyRead: bool
    var wordRead: bool

    var size: nat
    var offset: nat
    var startTime: nat
    var endTime: nat
    var offsetList: seq<int>
    var timestampList: seq<int>
    var data: BulkData?

    var contentFile: Option<string>
    var indexFile: Option<string>
    var timestampFile: Option<string>

    /** Whether the release timer and the auto-persistence timer are pending. */
    var releasePending: bool
    var autoPending: bool

    /** The logs appended so far. */
    ghost var logs: seq<Log>

    ghost function Repr(): set<object> {
      {this, keyTrie, wordTrie, keyFile, wordFile}
    }

    /** What the methods may write: the handler's own parts and the storage it holds. */
    ghost function Footprint(): set<object>
      reads this
    {
      Repr() + if data == null then {} else {data}
    }

    ghost predicate OnDisk()
      reads this`state
    {
      state == Saved || state == InMemory
    }

    ghost predicate Counters()
      reads this`logs, this`size, this`offset, this`startTime, this`endTime
    {
      && AllStorable(logs) && size == |logs| && offset == |TextOf(logs)| && offset + 1 < BULKSIZE
      && Span(logs, startTime, endTime)
    }

    /** One part: in memory unless evicted, and on disk once the bulk has been saved. */
    static ghost predicate ListPart(onDisk: bool, inMemory: bool, list: seq<int>, file: Option<string>,
                                    expected: seq<int>)
    {
      && (inMemory ==> list == expected)
      && (!inMemory ==> onDisk)
      && (onDisk ==> file == Some(RenderList(expected)))
    }

    static ghost predicate TriePart(onDisk: bool, inMemory: bool, trie: Trie<int>, file: TrieFile, expected: Node<int>)
      reads trie, file
    {
      && trie.Intact() && trie.valid == inMemory
      && (inMemory ==> trie.root == Some(expected))
      && (!inMemory ==> onDisk)
      && (onDisk ==> file.text.Some? && LogFile.Saved(expected, file.text.value))
      && (!onDisk ==> !trie.readOnly)
    }

    /** The text: in the storage held, or on disk, or both after a reload. */
    ghost predicate ContentPart()
      reads this`state, this`data, this`logs, this`contentFile, data
    {
      && (state == Saved <==> data == null)
      && (data != null ==> data.handler == this && |data.buffer| == BULKSIZE && Holds(data.buffer, TextOf(logs)))
      && (OnDisk() ==> contentFile == Some(TextOf(logs)))
    }

    /** The bulk's parts are four objects, and its tries fold as they should. */
    ghost predicate Distinct() {
      keyTrie != wordTrie && keyFile != wordFile && !keyTrie.lowercase && wordTrie.lowercase
    }

    ghost predicate Valid()
      reads Repr(), data
    {
      && state != Init && Distinct()
      && Counters()
      && ListPart(OnDisk(), offsetRead, offsetList, indexFile, OffsetsOf(logs))
      && ListPart(OnDisk(), timestampRead, timestampList, timestampFile, TimesOf(logs))
      && TriePart(OnDisk(), keyRead, keyTrie, keyFile, KeyTrieOf(logs))
      && TriePart(OnDisk(), wordRead, wordTrie, wordFile, WordTrieOf(logs))
      && ContentPart()
      && (releasePending ==> OnDisk())
    }

    /** A new bulk in a cleared unit of the ring. */
    constructor (serial: nat, unit: BulkData)
      requires unit.Zeroed()
      modifies unit
      ensures Valid() && fresh(Repr()) && startSerial == serial && data == unit && unit.handler == this
      ensures state == Appending && logs == [] && !releasePending && !autoPending
    {
      hide Valid, Empty, BulkData.Zeroed;
      startSerial := serial;
      keyTrie := new Trie<int>(false);
      wordTrie := new Trie<int>(true);
      keyFile := new TrieFile();
      wordFile := new TrieFile();
      state := Appending;
      offsetRead, timestampRead, keyRead, wordRead := true, true, true, true;
      size, offset, startTime, endTime := 0, 0, 0, 0;
      offsetList, timestampList := [], [];
      data := unit;
      contentFile, indexFile, timestampFile := None, None, None;
      releasePending, autoPending := false, false;
      logs := [];
      new;
      unit.handler := this;
      NewIsValid();
    }

    lemma NewIsValid()
      requires state == Appending && logs == [] && !releasePending && keyTrie != wordTrie && keyFile != wordFile
      requires !keyTrie.lowercase && wordTrie.lowercase
      requires offsetRead && timestampRead && keyRead && wordRead && offsetList == [] && timestampList == []
      requires size == 0 && offset == 0 && startTime == 0 && endTime == 0
      requires keyTrie.Intact() && keyTrie.valid && !keyTrie.readOnly && keyTrie.root == Some(Node(ROOT, map[], []))
      requires wordTrie.Intact() && wordTrie.valid && !wordTrie.readOnly && wordTrie.root == Some(Node(ROOT, map[], []))
      requires data != null && data.handler == this && data.Zeroed()
      ensures Valid()
    {
      hide RenderList, LogFile.Saved, Clean, NulFree, Trie.Intact, InsertNode, InsertWords;
    }

    // ---- appending ----

    /** Everything but the text is as before; the text has the log's record behind it already. */
    ghost predicate HalfAppended(log: Log)
      reads Repr(), data
    {
      && state == Appending && Distinct()
      && AllStorable(logs) && Storable(log) && size == |logs| && Span(logs, startTime, endTime)
      && offset == |TextOf(logs)| + |Render(log)| && offset + 1 < BULKSIZE
      && ListPart(OnDisk(), offsetRead, offsetList, indexFile, OffsetsOf(logs))
      && ListPart(OnDisk(), timestampRead, timestampList, timestampFile, TimesOf(logs))
      && TriePart(OnDisk(), keyRead, keyTrie, keyFile, KeyTrieOf(logs))
      && TriePart(OnDisk(), wordRead, wordTrie, wordFile, WordTrieOf(logs))
      && data != null && data.handler == this && |data.buffer| == BULKSIZE
      && Holds(data.buffer, TextOf(logs) + Render(log)) && !releasePending
    }

    /** Append: the record goes behind the text, unless it does not fit, which seals the bulk, or
        the bulk is sealed already. */
    method Append(str: string, ghost log: Log) returns (ret: int)
      requires Valid() && Storable(log) && str == Render(log)
      modifies this`state, this`offset, this`autoPending, data
      ensures data == old(data) && (data != null ==> data.handler == old(data.handler))
      ensures ret == -1 <==> old(state) != Appending || old(offset) + |str| + 1 >= BULKSIZE
      ensures autoPending == (old(autoPending) || ret != -1)
      ensures ret == -1 ==> Valid() && state == if old(state) == Appending then InQueue else old(state)
      ensures ret != -1 ==> HalfAppended(log) && ret == |TextOf(logs)|
    {
      hide TextOf, Render, OffsetsOf, TimesOf, KeyTrieOf, WordTrieOf, RenderList, LogFile.Saved, Storable, Span,
           Trie.Intact;
      if state != Appending {
        return -1;
      }
      if offset + |str| + 1 >= BULKSIZE {
        state := InQueue;
        return -1;
      }
      HoldsMore(data.buffer, TextOf(logs), str);
      data.buffer := data.buffer[..offset] + str + data.buffer[offset + |str|..];
      ret := offset;
      offset := offset + |str|;
      autoPending := true;
    }

    /** Build_index for the record just written: both tries, both lists, the counters. */
    method BuildIndex(recordOffset: int, log: Log)
      requires HalfAppended(log) && recordOffset == |TextOf(logs)|
      modifies this`startTime, this`endTime, this`offsetList, this`timestampList, this`size, this`logs, keyTrie, wordTrie
      ensures Valid() && logs == old(logs) + [log]
    {
      hide TextOf, Render, OffsetsOf, TimesOf, KeyTrieOf, WordTrieOf, RenderList, Storable, Span, TriePart, Valid,
           Holds;
      IndexTries(log);
      offsetList := offsetList + [recordOffset];
      timestampList := timestampList + [log.time];
      ghost var start, end := startTime, endTime;
      if startTime > log.time || startTime == 0 {
        startTime := log.time;
      }
      if endTime < log.time {
        endTime := log.time;
      }
      size := size + 1;
      logs := logs + [log];
      IndexedIsValid(old(logs), log, start, end);
    }

    lemma RoomIs(log: Log)
      requires Valid()
      ensures HasRoom(log) <==> state == Appending && Fits(logs, log)
    {
      hide TextOf, Render, OffsetsOf, TimesOf, KeyTrieOf, WordTrieOf, RenderList, Span, TriePart, ListPart, ContentPart;
    }

    /** The bulk takes logs and there is room for this one. */
    ghost predicate HasRoom(log: Log)
      reads this`state, this`offset
    {
      state == Appending && offset + |Render(log)| + 1 < BULKSIZE
    }

    /** Append and, when the record went in, Build_index. */
    method AppendRecord(log: Log) returns (ret: int)
      requires Valid() && Storable(log)
      modifies Footprint()
      ensures Valid() && data == old(data) && (data != null ==> data.handler == old(data.handler))
      ensures OnDisk() == old(OnDisk()) && logs == if ret == -1 then old(logs) else old(logs) + [log]
      ensures ret == -1 <==> !old(HasRoom(log))
      ensures ret == -1 ==> state != Appending && autoPending == old(autoPending)
      ensures ret != -1 ==> state == Appending && autoPending
      ensures old(state) == Appending && old(logs) == [] ==> ret != -1
    {
      hide TextOf, Render, OffsetsOf, TimesOf, KeyTrieOf, WordTrieOf, RenderList, Storable, Span, TriePart, ListPart,
           ContentPart, Holds;
      EmptyHasRoom(logs, log);
      ret := Append(Render(log), log);
      if ret != -1 {
        BuildIndex(ret, log);
      }
    }

    lemma EmptyTakes(log: Log)
      requires Valid() && logs == [] && state == Appending && Storable(log)
      ensures HasRoom(log)
    {
      hide Render, OffsetsOf, TimesOf, KeyTrieOf, WordTrieOf, RenderList, Span, TriePart, ListPart, ContentPart;
      EmptyHasRoom(logs, log);
    }

    static lemma EmptyHasRoom(logs: seq<Log>, log: Log)
      requires Storable(log)
      ensures logs == [] ==> |TextOf(logs)| + |Render(log)| + 1 < BULKSIZE
    {
      RenderShort(log);
    }

    lemma IndexedIsValid(before: seq<Log>, log: Log, start: nat, end: nat)
      requires logs == before + [log] && state == Appending && !releasePending
      requires Distinct()
      requires AllStorable(before) && Storable(log) && Span(before, start, end)
      requires size == |logs| && offset == |TextOf(before)| + |Render(log)| && offset + 1 < BULKSIZE
      requires startTime == if start > log.time || start == 0 then log.time else start
      requires endTime == if end < log.time then log.time else end
      requires offsetRead && offsetList == OffsetsOf(before) + [|TextOf(before)|]
      requires timestampRead && timestampList == TimesOf(before) + [log.time]
      requires TriePart(OnDisk(), keyRead, keyTrie, keyFile, KeyTrieOf(logs))
      requires TriePart(OnDisk(), wordRead, wordTrie, wordFile, WordTrieOf(logs))
      requires data != null && data.handler == this && |data.buffer| == BULKSIZE
      requires Holds(data.buffer, TextOf(before) + Render(log))
      ensures Valid()
    {
      hide TextOf, Render, OffsetsOf, TimesOf, KeyTrieOf, WordTrieOf, RenderList, Storable, Span, TriePart, Holds;
      IndexedMore(before, log);
      SpanMore(before, start, end, log);
    }

    method IndexTries(log: Log)
      requires HalfAppended(log)
      modifies keyTrie, wordTrie
      ensures TriePart(OnDisk(), keyRead, keyTrie, keyFile, KeyTrieOf(logs + [log]))
      ensures TriePart(OnDisk(), wordRead, wordTrie, wordFile, WordTrieOf(logs + [log]))
    {
      hide TextOf, Render, OffsetsOf, TimesOf, KeyTrieOf, WordTrieOf, RenderList, LogFile.Saved, Storable, Span,
           InsertNode, InsertWords, Tokens, Holds;
      IndexedMore(logs, log);
      keyTrie.Insert(log.key, size);
      IndexWords(log.content);
    }

    /** The strtok_r loop of Build_index. */
    method IndexWords(content: string)
      requires wordTrie.Intact() && wordTrie.valid && !wordTrie.readOnly && wordTrie.lowercase
      modifies wordTrie`root, wordTrie`size
      ensures wordTrie.Intact() && wordTrie.valid
      ensures wordTrie.root == Some(InsertWords(old(wordTrie.root.value), Tokens(content), size))
    {
      hide InsertNode, Tokens;
      var words := Tokens(content);
      assert words[..0] == [];
      for i := 0 to |words|
        invariant wordTrie.Intact() && wordTrie.root == Some(InsertWords(old(wordTrie.root.value), words[..i], size))
      {
        assert words[..i + 1][..i] == words[..i];
        wordTrie.Insert(words[i], size);
      }
      assert words[..|words|] == words;
    }

    static lemma HoldsMore(buffer: string, text: string, str: string)
      requires Holds(buffer, text) && |text| + |str| < |buffer|
      ensures Holds(buffer[..|text|] + str + buffer[|text| + |str|..], text + str)
    {
    }

    /** What one more log does to the derived parts of a bulk. */
    static lemma IndexedMore(logs: seq<Log>, log: Log)
      ensures var all := logs + [log];
              && KeyTrieOf(all) == InsertNode(false, KeyTrieOf(logs), log.key, |logs|).0
              && WordTrieOf(all) == InsertWords(WordTrieOf(logs), Tokens(log.content), |logs|)
              && TextOf(all) == TextOf(logs) + Render(log)
              && OffsetsOf(all) == OffsetsOf(logs) + [|TextOf(logs)|]
              && TimesOf(all) == TimesOf(logs) + [log.time]
    {
      hide InsertNode, InsertWords, Tokens, Render;
      var all := logs + [log];
      assert all[..|logs|] == logs;
    }

    static lemma SpanMore(logs: seq<Log>, start: nat, end: nat, log: Log)
      requires Span(logs, start, end) && AllStorable(logs) && Storable(log)
      ensures AllStorable(logs + [log])
      ensures Span(logs + [log], if start > log.time || start == 0 then log.time else start,
                   if end < log.time then log.time else end)
    {
      hide Clean;
      var all := logs + [log];
      assert all[|logs|] == log;
      assert forall k | 0 <= k < |logs| :: all[k] == logs[k];
      if logs != [] {
        var i :| 0 <= i < |logs| && logs[i].time == start;
        var j :| 0 <= j < |logs| && logs[j].time == end;
        assert all[i].time == start && all[j].time == end;
      }
    }

    // ---- timers ----

    /** Set_timer: no release timer while the text is only in its slot. */
    method SetTimer()
      requires Valid()
      modifies this`releasePending
      ensures Valid() && releasePending == (old(releasePending) || OnDisk())
    {
      hide ListPart, TriePart, ContentPart, Counters;
      if state == Appending || state == InQueue {
        return;
      }
      releasePending := true;
    }

    // ---- the text ----

    static lemma TextInBuffer(logs: seq<Log>, buffer: string)
      requires AllStorable(logs) && Holds(buffer, TextOf(logs))
      ensures CString(buffer) == TextOf(logs)
    {
      hide TextOf, CString, Storable;
      StorableParts(logs);
      TextNulFree(logs);
      var text := TextOf(logs);
      assert buffer == text + buffer[|text|..];
      CStringBeforeNul(text, buffer[|text|..]);
    }

    /** Save_Content: the buffer is written as the C string it holds. */
    method SaveContent()
      requires data != null
      modifies this`state, this`contentFile
      ensures state == Saved && contentFile == Some(CString(data.buffer))
    {
      state := Saved;
      contentFile := Some(CString(data.buffer));
    }

    /** Read_Content: into the storage held, or else a new zeroed buffer. */
    method ReadContent()
      requires Valid() && state == Saved
      modifies this`state, this`data
      ensures Valid() && state == InMemory && fresh(data)
    {
      hide ListPart, TriePart, TextOf, Storable, Span;
      if data == null {
        data := new BulkData();
        data.handler := this;
      }
      var text := contentFile.value;
      data.buffer := text[..] + data.buffer[|text|..];
      state := InMemory;
      HeldAfterRead(data.buffer, text);
    }

    static lemma HeldAfterRead(buffer: string, text: string)
      requires |text| < |buffer| == BULKSIZE && buffer[..|text|] == text
      requires forall k | |text| <= k < BULKSIZE :: buffer[k] == NUL
      ensures Holds(buffer, text)
    {
    }

    /** Get_data. */
    method GetData() returns (buffer: string)
      requires Valid()
      modifies this`state, this`data, this`releasePending
      ensures Valid() && Holds(buffer, TextOf(logs))
      ensures state == if old(state) == Saved then InMemory else old(state)
      ensures if old(state) == Saved then fresh(data) && releasePending
              else data == old(data) && releasePending == old(releasePending)
    {
      hide ListPart, TriePart, TextOf, Storable, Span;
      if state == Saved {
        ReadContent();
        SetTimer();
      }
      buffer := data.buffer;
    }

    // ---- the lists ----

    method SaveIndex()
      requires ListPart(!offsetRead, offsetRead, offsetList, indexFile, OffsetsOf(logs))
      modifies this`offsetRead, this`offsetList, this`indexFile
      ensures !offsetRead && indexFile == Some(RenderList(OffsetsOf(logs)))
    {
      if !offsetRead {
        return;
      }
      offsetRead := false;
      var text := SaveListFile(offsetList);
      indexFile, offsetList := Some(text), [];
    }

    method ReadIndex()
      requires indexFile == Some(RenderList(OffsetsOf(logs)))
      modifies this`offsetRead, this`offsetList
      ensures offsetRead && offsetList == OffsetsOf(logs)
    {
      hide RenderList, ReadList, OffsetsOf;
      ListRoundTrip(OffsetsOf(logs));
      var list := ReadListFile(indexFile.value);
      offsetList := list.value;
      offsetRead := true;
    }

    method DeleteIndex()
      modifies this`offsetRead, this`offsetList
      ensures !offsetRead
    {
      if offsetRead {
        offsetList := [];
      }
      offsetRead := false;
    }

    method SaveTimestamp()
      requires ListPart(!timestampRead, timestampRead, timestampList, timestampFile, TimesOf(logs))
      modifies this`timestampRead, this`timestampList, this`timestampFile
      ensures !timestampRead && timestampFile == Some(RenderList(TimesOf(logs)))
    {
      if !timestampRead {
        return;
      }
      timestampRead := false;
      var text := SaveListFile(timestampList);
      timestampFile, timestampList := Some(text), [];
    }

    method ReadTimestamp()
      requires timestampFile == Some(RenderList(TimesOf(logs)))
      modifies this`timestampRead, this`timestampList
      ensures timestampRead && timestampList == TimesOf(logs)
    {
      hide RenderList, ReadList, TimesOf;
      ListRoundTrip(TimesOf(logs));
      var list := ReadListFile(timestampFile.value);
      timestampList := list.value;
      timestampRead := true;
    }

    method DeleteTimestamp()
      modifies this`timestampRead, this`timestampList
      ensures !timestampRead
    {
      if timestampRead {
        timestampList := [];
      }
      timestampRead := false;
    }

    // ---- the tries ----

    /** A trie evicted and on disk. */
    static ghost predicate OnlySaved(trie: Trie<int>, file: TrieFile, expected: Node<int>)
      reads trie, file
    {
      trie.Intact() && !trie.valid && file.text.Some? && LogFile.Saved(expected, file.text.value)
    }

    static ghost predicate TrieHeld(inMemory: bool, trie: Trie<int>, file: TrieFile, expected: Node<int>)
      reads trie, file
    {
      if inMemory then trie.Intact() && trie.valid && trie.root == Some(expected) else OnlySaved(trie, file, expected)
    }

    method SaveKeyTrie()
      requires TrieHeld(keyRead, keyTrie, keyFile, KeyTrieOf(logs))
      modifies this`keyRead, keyTrie, keyFile
      ensures !keyRead && OnlySaved(keyTrie, keyFile, KeyTrieOf(logs))
    {
      if !keyRead {
        return;
      }
      keyRead := false;
      var _ := keyFile.SaveTrieFile(keyTrie);
    }

    method SaveWordTrie()
      requires TrieHeld(wordRead, wordTrie, wordFile, WordTrieOf(logs))
      modifies this`wordRead, wordTrie, wordFile
      ensures !wordRead && OnlySaved(wordTrie, wordFile, WordTrieOf(logs))
    {
      if !wordRead {
        return;
      }
      wordRead := false;
      var _ := wordFile.SaveTrieFile(wordTrie);
    }

    /** Read_trie_file of a clean tree: the tree as it was. */
    static method ReloadTrie(trie: Trie<int>, file: TrieFile, ghost expected: Node<int>)
      requires file.text.Some? && LogFile.Saved(expected, file.text.value)
      requires expected.c == ROOT && expected.values == [] && Keyed(expected) && WordsWithoutSpaces(expected)
      modifies trie
      ensures trie.Intact() && trie.valid && trie.root == Some(expected)
    {
      hide Load, LogFile.Saved, ReadFile, WordsWithoutSpaces, Count;
      LoadedSize(expected, file.text.value);
      var _ := file.ReadTrieFile(trie);
    }

    method ReadKeyTrie()
      requires AllStorable(logs) && keyFile.text.Some? && LogFile.Saved(KeyTrieOf(logs), keyFile.text.value)
      modifies this`keyRead, keyTrie
      ensures keyRead && keyTrie.Intact() && keyTrie.valid && keyTrie.root == Some(KeyTrieOf(logs))
    {
      hide LogFile.Saved, KeyTrieOf, WordsWithoutSpaces, Keyed, AllClean, Trie.Intact;
      StorableParts(logs);
      KeyTrieRoot(logs);
      KeyTrieClean(logs);
      ReloadTrie(keyTrie, keyFile, KeyTrieOf(logs));
      keyRead := true;
    }

    method ReadWordTrie()
      requires AllStorable(logs) && wordFile.text.Some? && LogFile.Saved(WordTrieOf(logs), wordFile.text.value)
      modifies this`wordRead, wordTrie
      ensures wordRead && wordTrie.Intact() && wordTrie.valid && wordTrie.root == Some(WordTrieOf(logs))
    {
      hide LogFile.Saved, WordTrieOf, WordsWithoutSpaces, Keyed, AllClean, Trie.Intact;
      StorableParts(logs);
      WordTrieRoot(logs);
      WordTrieClean(logs);
      ReloadTrie(wordTrie, wordFile, WordTrieOf(logs));
      wordRead := true;
    }

    method DeleteKeyTrie()
      requires keyTrie.valid == keyRead && keyTrie.Intact()
      modifies this`keyRead, keyTrie
      ensures !keyRead && keyTrie.Intact() && !keyTrie.valid
    {
      if keyRead {
        keyTrie.DeleteTree();
      }
      keyRead := false;
    }

    method DeleteWordTrie()
      requires wordTrie.valid == wordRead && wordTrie.Intact()
      modifies this`wordRead, wordTrie
      ensures !wordRead && wordTrie.Intact() && !wordTrie.valid
    {
      if wordRead {
        wordTrie.DeleteTree();
      }
      wordRead := false;
    }

    // ---- eviction ----

    /** Persistence: everything in memory is saved, the slot or buffer is given up. */
    method Persistence() returns (ret: int)
      requires Valid()
      modifies Footprint()
      ensures state == Saved && data == null && (old(data) != null ==> old(data).handler == null)
      ensures ret == if old(state) == Saved then -1 else 1
      ensures releasePending == old(releasePending) && autoPending == old(autoPending)
      ensures Valid() && logs == old(logs)
    {
      hide Valid, PartsSaved, Counters, TextOf, CString, Trie.Intact, Holds, RenderList, TrieHeld, OnlySaved,
           ListPart, OffsetsOf, TimesOf, KeyTrieOf, WordTrieOf, AllStorable, Distinct;
      if state != InMemory && state != InQueue && state != Appending {
        Parts();
        return -1;
      }
      SaveAll();
      if data != null {
        data.handler := null;
      }
      data := null;
      EvictedIsValid();
      return 1;
    }

    /** The five saves. */
    method SaveAll()
      requires Valid() && state != Saved
      modifies Repr()
      ensures data == old(data) && data != null && logs == old(logs) && Counters() && Distinct() && PartsSaved()
      ensures state == Saved && contentFile == Some(TextOf(logs))
      ensures releasePending == old(releasePending) && autoPending == old(autoPending)
    {
      hide Valid, PartsSaved, Counters, TextOf, CString, Trie.Intact, Holds, RenderList, TrieHeld, OnlySaved,
           ListPart, OffsetsOf, TimesOf, KeyTrieOf, WordTrieOf, AllStorable, Distinct;
      Parts();
      TextInBuffer(logs, data.buffer);
      state := Saved;
      SaveContent();
      SaveParts();
    }

    /** The four parts are on disk and not in memory. */
    ghost predicate PartsSaved()
      reads this`logs, this`offsetRead, this`indexFile, this`timestampRead, this`timestampFile, this`keyRead, this`wordRead
      reads keyTrie, keyFile, wordTrie, wordFile
    {
      && !offsetRead && indexFile == Some(RenderList(OffsetsOf(logs)))
      && !timestampRead && timestampFile == Some(RenderList(TimesOf(logs)))
      && !keyRead && OnlySaved(keyTrie, keyFile, KeyTrieOf(logs))
      && !wordRead && OnlySaved(wordTrie, wordFile, WordTrieOf(logs))
    }

    /** The four saves behind the text. */
    method SaveParts()
      requires Distinct()
      requires ListPart(!offsetRead, offsetRead, offsetList, indexFile, OffsetsOf(logs))
      requires ListPart(!timestampRead, timestampRead, timestampList, timestampFile, TimesOf(logs))
      requires TrieHeld(keyRead, keyTrie, keyFile, KeyTrieOf(logs))
      requires TrieHeld(wordRead, wordTrie, wordFile, WordTrieOf(logs))
      modifies this`offsetRead, this`offsetList, this`indexFile, this`timestampRead, this`timestampList
      modifies this`timestampFile
      modifies this`keyRead, this`wordRead, keyTrie, keyFile, wordTrie, wordFile
      ensures PartsSaved()
    {
      hide RenderList, TrieHeld, OnlySaved, ListPart, OffsetsOf, TimesOf, KeyTrieOf, WordTrieOf;
      SaveIndex();
      SaveTimestamp();
      SaveKeyTrie();
      SaveWordTrie();
    }

    /** What eviction needs to know of a valid bulk. */
    lemma Parts()
      requires Valid()
      ensures state != Init && Distinct()
      ensures Counters() && AllStorable(logs)
      ensures state == Saved <==> data == null
      ensures data != null ==> Holds(data.buffer, TextOf(logs))
      ensures ListPart(!offsetRead, offsetRead, offsetList, indexFile, OffsetsOf(logs))
      ensures ListPart(!timestampRead, timestampRead, timestampList, timestampFile, TimesOf(logs))
      ensures TrieHeld(keyRead, keyTrie, keyFile, KeyTrieOf(logs))
      ensures TrieHeld(wordRead, wordTrie, wordFile, WordTrieOf(logs))
    {
      hide TextOf, Trie.Intact, Holds, RenderList, LogFile.Saved, Storable, Span, OffsetsOf, TimesOf, KeyTrieOf,
           WordTrieOf;
    }

    /** A bulk with everything on disk and nothing in memory is valid. */
    lemma EvictedIsValid()
      requires Distinct()
      requires Counters() && state == Saved && data == null && contentFile == Some(TextOf(logs))
      requires PartsSaved()
      ensures Valid()
    {
      hide TextOf, Trie.Intact, Holds, RenderList, LogFile.Saved, Counters, OffsetsOf, TimesOf, KeyTrieOf, WordTrieOf;
    }

    /** Delete_Content. */
    method DeleteContent()
      modifies this`state, this`data
      ensures state == Saved && (old(state) != Saved ==> data == null) && (old(state) == Saved ==> data == old(data))
    {
      if state == Appending {
        data := null;
      }
      if state != Saved && data != null {
        data := null;
      }
      state := Saved;
    }

    /** Release_space, when the release timer acts: only copies of what is on disk are dropped,
        and storage is freed only if it is a buffer of the bulk's own. */
    method ReleaseSpace()
      requires Valid() && releasePending
      modifies this`state, this`data, this`offsetRead, this`offsetList, this`timestampRead, this`timestampList
      modifies this`keyRead, this`wordRead, keyTrie, wordTrie
      ensures Valid() && state == Saved && data == null
      ensures Distinct() && Counters() && contentFile == Some(TextOf(logs)) && PartsSaved()
    {
      hide Valid, TextOf, RenderList, OffsetsOf, TimesOf, KeyTrieOf, WordTrieOf, Counters, Trie.Intact, LogFile.Saved,
           PartsSaved;
      PartsOnDisk();
      DeleteContent();
      DeleteParts();
      EvictedIsValid();
    }

    /** The four deletions behind the text. */
    method DeleteParts()
      requires Distinct()
      requires indexFile == Some(RenderList(OffsetsOf(logs))) && timestampFile == Some(RenderList(TimesOf(logs)))
      requires keyTrie.Intact() && keyTrie.valid == keyRead && keyFile.text.Some?
      requires LogFile.Saved(KeyTrieOf(logs), keyFile.text.value)
      requires wordTrie.Intact() && wordTrie.valid == wordRead && wordFile.text.Some?
      requires LogFile.Saved(WordTrieOf(logs), wordFile.text.value)
      modifies this`offsetRead, this`offsetList, this`timestampRead, this`timestampList
      modifies this`keyRead, this`wordRead, keyTrie, wordTrie
      ensures PartsSaved()
    {
      hide TextOf, RenderList, OffsetsOf, TimesOf, KeyTrieOf, WordTrieOf, Trie.Intact, LogFile.Saved;
      DeleteIndex();
      DeleteTimestamp();
      DeleteKeyTrie();
      DeleteWordTrie();
    }

    /** BulkAutoPersistence::Act, when the auto-persistence timer acts. */
    method AutoPersistenceAct()
      requires Valid() && autoPending
      modifies Footprint()
      ensures state == Saved && data == null && (old(data) != null ==> old(data).handler == null) && !autoPending
      ensures Valid() && logs == old(logs)
    {
      hide ListPart, TriePart, ContentPart, Counters;
      autoPending := false;
      var _ := Persistence();
    }

    /** BulkTimeout::Act, when the release timer acts. */
    method TimeoutAct()
      requires Valid() && releasePending
      modifies Repr()
      ensures state == Saved && data == null && !releasePending && !offsetRead && !timestampRead && !keyRead && !wordRead
      ensures Valid() && logs == old(logs) && autoPending == old(autoPending)
    {
      hide Valid, Counters, TextOf, Distinct, OnlySaved, RenderList, OffsetsOf, TimesOf, KeyTrieOf, WordTrieOf;
      ReleaseSpace();
      releasePending := false;
      EvictedIsValid();
    }

    /** A pending release timer: a copy of every part is on disk. */
    lemma PartsOnDisk()
      requires Valid() && releasePending
      ensures OnDisk() && (state == Saved <==> data == null)
      ensures Distinct()
      ensures Counters() && contentFile == Some(TextOf(logs))
      ensures indexFile == Some(RenderList(OffsetsOf(logs))) && timestampFile == Some(RenderList(TimesOf(logs)))
      ensures keyTrie.Intact() && keyTrie.valid == keyRead && keyFile.text.Some?
      ensures LogFile.Saved(KeyTrieOf(logs), keyFile.text.value)
      ensures wordTrie.Intact() && wordTrie.valid == wordRead && wordFile.text.Some?
      ensures LogFile.Saved(WordTrieOf(logs), wordFile.text.value)
    {
      hide TextOf, Holds, RenderList, LogFile.Saved, Counters, OffsetsOf, TimesOf, KeyTrieOf, WordTrieOf;
    }

    // ---- queries ----

    method LoadIndex()
      requires Valid()
      modifies this`offsetRead, this`offsetList
      ensures Valid() && offsetRead
    {
      hide TriePart, ContentPart, TextOf, OffsetsOf, Storable, Span, RenderList;
      if !offsetRead {
        ReadIndex();
      }
    }

    method LoadTimestamp()
      requires Valid()
      modifies this`timestampRead, this`timestampList
      ensures Valid() && timestampRead
    {
      hide TriePart, ContentPart, TextOf, OffsetsOf, TimesOf, Storable, Span, RenderList;
      if !timestampRead {
        ReadTimestamp();
      }
    }

    method LoadKeyTrie()
      requires Valid()
      modifies this`keyRead, keyTrie
      ensures Valid() && keyRead
    {
      hide ListPart, ContentPart, TextOf, OffsetsOf, TimesOf, Storable, Span, RenderList, KeyTrieOf, WordTrieOf,
           LogFile.Saved, Trie.Intact;
      if !keyRead {
        ReadKeyTrie();
      }
    }

    method LoadWordTrie()
      requires Valid()
      modifies this`wordRead, wordTrie
      ensures Valid() && wordRead
    {
      hide ListPart, ContentPart, TextOf, OffsetsOf, TimesOf, Storable, Span, RenderList, KeyTrieOf, WordTrieOf,
           LogFile.Saved, Trie.Intact;
      if !wordRead {
        ReadWordTrie();
      }
    }

    /** Get_offset_by_serial. */
    method GetOffsetBySerial(serial: nat) returns (offset: int)
      requires Valid()
      modifies this`offsetRead, this`offsetList
      ensures Valid()
      ensures offset == if serial >= |logs| then -1 else OffsetsOf(logs)[serial]
    {
      hide TriePart, ContentPart, TextOf, Storable, Span, RenderList;
      LoadIndex();
      if serial >= size {
        return -1;
      }
      return offsetList[serial];
    }

    /** Search_key: what a scan of the logs for the key finds. */
    method SearchKey(key: string) returns (r: Option<seq<int>>)
      requires Valid()
      modifies this`keyRead, keyTrie, this`releasePending
      ensures Valid() && releasePending == (old(releasePending) || OnDisk())
      ensures r == if SomeKeyStarts(logs, key) then Some(KeySerials(logs, key)) else None
    {
      hide ListPart, ContentPart, Storable, Span, KeyTrieOf, WordTrieOf, LogFile.Saved, SomeKeyStarts, KeySerials;
      LoadKeyTrie();
      SetTimer();
      r := keyTrie.Search(key);
      KeyIndexIsScan(logs, key);
    }

    /** Search_keyword: what a scan for the lower-cased word finds. */
    method SearchKeyword(word: string) returns (r: Option<seq<int>>)
      requires Valid()
      modifies this`wordRead, wordTrie, this`releasePending
      ensures Valid() && releasePending == (old(releasePending) || OnDisk())
      ensures r == if SomeLogStarts(logs, word) then Some(WordSerials(logs, word)) else None
    {
      hide ListPart, ContentPart, Storable, Span, KeyTrieOf, WordTrieOf, LogFile.Saved, SomeLogStarts, WordSerials;
      LoadWordTrie();
      SetTimer();
      r := wordTrie.Search(word);
      WordIndexIsScan(logs, word);
    }

    /** Join_search: what a scan for logs with all the words finds. */
    method JoinSearch(words: seq<string>) returns (r: seq<int>)
      requires Valid() && words != []
      modifies this`wordRead, wordTrie, this`releasePending
      ensures Valid() && releasePending == (old(releasePending) || OnDisk())
      ensures r == JoinSerials(logs, words)
    {
      hide ListPart, ContentPart, Storable, Span, KeyTrieOf, WordTrieOf, LogFile.Saved, SomeLogStarts, WordSerials,
           JoinSerials, IsIntersection, SerialLists;
      LoadWordTrie();
      SetTimer();
      var lists := SearchWords(words);
      if lists == None {
        return [];
      }
      ListsSorted(logs, words, lists.value);
      r := Join(lists.value);
      JoinIsScan(logs, words, r);
    }

    /** The lists of the words, or None when a word has none. */
    method SearchWords(words: seq<string>) returns (lists: Option<seq<seq<int>>>)
      requires Valid() && wordRead && words != []
      ensures lists == None ==> JoinSerials(logs, words) == []
      ensures lists.Some? ==>
                |lists.value| == |words| && forall k | 0 <= k < |words| :: lists.value[k] == WordSerials(logs, words[k])
    {
      hide ListPart, ContentPart, Counters, KeyTrieOf, WordTrieOf, LogFile.Saved, SomeLogStarts, WordSerials,
           JoinSerials;
      var found: seq<seq<int>> := [];
      for i := 0 to |words|
        invariant |found| == i && forall k | 0 <= k < i :: found[k] == WordSerials(logs, words[k])
      {
        var list := wordTrie.Search(words[i]);
        WordIndexIsScan(logs, words[i]);
        if list == None {
          MissingWord(logs, words, i);
          return None;
        }
        found := found + [list.value];
      }
      lists := Some(found);
    }

    static lemma ListsSorted(logs: seq<Log>, words: seq<string>, lists: seq<seq<int>>)
      requires |lists| == |words| && forall k | 0 <= k < |lists| :: lists[k] == WordSerials(logs, words[k])
      ensures lists == SerialLists(logs, words) && AllSorted(lists)
    {
      hide WordSerials, Sorted;
      forall k | 0 <= k < |lists| ensures Sorted(lists[k]) { WordSerialsSorted(logs, words[k]); }
    }

    /** With a word that no log has, nothing is found. */
    static lemma MissingWord(logs: seq<Log>, words: seq<string>, i: nat)
      requires i < |words| && !SomeLogStarts(logs, words[i])
      ensures JoinSerials(logs, words) == []
    {
      hide WordSerials, JoinSerials, Common, SomeLogStarts;
      NoLogNoSerial(logs, words[i]);
      forall v { NothingCommon(SerialLists(logs, words), i, v); }
      JoinIsScan(logs, words, []);
    }

    /** Search_time_key: over the times of the key in order, the window of the list returned is
        what a scan finds. */
    method SearchTimeKey(start: nat, end: nat, key: string)
      returns (r: Option<seq<int>>, first: int, last: int, endSearch: bool)
      requires Valid()
      modifies this`keyRead, keyTrie, this`timestampRead, this`timestampList, this`releasePending
      ensures Valid() && endSearch == (start > endTime)
      ensures releasePending == (old(releasePending) || (OnDisk() && start <= endTime && startTime <= end))
      ensures r.Some? ==> 0 <= first <= last < |r.value| && r.value == KeySerials(logs, key)
      ensures FoundSerials(logs, key, start, end) == if r.Some? then r.value[first..last + 1] else []
      ensures InTurn(logs, key, start, end) || WindowSerials(logs, key, start, end) == [] ==>
                WindowSerials(logs, key, start, end) == if r.Some? then r.value[first..last + 1] else []
    {
      hide Valid, Span, KeySerials, WindowSerials, FoundSerials, InTurn;
      ValidSpan();
      if InTurn(logs, key, start, end) || WindowSerials(logs, key, start, end) == [] {
        FoundIsWindow(logs, key, start, end);
      }
      if start > endTime {
        NoneInSpan(logs, startTime, endTime, key, start, end);
        return None, 0, 0, true;
      }
      endSearch := false;
      if end < startTime {
        NoneInSpan(logs, startTime, endTime, key, start, end);
        return None, 0, 0, false;
      }
      r, first, last := SearchInSpan(start, end, key);
    }

    /** Search_time_key past the two tests of the time span. */
    method SearchInSpan(start: nat, end: nat, key: string) returns (r: Option<seq<int>>, first: int, last: int)
      requires Valid()
      modifies this`keyRead, keyTrie, this`timestampRead, this`timestampList, this`releasePending
      ensures Valid() && releasePending == (old(releasePending) || OnDisk())
      ensures r.Some? ==> 0 <= first <= last < |r.value| && r.value == KeySerials(logs, key)
      ensures FoundSerials(logs, key, start, end) == if r.Some? then r.value[first..last + 1] else []
    {
      hide ListPart, ContentPart, TriePart, Counters, TimesOf, KeySerials, FoundSerials;
      var list := SearchTimedKey(key);
      r, first, last := WindowOfKey(logs, key, list, timestampList, start, end);
    }

    lemma ValidSpan()
      requires Valid()
      ensures Span(logs, startTime, endTime)
    {
    }

    /** The window of a key's list, once that is found. */
    static method WindowOfKey(ghost logs: seq<Log>, ghost key: string, list: Option<seq<int>>, times: seq<int>,
                              start: nat, end: nat)
      returns (r: Option<seq<int>>, first: int, last: int)
      requires times == TimesOf(logs)
      requires if list == None then KeySerials(logs, key) == [] else list == Some(KeySerials(logs, key))
      ensures r.Some? ==> 0 <= first <= last < |r.value| && r == list
      ensures FoundSerials(logs, key, start, end) == if r.Some? then r.value[first..last + 1] else []
    {
      hide KeySerials, TimesOf, Sided, NoneWithin, Window, FoundBetween;
      KeySerialsSorted(logs, key);
      if list == None {
        NothingOfNone(start, end, times);
        return None, 0, 0;
      }
      var found;
      found, first, last := FindWindow(start, end, list.value, times);
      r := if found then list else None;
    }

    /** The loads and the key search of Search_time_key. */
    method SearchTimedKey(key: string) returns (list: Option<seq<int>>)
      requires Valid()
      modifies this`keyRead, keyTrie, this`timestampRead, this`timestampList, this`releasePending
      ensures Valid() && timestampList == TimesOf(logs) && releasePending == (old(releasePending) || OnDisk())
      ensures if list == None then KeySerials(logs, key) == [] else list == Some(KeySerials(logs, key))
    {
      hide OffsetsOf, Counters, ContentPart, KeyTrieOf, WordTrieOf, LogFile.Saved, RenderList, KeySerials, TimesOf,
           SomeKeyStarts;
      LoadTimestamp();
      list := SearchKey(key);
      if list == None { NoKeyNoSerial(logs, key); }
    }

    static lemma NoneInSpan(logs: seq<Log>, first: nat, last: nat, key: string, start: nat, end: nat)
      requires Span(logs, first, last) && (start > last || end < first)
      ensures WindowSerials(logs, key, start, end) == []
    {
      hide WindowSerials;
      OutsideWindow(logs, key, start, end);
    }

    /** A LogHandler made for a serial and its Get_content_ref: the record up to its newline. */
    method GetContentRef(serial: nat) returns (line: string)
      requires Valid() && serial < |logs|
      modifies this`offsetRead, this`offsetList, this`state, this`data, this`releasePending
      ensures Valid() && OnDisk() == old(OnDisk()) && (!OnDisk() ==> state == old(state))
      ensures data == old(data) || (OnDisk() && fresh(data))
      ensures line == FirstLine(Render(logs[serial]))
    {
      hide Valid, Render, TextOf, OffsetsOf, FirstLine, Holds;
      var offset := GetOffsetBySerial(serial);
      var buffer := GetData();
      assert AllNulFree(logs) by { LogsNulFree(); }
      LineAtOffset(logs, serial, buffer);
      line := FirstLine(buffer[offset..]);
    }

    lemma SizeIsLogs()
      requires Valid()
      ensures size == |logs|
    {
    }

    lemma OwnsData()
      requires Valid()
      ensures state != Init && (data != null ==> data.handler == this)
    {
    }

    lemma ReleasableIsOnDisk()
      requires Valid()
      ensures releasePending ==> OnDisk()
    {
    }

    lemma LogsStorable()
      requires Valid()
      ensures AllStorable(logs)
    {
    }

    lemma LogsNulFree()
      requires Valid()
      ensures AllNulFree(logs)
    {
      StorableParts(logs);
    }
  }
}
