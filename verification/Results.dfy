/** Query results: lines packed into chunks of bounded size for the result queue. */
module Results {
  import opened Text

  /** sizeof(logs_): what the other fields leave of QueryResult_SIZE. */
  const LOGS_SIZE := 4096 * 4 - 4 - 4 - 1

  /** One QueryResult as it goes into the queue. */
  datatype Chunk = Chunk(clientId: int, logs: string, begin: bool, finish: bool)

  class QueryResult {
    const clientId: int
    /** The offset_ bytes written so far; the rest of the array is zero. */
    var logs: string
    var begin: bool
    var finish: bool

    constructor (client: int)
      ensures clientId == client && logs == "" && !begin && !finish
    {
      clientId := client;
      logs, begin, finish := "", false, false;
    }

    /** Append: the length written, 0 when the text and two more bytes do not fit. */
    method Append(str: string) returns (len: nat)
      modifies this`logs
      ensures if |old(logs)| + |str| + 1 >= 16_375 then len == 0 && logs == old(logs)
              else len == |str| && logs == old(logs) + str
    {
      if |logs| + |str| + 1 >= LOGS_SIZE {
        return 0;
      }
      logs := logs + str;
      return |str|;
    }
  }

  function Flatten(lines: seq<string>): string {
    if lines == [] then "" else Flatten(lines[..|lines| - 1]) + lines[|lines| - 1]
  }

  function Joined(chunks: seq<Chunk>): string {
    if chunks == [] then "" else Joined(chunks[..|chunks| - 1]) + chunks[|chunks| - 1].logs
  }

  /** The texts into which lines are packed: a new one is begun only for a line that, with one byte
      more, does not fit behind the others within 16 375 bytes. */
  function Packed(lines: seq<string>): (r: seq<string>)
    ensures |r| > 0
  {
    if lines == [] then [""]
    else
      var front, line := Packed(lines[..|lines| - 1]), lines[|lines| - 1];
      var n := |front| - 1;
      if |front[n]| + |line| + 1 >= 16_375 then front + [line] else front[..n] + [front[n] + line]
  }

  /** Chunks of one reply that is not finished: each fits, only the first is marked as the begin. */
  ghost predicate Under(chunks: seq<Chunk>, clientId: int) {
    forall k | 0 <= k < |chunks| ::
      && chunks[k].clientId == clientId && |chunks[k].logs| + 1 < 16_375
      && chunks[k].begin == (k == 0) && !chunks[k].finish
  }

  /** The chunks have these texts. */
  ghost predicate Texts(chunks: seq<Chunk>, texts: seq<string>) {
    |chunks| == |texts| && forall k | 0 <= k < |chunks| :: chunks[k].logs == texts[k]
  }

  /** A whole reply: the lines in order, packed, then one chunk with the statistics, marked as the
      end. */
  ghost predicate Carries(chunks: seq<Chunk>, clientId: int, lines: seq<string>) {
    && |chunks| > 1
    && (var n := |chunks| - 1;
        && Under(chunks[..n], clientId) && Joined(chunks[..n]) == Flatten(lines) && Texts(chunks[..n], Packed(lines))
        && chunks[n].finish && !chunks[n].begin && chunks[n].clientId == clientId
        && exists elapsed: nat :: chunks[n].logs == Statistics(|lines|, elapsed))
  }

  /** The numbers are uint64_t. */
  function Statistics(count: nat, elapsed: nat): string {
    "Return " + Digits(count % 0x1_0000_0000_0000_0000) + " results use time "
    + Digits(elapsed % 0x1_0000_0000_0000_0000) + " microseconds \n"
  }

  /** The statistics name the number of lines and the time, in decimal. */
  lemma StatisticsText(count: nat, elapsed: nat)
    requires count < 0x1_0000_0000_0000_0000 && elapsed < 0x1_0000_0000_0000_0000
    ensures exists c, e :: Statistics(count, elapsed) == "Return " + c + " results use time " + e + " microseconds \n"
                           && Decimal(c) == count && Decimal(e) == elapsed
  {
    hide Digits, Decimal;
    DecimalText(count);
    DecimalText(elapsed);
    var c, e := Digits(count), Digits(elapsed);
    assert Statistics(count, elapsed) == "Return " + c + " results use time " + e + " microseconds \n";
  }

  lemma StatisticsFit(count: nat, elapsed: nat)
    ensures |Statistics(count, elapsed)| + 1 < 16_375
  {
    hide Digits;
    DigitsFew(count % 0x1_0000_0000_0000_0000);
    DigitsFew(elapsed % 0x1_0000_0000_0000_0000);
  }

  class QueryResultHandler {
    const clientId: int
    var result: QueryResult?
    /** What WriteToMsgQueue has put into the result queue. */
    var sent: seq<Chunk>
    var count: nat
    ghost var lines: seq<string>

    ghost predicate Valid()
      reads this, result
    {
      && result != null && result.clientId == clientId && !result.finish && result.begin == (sent == [])
      && |result.logs| + 1 < LOGS_SIZE && Under(sent, clientId)
      && Joined(sent) + result.logs == Flatten(lines) && count == |lines|
      && Packing(sent, result.logs, lines)
    }

    /** What has been sent and what stands in the result are the lines, packed. */
    static ghost predicate Packing(sent: seq<Chunk>, rest: string, lines: seq<string>) {
      var texts := Packed(lines);
      Texts(sent, texts[..|texts| - 1]) && rest == texts[|texts| - 1]
    }

    static lemma PackMore(sent: seq<Chunk>, rest: string, lines: seq<string>, line: string, chunk: Chunk)
      requires Packing(sent, rest, lines) && chunk.logs == rest
      ensures if |rest| + |line| + 1 >= 16_375 then Packing(sent + [chunk], line, lines + [line])
              else Packing(sent, rest + line, lines + [line])
    {
      assert (lines + [line])[..|lines|] == lines;
    }

    constructor (client: int)
      ensures Valid() && fresh(result) && clientId == client && lines == []
    {
      clientId := client;
      sent, count := [], 0;
      lines := [];
      new;
      result := new QueryResult(client);
      result.begin := true;
    }

    method Write()
      requires result != null
      modifies this`sent, this`result
      ensures sent == old(sent) + [Chunk(old(result).clientId, old(result).logs, old(result).begin, old(result).finish)]
      ensures result == null
    {
      sent := sent + [Chunk(result.clientId, result.logs, result.begin, result.finish)];
      result := null;
    }

    /** Append one line with its newline; a full chunk is sent first. */
    method Append(line: string)
      requires Valid() && line != [] && |line| + 1 < LOGS_SIZE
      modifies this`sent, this`result, this`count, this`lines, result
      ensures Valid() && lines == old(lines) + [line] && (result == old(result) || fresh(result))
    {
      hide Joined, Flatten, Under, Packing;
      FlattenMore(lines, line);
      PackMore(sent, result.logs, lines, line, Chunk(result.clientId, result.logs, result.begin, result.finish));
      var ret := result.Append(line);
      if ret == 0 {
        JoinedMore(sent, Chunk(result.clientId, result.logs, result.begin, result.finish));
        Write();
        result := new QueryResult(clientId);
        ret := result.Append(line);
        assert "" + line == line;
        assert sent != [];
      } else {
        assert Joined(sent) + (old(result.logs) + line) == (Joined(sent) + old(result.logs)) + line;
      }
      count := count + 1;
      lines := lines + [line];
    }

    /** Finish; elapsed is the time the clock has shown since the start. */
    method Finish(elapsed: nat) returns (chunks: seq<Chunk>)
      requires Valid()
      modifies this`sent, this`result, result
      ensures Carries(chunks, clientId, lines)
      ensures chunks[|chunks| - 1].logs == Statistics(|lines|, elapsed)
    {
      hide Joined, Flatten, Under, Statistics, Packing, Texts, Packed, Carries;
      StatisticsFit(count, elapsed);
      ghost var body := sent + [Chunk(result.clientId, result.logs, result.begin, result.finish)];
      AllPacked(sent, Chunk(result.clientId, result.logs, result.begin, result.finish), lines);
      JoinedMore(sent, Chunk(result.clientId, result.logs, result.begin, result.finish));
      Write();
      result := new QueryResult(clientId);
      var _ := result.Append(Statistics(count, elapsed));
      result.finish := true;
      assert result.logs == Statistics(count, elapsed);
      Write();
      chunks := sent;
      CarriesAll(body, clientId, lines, elapsed);
    }

    static lemma AllPacked(sent: seq<Chunk>, chunk: Chunk, lines: seq<string>)
      requires Packing(sent, chunk.logs, lines)
      ensures Texts(sent + [chunk], Packed(lines))
    {
      hide Packed;
      var texts := Packed(lines);
      assert texts == texts[..|texts| - 1] + [texts[|texts| - 1]];
    }

    static lemma CarriesAll(body: seq<Chunk>, clientId: int, lines: seq<string>, elapsed: nat)
      requires body != [] && Under(body, clientId) && Joined(body) == Flatten(lines) && Texts(body, Packed(lines))
      ensures var chunks := body + [Chunk(clientId, Statistics(|lines|, elapsed), false, true)];
              Carries(chunks, clientId, lines) && chunks[|chunks| - 1].logs == Statistics(|lines|, elapsed)
    {
      hide Under, Joined, Flatten, Texts, Packed, Statistics;
      var chunks := body + [Chunk(clientId, Statistics(|lines|, elapsed), false, true)];
      assert chunks[..|chunks| - 1] == body;
    }

    static lemma FlattenMore(lines: seq<string>, line: string)
      ensures Flatten(lines + [line]) == Flatten(lines) + line
    {
      assert (lines + [line])[..|lines|] == lines;
    }

    lemma JoinedMore(chunks: seq<Chunk>, chunk: Chunk)
      requires Under(chunks, clientId) && chunk.clientId == clientId && |chunk.logs| + 1 < LOGS_SIZE
      requires chunk.begin == (chunks == []) && !chunk.finish
      ensures Joined(chunks + [chunk]) == Joined(chunks) + chunk.logs && Under(chunks + [chunk], clientId)
    {
      assert (chunks + [chunk])[..|chunks|] == chunks;
    }
  }
}
