/** What the store answers to a request, given its logs: the lines of each query and the remarks the
    program adds. */
module Answers {
  import opened Text
  import opened Logs
  import opened Records
  import opened Bulk
  import opened Scan
  import opened Results
  import Request

  const MAX_NUM_RESULT := 50000

  /** Answers are sent with one byte behind them, as a log is with its newline. */
  const NO_RESULT := "No result found\n" + [NUL]
  const INVALID_ANSWER := "Not a search req\n" + [NUL]

  /** ReqData::Valid. */
  predicate ValidReq(req: Request.ReqData) {
    match req.kind
    case Append => req.key != "" && req.time != 0
    case Recent => req.count != 0 && req.clientId > 0
    case Getkey => req.key != "" && req.clientId > 0
    case Search => req.keyword != "" && req.clientId > 0
    case SearchTime => req.key != "" && req.start != 0 && req.end != 0 && req.clientId > 0
    case Persistence => req.clientId > 0
    case LogCount => req.clientId > 0
    case Invalid => false
  }

  /** Which requests are accepted, by their kind and fields. */
  lemma ValidByFields(req: Request.ReqData)
    ensures ValidReq(req) <==>
              || (req.kind == Request.Append && |req.key| > 0 && req.time > 0)
              || (req.kind == Request.Recent && req.count > 0 && req.clientId > 0)
              || (req.kind == Request.Getkey && |req.key| > 0 && req.clientId > 0)
              || (req.kind == Request.Search && |req.keyword| > 0 && req.clientId > 0)
              || (req.kind == Request.SearchTime && |req.key| > 0 && req.start > 0 && req.end > 0 && req.clientId > 0)
              || (req.kind == Request.Persistence && req.clientId > 0)
              || (req.kind == Request.LogCount && req.clientId > 0)
  {
  }

  /** The remarks, as they are sent. */
  lemma Remarks()
    ensures NO_RESULT == "No result found\n\0" && INVALID_ANSWER == "Not a search req\n\0"
  {
  }

  function Answer(lines: seq<string>): seq<string> {
    if lines == [] then [NO_RESULT] else lines
  }

  /** A uint64_t time put into an int and widened again. */
  function Narrowed(time: nat): nat {
    var t := Request.ToInt(time);
    if t < 0 then t + Request.TWO_TO_64 else t
  }

  /** Only times that fit into an int, or that a negative int stands for, stay what they are. */
  lemma NarrowedExact(time: nat)
    requires time < Request.TWO_TO_64
    ensures Narrowed(time) == time <==> time < 0x8000_0000 || time >= Request.TWO_TO_64 - 0x8000_0000
  {
  }

  /** The low 32 bits of a time, taken for a signed number and that for a uint64_t. */
  lemma NarrowedIs(time: nat)
    ensures Narrowed(time) < 0x8000_0000 || 0xffff_ffff_8000_0000 <= Narrowed(time) < 0x1_0000_0000_0000_0000
    ensures (Narrowed(time) - time) % 0x1_0000_0000 == 0
  {
    hide Request.ToInt;
    Request.ToIntIs(time);
    var t := Request.ToInt(time);
    if t < 0 { assert (t + Request.TWO_TO_64 - time) % 0x1_0000_0000 == (t - time) % 0x1_0000_0000; }
  }

  /** The number as a uint64_t. */
  function CountAnswer(count: nat): string {
    "Now record log count is " + Digits(count % Request.TWO_TO_64) + "\n" + [NUL]
  }

  /** The answer names the number of logs, in decimal. */
  lemma CountRead(count: nat)
    requires count < 0x1_0000_0000_0000_0000
    ensures exists digits :: CountAnswer(count) == "Now record log count is " + digits + "\n\0" && Decimal(digits) == count
  {
    hide Digits, Decimal;
    DecimalText(count);
    assert CountAnswer(count) == "Now record log count is " + Digits(count) + "\n\0";
  }

  /** What a search for words shows, but for the limit, when it is answered. */
  function HitLines(logs: seq<Log>, words: seq<string>): seq<string> {
    if |words| < 2 then [] else Newest(logs, WordHits(words))
  }

  function RecentLines(logs: seq<Log>, count: int): seq<string> {
    Take(Newest(logs, EveryLog()), if count < 0 then 0 else count)
  }

  function LogOf(req: Request.ReqData): Log {
    Log(req.key, req.time, req.content)
  }

  /** What a query with a limit shows: the lines up to it, and the remark about no result, which
      the program makes when the limit is used up to the last one. */
  function Limited(lines: seq<string>): seq<string> {
    Take(lines, MAX_NUM_RESULT + 1) + if |lines| == MAX_NUM_RESULT then [NO_RESULT] else []
  }

  /** Up to 50 001 lines are shown, and the remark is made exactly behind 50 000. */
  lemma LimitedIs(lines: seq<string>)
    ensures Limited(lines) ==
              if |lines| == 50_000 then lines + ["No result found\n\0"]
              else if |lines| <= 50_001 then lines else lines[..50_001]
  {
    Remarks();
  }

  /** What a client can send and the server parse is a log the store takes, exactly unless the
      content has one of the three blanks that are no delimiters. */
  lemma RequestBecomesLog(key: string, time: nat, content: string)
    requires Request.CanSend(key, time, content) && |Request.Render(key, time, content)| <= 1030
    ensures var req := Request.Parse(Request.Message(Request.Render(key, time, content)));
            && req.Some? && ValidReq(req.value) && req.value.kind == Request.Append
            && LogOf(req.value) == Log(key, time, content)
            && (Storable(LogOf(req.value)) <==> NoOddSpaceIn(content))
  {
    hide Request.Render, Request.Parse, Request.Message;
    Request.RequestRoundTrip(key, time, content);
    Request.TextFits(key, time, content);
    assert forall k | 0 <= k < |key| :: !IsSpace(key[k]) && key[k] != NUL;
  }

  /** Results hold any line of a log. */
  lemma ShownFits(log: Log)
    requires Storable(log)
    ensures Shown(log) != [] && |Shown(log)| + 1 < LOGS_SIZE
  {
    hide FindNewline, Digits, Clean;
    RenderShort(log);
    RenderNulFree(log);
    FindNewlineIn(Render(log), []);
    assert Render(log) + [] == Render(log);
  }

  lemma {:induction false} BackwardsAt(logs: seq<Log>, serials: seq<int>, m: nat)
    requires Below(serials, |logs|) && m < |serials|
    ensures Backwards(logs, serials)[m] == Shown(logs[serials[|serials| - 1 - m]])
  {
    hide Shown;
    if m > 0 { BackwardsAt(logs, serials[..|serials| - 1], m - 1); }
  }
}
