/** The text of a bulk: records one after another, each found again by its offset. */
module Records {
  import opened Wrappers
  import opened Text
  import opened Search
  import opened Logs

  predicate NulFree(s: string) {
    forall k | 0 <= k < |s| :: s[k] != NUL
  }

  /** The record Append_log writes for a log. */
  function Render(log: Log): (r: string)
    ensures r != [] && r[|r| - 1] == '\n'
  {
    "[key: " + log.key + ", time: " + Digits(log.time) + "] " + log.content + "\n"
  }

  function TextOf(logs: seq<Log>): string {
    if logs == [] then "" else TextOf(logs[..|logs| - 1]) + Render(logs[|logs| - 1])
  }

  function OffsetsOf(logs: seq<Log>): (r: seq<int>)
    ensures |r| == |logs|
  {
    if logs == [] then [] else OffsetsOf(logs[..|logs| - 1]) + [|TextOf(logs[..|logs| - 1])|]
  }

  function TimesOf(logs: seq<Log>): (r: seq<int>)
    ensures |r| == |logs| && forall k | 0 <= k < |r| :: r[k] == logs[k].time
  {
    seq(|logs|, k requires 0 <= k < |logs| => logs[k].time)
  }

  /** Find_char(s, '\n'): length up to the newline, or -1 when the string ends first. */
  function FindNewline(s: string): (r: int)
    ensures -1 <= r < |s|
    ensures r >= 0 ==> s[r] == '\n' && forall k | 0 <= k < r :: s[k] != '\n' && s[k] != NUL
  {
    if s == [] || s[0] == NUL then -1
    else if s[0] == '\n' then 0
    else var r := FindNewline(s[1..]); if r == -1 then -1 else r + 1
  }

  /** The first line of a text with its newline: what a reader of one record is shown. */
  function FirstLine(s: string): string {
    if FindNewline(s) == -1 then [] else s[..FindNewline(s) + 1]
  }

  /** The buffer of a bulk starts with the text and is zero after it. */
  ghost predicate Holds(buffer: string, text: string) {
    && |text| < |buffer| && buffer[..|text|] == text
    && forall k | |text| <= k < |buffer| :: buffer[k] == NUL
  }

  ghost predicate AllNulFree(logs: seq<Log>) {
    forall k | 0 <= k < |logs| :: NulFree(logs[k].key) && NulFree(logs[k].content)
  }

  lemma RenderNulFree(log: Log)
    requires NulFree(log.key) && NulFree(log.content)
    ensures NulFree(Render(log))
  {
    DigitsNulFree(log.time);
    hide Digits;
    var s := "[key: " + log.key + ", time: ";
    assert NulFree(s);
    assert NulFree(s + Digits(log.time) + "] ");
  }

  /** A record has at most 38 bytes besides its key and content. */
  lemma RenderShort(log: Log)
    requires log.time < 0x1_0000_0000_0000_0000
    ensures |Render(log)| <= |log.key| + |log.content| + 38
  {
    hide Digits;
    DigitsFew(log.time);
  }

  lemma DigitsNulFree(n: nat)
    ensures NulFree(Digits(n))
  {
    hide Digits;
    assert forall k | 0 <= k < |Digits(n)| :: IsDigit(Digits(n)[k]);
  }

  lemma {:induction false} TextNulFree(logs: seq<Log>)
    requires AllNulFree(logs)
    ensures NulFree(TextOf(logs))
  {
    hide Render, NulFree;
    if logs == [] {
      NulFreeConcat("", "");
    } else {
      var n := |logs| - 1;
      TextNulFree(logs[..n]);
      RenderNulFree(logs[n]);
      NulFreeConcat(TextOf(logs[..n]), Render(logs[n]));
    }
  }

  lemma NulFreeConcat(s: string, t: string)
    ensures NulFree("") && (NulFree(s) && NulFree(t) ==> NulFree(s + t))
  {
  }

  /** The text from a log's offset on starts with its record. */
  lemma {:induction false} RecordAtOffset(logs: seq<Log>, k: nat)
    requires k < |logs|
    ensures var off := OffsetsOf(logs)[k]; var text := TextOf(logs);
            0 <= off && off + |Render(logs[k])| <= |text| && text[off..off + |Render(logs[k])|] == Render(logs[k])
  {
    hide Render;
    var n := |logs| - 1;
    if k < n {
      RecordAtOffset(logs[..n], k);
      assert OffsetsOf(logs)[k] == OffsetsOf(logs[..n])[k];
    }
  }

  lemma {:induction false} FindNewlineIn(s: string, rest: string)
    requires s != [] && s[|s| - 1] == '\n' && NulFree(s)
    ensures FindNewline(s + rest) == FindNewline(s) && FindNewline(s) >= 0
    decreases |s|
  {
    if s[0] != '\n' {
      assert (s + rest)[1..] == s[1..] + rest;
      FindNewlineIn(s[1..], rest);
    }
  }

  lemma FirstLineIn(s: string, rest: string)
    requires s != [] && s[|s| - 1] == '\n' && NulFree(s)
    ensures FindNewline(s + rest) >= 0 && FirstLine(s + rest) == FirstLine(s)
  {
    FindNewlineIn(s, rest);
    assert FindNewline(s) < |s|;
    hide FindNewline;
    var n := FindNewline(s) + 1;
    assert (s + rest)[..n] == s[..n];
  }

  lemma SliceOf(buffer: string, text: string, off: nat, r: string)
    requires Holds(buffer, text) && off + |r| <= |text| && text[off..off + |r|] == r
    ensures off + |r| <= |buffer| && buffer[off..] == r + buffer[off + |r|..]
  {
    assert buffer[off..off + |r|] == buffer[..|text|][off..off + |r|];
  }

  /** Reading from the recorded offset to the newline gives the log's record up to its first
      newline, in any buffer that holds the bulk's text. */
  lemma LineAtOffset(logs: seq<Log>, k: nat, buffer: string)
    requires k < |logs| && Holds(buffer, TextOf(logs)) && AllNulFree(logs)
    ensures var off := OffsetsOf(logs)[k];
            0 <= off <= |buffer| && FindNewline(buffer[off..]) >= 0
            && FirstLine(buffer[off..]) == FirstLine(Render(logs[k]))
  {
    hide Render, TextOf, OffsetsOf, FindNewline, FirstLine, Holds;
    RecordAtOffset(logs, k);
    RenderNulFree(logs[k]);
    var off, r := OffsetsOf(logs)[k], Render(logs[k]);
    SliceOf(buffer, TextOf(logs), off, r);
    FirstLineIn(r, buffer[off + |r|..]);
  }

  /** ... which is the whole record exactly when neither key nor content has a newline. */
  lemma FirstLineIsRecord(log: Log)
    requires NulFree(log.key) && NulFree(log.content)
    ensures FirstLine(Render(log)) == Render(log) <==> '\n' !in log.key && '\n' !in log.content
  {
    var r := Render(log);
    RenderNulFree(log);
    FindNewlineIn(r, []);
    assert r + [] == r;
    RenderNewlines(log);
    if '\n' in log.key || '\n' in log.content {
      var i :| 0 <= i < |r| - 1 && r[i] == '\n';
      assert FindNewline(r) <= i;
    }
  }

  lemma RenderNewlines(log: Log)
    ensures var r := Render(log);
            (exists i :: 0 <= i < |r| - 1 && r[i] == '\n') <==> '\n' in log.key || '\n' in log.content
  {
    hide Digits;
    var r := Render(log);
    var a := "[key: ";
    var b := a + log.key + ", time: " + Digits(log.time) + "] ";
    assert r == b + log.content + "\n";
    assert '\n' !in Digits(log.time);
    assert '\n' !in a && '\n' !in ", time: " && '\n' !in "] ";
    if i :| 0 <= i < |log.content| && log.content[i] == '\n' { assert r[|b| + i] == '\n'; }
    if i :| 0 <= i < |log.key| && log.key[i] == '\n' { assert r[|a| + i] == '\n'; }
    if i :| 0 <= i < |r| - 1 && r[i] == '\n' {
      if i < |b| { assert b[i] in b; } else { assert log.content[i - |b|] == '\n'; }
    }
  }

  // ---- what a reader makes of a record ----

  /** The log in a record: the key up to the first comma, behind "[key: "; the digits behind
      ", time: " up to the bracket; and what stands between "] " and the last newline. */
  ghost function ReadRecord(s: string): Option<Log> {
    if |s| < 7 || s[..6] != "[key: " then None
    else
      var key := Until(s[6..], ',');
      ReadRest(key, s[6 + |key|..])
  }

  ghost function ReadRest(key: string, t: string): Option<Log> {
    if |t| < 8 || t[..8] != ", time: " then None
    else
      var digits := Until(t[8..], ']');
      ReadContent(key, digits, t[8 + |digits|..])
  }

  ghost function ReadContent(key: string, digits: string, u: string): Option<Log> {
    if |u| < 3 || u[..2] != "] " || u[|u| - 1] != '\n' || Decimal(digits) < 0 then None
    else Some(Log(key, Decimal(digits), u[2..|u| - 1]))
  }

  /** What stands in front of the first c. */
  ghost function Until(s: string, c: char): (r: string)
    ensures r <= s && c !in r && (|r| < |s| ==> s[|r|] == c)
  {
    if s == [] || s[0] == c then [] else [s[0]] + Until(s[1..], c)
  }

  lemma {:induction false} UntilIs(a: string, c: char, b: string)
    requires c !in a && b != [] && b[0] == c
    ensures Until(a + b, c) == a
  {
    if a == [] {
      assert a + b == b;
    } else {
      assert (a + b)[1..] == a[1..] + b;
      UntilIs(a[1..], c, b);
    }
  }

  /** A reader gets the log back from its record, if no comma is in its key. */
  lemma RecordReadBack(log: Log)
    requires ',' !in log.key
    ensures ReadRecord(Render(log)) == Some(log)
  {
    hide Digits, Until, Decimal, Render, ReadRest;
    var t := ", time: " + (Digits(log.time) + ("] " + log.content + "\n"));
    var s := "[key: " + (log.key + t);
    RecordParts(log);
    assert s[..6] == "[key: " && s[6..] == log.key + t;
    UntilIs(log.key, ',', t);
    assert s[6 + |log.key|..] == t;
    RestReadBack(log.key, log.time, log.content);
  }

  lemma RestReadBack(key: string, time: nat, content: string)
    ensures ReadRest(key, ", time: " + (Digits(time) + ("] " + content + "\n"))) == Some(Log(key, time, content))
  {
    hide Digits, Until, Decimal;
    var digits, u := Digits(time), "] " + content + "\n";
    var t := ", time: " + (digits + u);
    assert t[..8] == ", time: " && t[8..] == digits + u;
    DecimalText(time);
    assert ']' !in digits;
    UntilIs(digits, ']', u);
    assert t[8 + |digits|..] == u;
    assert u[..2] == "] " && u[2..|u| - 1] == content;
  }

  lemma RecordParts(log: Log)
    ensures Render(log) == "[key: " + (log.key + (", time: " + (Digits(log.time) + ("] " + log.content + "\n"))))
  {
    hide Digits;
  }

  /** What is shown of a record ends at its first newline. */
  lemma FirstLineEnds(log: Log)
    requires NulFree(log.key) && NulFree(log.content)
    ensures var line := FirstLine(Render(log));
            line != "" && line <= Render(log) && line[|line| - 1] == '\n' && '\n' !in line[..|line| - 1]
  {
    hide FindNewline, Render;
    var r := Render(log);
    RenderNulFree(log);
    FindNewlineIn(r, []);
    assert r + [] == r;
  }

  // ---- the logs of a key in a time window ----

  ghost predicate Chronological(logs: seq<Log>, key: string) {
    forall i, j | 0 <= i < j < |logs| && logs[i].key == key && logs[j].key == key :: logs[i].time <= logs[j].time
  }

  predicate Wanted(log: Log, key: string, start: int, end: int) {
    log.key == key && start <= log.time <= end
  }

  /** The scan for the logs with the key and a time in start..end, in append order. */
  function WindowSerials(logs: seq<Log>, key: string, start: int, end: int): seq<int> {
    if logs == [] then []
    else
      var n := |logs| - 1;
      WindowSerials(logs[..n], key, start, end) + (if Wanted(logs[n], key, start, end) then [n] else [])
  }

  /** The entries of a list with a time in start..end. */
  ghost function Within(list: seq<int>, times: seq<int>, start: int, end: int): seq<int>
    requires Indexes(list, times)
  {
    if list == [] then []
    else
      var n := |list| - 1;
      Within(list[..n], times, start, end) + (if start <= times[list[n]] <= end then [list[n]] else [])
  }

  lemma {:induction false} WithinWindow(list: seq<int>, times: seq<int>, start: int, end: int, first: int, last: int)
    requires Indexes(list, times) && Window(start, end, list, times, first, last)
    ensures Within(list, times, start, end) == list[first..last + 1]
  {
    var n := |list| - 1;
    if last < n {
      WithinWindow(list[..n], times, start, end, first, last);
      assert list[..n][first..last + 1] == list[first..last + 1];
    } else if first < n {
      WithinWindow(list[..n], times, start, end, first, n - 1);
      assert list[first..n + 1] == list[first..n] + [list[n]];
    } else {
      NothingWithin(list[..n], times, start, end);
    }
  }

  lemma {:induction false} NothingWithin(list: seq<int>, times: seq<int>, start: int, end: int)
    requires Indexes(list, times) && NoneWithin(start, end, list, times)
    ensures Within(list, times, start, end) == []
  {
    if list != [] { NothingWithin(list[..|list| - 1], times, start, end); }
  }

  lemma {:induction false} WithinMoreTimes(list: seq<int>, times: seq<int>, more: seq<int>, start: int, end: int)
    requires Indexes(list, times)
    ensures Within(list, times + more, start, end) == Within(list, times, start, end)
  {
    if list != [] { WithinMoreTimes(list[..|list| - 1], times, more, start, end); }
  }

  lemma {:induction false} WindowIsWithin(logs: seq<Log>, key: string, start: int, end: int)
    ensures Indexes(KeySerials(logs, key), TimesOf(logs))
    ensures WindowSerials(logs, key, start, end) == Within(KeySerials(logs, key), TimesOf(logs), start, end)
  {
    KeySerialsSorted(logs, key);
    if logs != [] {
      var n := |logs| - 1;
      WindowIsWithin(logs[..n], key, start, end);
      var list := KeySerials(logs[..n], key);
      assert TimesOf(logs) == TimesOf(logs[..n]) + [logs[n].time];
      WithinMoreTimes(list, TimesOf(logs[..n]), [logs[n].time], start, end);
      if logs[n].key == key {
        assert (list + [n])[..|list|] == list;
      } else {
        assert list + [] == list;
      }
    }
  }

  /** Of the logs of a key, those before the window come first and those behind it last. */
  ghost predicate InTurn(logs: seq<Log>, key: string, start: int, end: int) {
    forall i, j | 0 <= i < j < |logs| && logs[i].key == key && logs[j].key == key ::
      (logs[i].time >= start ==> logs[j].time >= start) && (logs[j].time <= end ==> logs[i].time <= end)
  }

  /** Logs in order are in turn for every window, and logs in any order for a window that has them
      all. */
  lemma OrderedOrCovered(logs: seq<Log>, key: string, start: int, end: int)
    requires Chronological(logs, key) || forall k | 0 <= k < |logs| && logs[k].key == key :: start <= logs[k].time <= end
    ensures InTurn(logs, key, start, end)
  {
  }

  /** What the two searches of Search_time_key find in a bulk, whatever the order of its times. */
  ghost function FoundSerials(logs: seq<Log>, key: string, start: int, end: int): (r: seq<int>)
    ensures forall k | 0 <= k < |r| :: 0 <= r[k] < |logs| && logs[r[k]].key == key
  {
    KeySerialsSorted(logs, key);
    FoundBetween(start, end, KeySerials(logs, key), TimesOf(logs))
  }

  /** It is what a scan finds for logs in turn, and in any order when there is nothing to find. */
  lemma FoundIsWindow(logs: seq<Log>, key: string, start: int, end: int)
    requires InTurn(logs, key, start, end) || WindowSerials(logs, key, start, end) == []
    ensures FoundSerials(logs, key, start, end) == WindowSerials(logs, key, start, end)
  {
    hide KeySerials, ReachAlong, Boundary, Within, WindowSerials;
    KeySerialsSorted(logs, key);
    WindowIsWithin(logs, key, start, end);
    var list, times := KeySerials(logs, key), TimesOf(logs);
    if WindowSerials(logs, key, start, end) == [] {
      NothingWithinNone(list, times, start, end);
      NothingBetween(start, end, list, times);
    } else {
      assert Sided(start, end, list, times) by { SidedKey(logs, key, start, end); }
      FoundIsWithin(list, times, start, end);
    }
  }

  lemma SidedKey(logs: seq<Log>, key: string, start: int, end: int)
    requires InTurn(logs, key, start, end)
    ensures Indexes(KeySerials(logs, key), TimesOf(logs))
    ensures Sided(start, end, KeySerials(logs, key), TimesOf(logs))
  {
    hide KeySerials;
    KeySerialsSorted(logs, key);
    var list := KeySerials(logs, key);
    forall i, j | 0 <= i < j < |list| ensures list[i] <= list[j] && logs[list[i]].key == key && logs[list[j]].key == key {
    }
  }

  lemma FoundIsWithin(list: seq<int>, times: seq<int>, start: int, end: int)
    requires Indexes(list, times) && Sided(start, end, list, times)
    ensures FoundBetween(start, end, list, times) == Within(list, times, start, end)
  {
    hide ReachAlong, Boundary, Within;
    var first := Boundary(ReachAlong(list, times, start));
    var behind := Boundary(ReachAlong(list, times, end + 1));
    if first < behind {
      WithinWindow(list, times, start, end, first, behind - 1);
    } else {
      NothingWithin(list, times, start, end);
    }
  }

  lemma {:induction false} NothingWithinNone(list: seq<int>, times: seq<int>, start: int, end: int)
    requires Indexes(list, times) && Within(list, times, start, end) == []
    ensures NoneWithin(start, end, list, times)
  {
    if list != [] { NothingWithinNone(list[..|list| - 1], times, start, end); }
  }

  /** Nothing is wanted of logs that all end before the window or all start behind it. */
  lemma {:induction false} OutsideWindow(logs: seq<Log>, key: string, start: int, end: int)
    requires (forall k | 0 <= k < |logs| :: logs[k].time < start) || (forall k | 0 <= k < |logs| :: logs[k].time > end)
    ensures WindowSerials(logs, key, start, end) == []
  {
    if logs != [] { OutsideWindow(logs[..|logs| - 1], key, start, end); }
  }
}
