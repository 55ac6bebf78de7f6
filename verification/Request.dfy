/** The append request: how the client renders it and how the server parses it by cutting the
    receive buffer. */
module Request {
  import opened Wrappers
  import opened Text
  import opened Percent

  const KEY_LEN := 16
  const STR_LEN := 1024
  const CLIENT_STR_LEN := 1024
  const SEARCH_KEYWORD_LEN := 32
  const LONG_MAX := 0x7fff_ffff_ffff_ffff
  const LONG_MIN := -0x8000_0000_0000_0000
  const TWO_TO_64 := 0x1_0000_0000_0000_0000
  const TWO_TO_32 := 0x1_0000_0000

  datatype ReqType = Invalid | Append | Recent | Getkey | Search | SearchTime | LogCount | Persistence

  datatype ReqData = ReqData(
    kind: ReqType,
    key: string,
    time: nat,
    content: string,
    keyword: string,
    clientId: int,
    count: nat,
    start: nat,
    end: nat)

  const NEW_REQ := ReqData(Invalid, "", 0, "", "", 0, 0, 0, 0)

  // ---- C helpers ----

  /** Find_char: position of c, or -1 when the string, the word or the line ends first. */
  function FindChar(s: string, c: char): (r: int)
    ensures -1 <= r < |s|
    ensures r >= 0 ==> s[r] == c && forall k | 0 <= k < r :: s[k] != c && s[k] != NUL && s[k] != ' ' && s[k] != '\n'
  {
    if s == [] then -1
    else if s[0] == c then 0
    else if s[0] == NUL || s[0] == ' ' || s[0] == '\n' then -1
    else var r := FindChar(s[1..], c); if r == -1 then -1 else r + 1
  }

  /** lgy_strncpy into a field of n+1 bytes, read back as a C string. */
  function CopyTo(s: string, n: nat): string {
    var t := CString(s);
    if |t| <= n then t else t[..n]
  }

  predicate IsDigitOf(c: char, base: nat) {
    if base == 16 then IsHex(c) else '0' <= c <= '9' && (base == 8 ==> c <= '7')
  }

  function DigitOf(c: char, base: nat): nat
    requires IsDigitOf(c, base)
  {
    if base == 16 then HexValue(c) else c as int - '0' as int
  }

  /** Value of the digits of the base at the head of s. */
  function DigitsFrom(s: string, base: nat, sofar: nat): nat {
    if s == [] || !IsDigitOf(s[0], base) then sofar else DigitsFrom(s[1..], base, base * sofar + DigitOf(s[0], base))
  }

  function Clamp(v: int): int {
    if v > LONG_MAX then LONG_MAX else if v < LONG_MIN then LONG_MIN else v
  }

  /** strtol(s, &end, 0): blanks, a sign, then hexadecimal after 0x, octal after 0, else decimal. */
  function Strtol(s: string): int {
    var t := SkipSpaces(s);
    var negative := t != [] && t[0] == '-';
    var u := if t != [] && (t[0] == '-' || t[0] == '+') then t[1..] else t;
    var v :=
      if |u| >= 3 && u[0] == '0' && (u[1] == 'x' || u[1] == 'X') && IsHex(u[2]) then DigitsFrom(u[2..], 16, 0)
      else if u != [] && u[0] == '0' then DigitsFrom(u, 8, 0)
      else DigitsFrom(u, 10, 0);
    Clamp(if negative then -(v as int) else v)
  }

  /** The number of a parameter as uint64_t, unless it is one of the values taken for a failure. */
  function Number(s: string): Option<nat> {
    var v := Strtol(s);
    if v == 0 || v == LONG_MAX || v == LONG_MIN then None
    else Some(if v < 0 then v + TWO_TO_64 else v)
  }

  /** uint64_t to int. */
  function ToInt(n: nat): int {
    var m := n % TWO_TO_32;
    if m >= 0x8000_0000 then m - TWO_TO_32 else m
  }

  /** The low 32 bits, as a signed number. */
  lemma ToIntIs(n: nat)
    ensures -0x8000_0000 <= ToInt(n) < 0x8000_0000 && (ToInt(n) - n) % 0x1_0000_0000 == 0
    ensures n < 0x8000_0000 ==> ToInt(n) == n
  {
    var m := n % TWO_TO_32;
    assert (m - n) % TWO_TO_32 == 0 by { assert m - n == -(n / TWO_TO_32) * TWO_TO_32; }
    if m >= 0x8000_0000 { assert (m - TWO_TO_32 - n) == (-(n / TWO_TO_32) - 1) * TWO_TO_32; }
  }

  // ---- Get_parameter ----

  datatype ParameterType = NoParameter | KeyP | TimeP | ContentP | CountP | KeywordP | StartP | EndP | IdP

  /** The name is matched by prefix, keyword before key. */
  function ParameterOf(str: string): ParameterType {
    if "keyword" <= str then KeywordP
    else if "key" <= str then KeyP
    else if "time" <= str then TimeP
    else if "content" <= str then ContentP
    else if "count" <= str then CountP
    else if "start" <= str then StartP
    else if "end" <= str then EndP
    else if "id" <= str then IdP
    else NoParameter
  }

  /** Get_parameter on a C string: the request with the parameter set, or as it was. */
  function GetParameter(str: string, d: ReqData): ReqData {
    var index := FindChar(str, '=');
    if index == -1 then d
    else
      var value := str[index + 1..];
      match ParameterOf(str)
      case KeyP => d.(key := CopyTo(Decode(value), KEY_LEN - 1))
      case ContentP => d.(content := CopyTo(Decode(value), STR_LEN - 1))
      case KeywordP => d.(keyword := CopyTo(Decode(value), SEARCH_KEYWORD_LEN - 1))
      case TimeP => (match Number(value) case None => d case Some(n) => d.(time := n))
      case StartP => (match Number(value) case None => d case Some(n) => d.(start := n))
      case EndP => (match Number(value) case None => d case Some(n) => d.(end := n))
      case CountP => (match Number(value) case None => d case Some(n) => d.(count := n))
      case IdP => (match Number(value) case None => d case Some(n) => d.(clientId := ToInt(n)))
      case NoParameter => d
  }

  // ---- ParseReq ----

  function SkipAmpersands(p: string): (r: string)
    ensures |r| <= |p|
  {
    if p != [] && p[0] == '&' then SkipAmpersands(p[1..]) else p
  }

  /** The parameter loop over the text between '?' and the blank. */
  function Params(p: string, d: ReqData): ReqData
    decreases |p|
  {
    var q := SkipAmpersands(p);
    var sep := FindChar(q, '&');
    if sep == -1 then GetParameter(q, d)
    else Params(q[sep + 1..], GetParameter(q[..sep], d))
  }

  /** The request type and the length of its name. */
  function KindOf(s: string): Option<(ReqType, nat)> {
    if "append" <= s then Some((Append, 6))
    else if "recent" <= s then Some((Recent, 6))
    else if "getkey" <= s then Some((Getkey, 6))
    else if "persistence" <= s then Some((Persistence, 11))
    else if "searchtime" <= s then Some((SearchTime, 10))
    else if "search" <= s then Some((Search, 6))
    else if "logcount" <= s then Some((LogCount, 8))
    else None
  }

  /** What ParseReq makes of a buffer; None for a null result. */
  function Parse(s: string): Option<ReqData> {
    if !("GET" <= s) || |s| <= 4 || s[4] != '/' then None
    else
      match KindOf(s[5..])
      case None => None
      case Some((kind, len)) =>
        var t := s[5 + len..];
        var sep := FindChar(t, '?');
        if sep == -1 then Some(NEW_REQ.(kind := kind))
        else
          var u := t[sep + 1..];
          var space := FindChar(u, ' ');
          if space == -1 then None else Some(Params(u[..space], NEW_REQ).(kind := kind))
  }

  // ---- the client ----

  /** The request text of cody_log and cody_log_string. */
  function Render(key: string, time: nat, content: string): string
    requires Bytes(content)
  {
    "GET /append?" + "key=" + key + "&" + "time=" + Digits(time) + "&" + "content=" + Encode(content) + "&" + " HTTP/1.1"
  }

  /** The message buffer: the first CLIENT_STR_LEN-2 bytes of the text, zeros after. */
  function Message(text: string): (r: string)
    ensures |r| == CLIENT_STR_LEN
  {
    var kept := if |text| <= CLIENT_STR_LEN - 2 then text else text[..CLIENT_STR_LEN - 2];
    kept + seq(CLIENT_STR_LEN - |kept|, _ => NUL)
  }

  predicate IsUnreserved(c: char) {
    'A' <= c <= 'Z' || 'a' <= c <= 'z' || '0' <= c <= '9' || c == '-' || c == '.' || c == '_' || c == '~'
  }

  // ---- the round trip ----

  /** No byte that ends a search early. */
  predicate Plain(s: string) {
    forall k | 0 <= k < |s| :: s[k] != NUL && s[k] != ' ' && s[k] != '\n' && s[k] != '&' && s[k] != '?'
  }

  lemma {:induction false} FindCharAt(s: string, c: char, rest: string)
    requires forall k | 0 <= k < |s| :: s[k] != c && s[k] != NUL && s[k] != ' ' && s[k] != '\n'
    ensures FindChar(s + [c] + rest, c) == |s|
    ensures rest != [] && (rest[0] == NUL || rest[0] == ' ' || rest[0] == '\n') && rest[0] != c ==>
              FindChar(s + rest, c) == -1
    ensures FindChar(s, c) == -1
  {
    if s != [] {
      assert (s + [c] + rest)[1..] == s[1..] + [c] + rest;
      assert (s + rest)[1..] == s[1..] + rest;
      FindCharAt(s[1..], c, rest);
    }
  }

  lemma {:induction false} DigitsFromLast(s: string, c: char, sofar: nat)
    requires (forall k | 0 <= k < |s| :: IsDigit(s[k])) && IsDigit(c)
    ensures DigitsFrom(s + [c], 10, sofar) == 10 * DigitsFrom(s, 10, sofar) + DigitValue(c)
    decreases |s|
  {
    if s == [] {
      assert s + [c] == [c];
      assert [c][1..] == [];
    } else {
      assert (s + [c])[1..] == s[1..] + [c];
      DigitsFromLast(s[1..], c, 10 * sofar + DigitOf(s[0], 10));
    }
  }

  lemma {:induction false} DigitsFromOf(n: nat)
    ensures DigitsFrom(Digits(n), 10, 0) == n
    ensures n > 0 ==> Digits(n)[0] != '0'
  {
    if n < 10 {
      assert Digits(n) == [] + [DigitChar(n)];
      DigitsFromLast([], DigitChar(n), 0);
    } else {
      DigitsFromOf(n / 10);
      DigitsFromLast(Digits(n / 10), DigitChar(n % 10), 0);
    }
  }

  /** A positive decimal below LONG_MAX is parsed as itself. */
  lemma NumberOfDigits(n: nat)
    requires 0 < n < LONG_MAX
    ensures Number(Digits(n)) == Some(n)
  {
    hide Digits, DigitsFrom;
    DigitsFromOf(n);
    var s := Digits(n);
    assert IsDigit(s[0]);
    assert SkipSpaces(s) == s;
  }

  lemma ParamsStep(chunk: string, rest: string, d: ReqData)
    requires chunk != [] && Plain(chunk)
    ensures Params(chunk + "&" + rest, d) == Params(rest, GetParameter(chunk, d))
  {
    hide GetParameter, FindChar;
    var p := chunk + "&" + rest;
    assert p[0] == chunk[0];
    assert SkipAmpersands(p) == p;
    FindCharAt(chunk, '&', rest);
    assert p[..|chunk|] == chunk && p[|chunk| + 1..] == rest;
  }

  lemma KeyParameter(key: string, d: ReqData)
    requires 1 <= |key| <= KEY_LEN - 1 && forall k | 0 <= k < |key| :: IsUnreserved(key[k])
    ensures GetParameter("key=" + key, d) == d.(key := key)
    ensures Plain("key=" + key)
  {
    hide Decode, CString, FindChar;
    var str := "key=" + key;
    FindCharAt("key", '=', key);
    assert str == "key" + ['='] + key && str[4..] == key;
    assert str[3] == '=';
    DecodePlain(key);
    CStringOf(key);
  }

  lemma TimeParameter(n: nat, d: ReqData)
    requires 0 < n < LONG_MAX
    ensures GetParameter("time=" + Digits(n), d) == d.(time := n)
    ensures Plain("time=" + Digits(n))
  {
    hide Digits, Number, FindChar;
    var str := "time=" + Digits(n);
    FindCharAt("time", '=', Digits(n));
    assert str == "time" + ['='] + Digits(n) && str[5..] == Digits(n);
    assert str[0] == 't';
    NumberOfDigits(n);
    assert forall k | 0 <= k < |Digits(n)| :: IsDigit(Digits(n)[k]);
  }

  lemma ContentIsPlain(content: string)
    requires Bytes(content)
    ensures Plain("content=" + Encode(content))
  {
    hide Encode;
    EncodeAlphabet(content);
    var e := Encode(content);
    assert forall k | 0 <= k < |e| :: e[k] != NUL && e[k] != ' ' && e[k] != '\n' && e[k] != '&' && e[k] != '?';
  }

  lemma ContentParameter(content: string, d: ReqData)
    requires Bytes(content) && |content| <= STR_LEN - 1
    ensures GetParameter("content=" + Encode(content), d) == d.(content := content)
  {
    hide Decode, Encode, FindChar, ParameterOf, Number, ToInt, Bytes;
    var e := Encode(content);
    var str := "content=" + e;
    NameOfContent(e);
    FindCharAt("content", '=', e);
    assert str == "content" + ['='] + e && str[8..] == e;
    DecodeEncode(content);
    BytesHaveNoNul(content);
    CStringOf(content);
  }

  lemma NameOfContent(e: string)
    ensures ParameterOf("content=" + e) == ContentP
  {
    var str := "content=" + e;
    assert str[..7] == "content";
    assert str[0] == 'c' && "keyword"[0] == 'k' && "key"[0] == 'k' && "time"[0] == 't';
  }

  lemma BytesHaveNoNul(s: string)
    requires Bytes(s)
    ensures NUL !in s
  {
  }

  /** The parameters between '?' and the blank. */
  function ParameterText(key: string, time: nat, content: string): string
    requires Bytes(content)
  {
    "key=" + key + "&" + ("time=" + Digits(time) + "&" + ("content=" + Encode(content) + "&"))
  }

  ghost predicate CanSend(key: string, time: nat, content: string) {
    && 1 <= |key| <= KEY_LEN - 1 && (forall k | 0 <= k < |key| :: IsUnreserved(key[k]))
    && 0 < time < LONG_MAX && Bytes(content)
  }

  lemma ParamsOf(key: string, time: nat, content: string)
    requires CanSend(key, time, content) && |content| <= STR_LEN - 1
    ensures Params(ParameterText(key, time, content), NEW_REQ) == NEW_REQ.(key := key, time := time, content := content)
  {
    hide GetParameter, Digits, Encode, Params, Plain;
    var d1 := NEW_REQ.(key := key);
    var d2 := d1.(time := time);
    var d3 := d2.(content := content);
    var c := "content=" + Encode(content) + "&";
    var t := "time=" + Digits(time) + "&" + c;
    KeyParameter(key, NEW_REQ);
    TimeParameter(time, d1);
    ContentParameter(content, d2);
    ContentIsPlain(content);
    ParamsStep("key=" + key, t, NEW_REQ);
    ParamsStep("time=" + Digits(time), c, d1);
    ParamsStep("content=" + Encode(content), "", d2);
    assert c == "content=" + Encode(content) + "&" + "";
    NoParams(d3);
  }

  lemma NoParams(d: ReqData)
    ensures Params("", d) == d
  {
  }

  /** No blank, newline, NUL or '?' among the parameters. */
  lemma ParameterTextHasNoBlank(key: string, time: nat, content: string)
    requires CanSend(key, time, content)
    ensures var p := ParameterText(key, time, content);
            forall k | 0 <= k < |p| :: p[k] != NUL && p[k] != ' ' && p[k] != '\n'
  {
    hide Encode, Digits;
    EncodeAlphabet(content);
    assert forall k | 0 <= k < |Digits(time)| :: IsDigit(Digits(time)[k]);
    var c := "content=" + Encode(content) + "&";
    assert forall k | 0 <= k < |c| :: c[k] != NUL && c[k] != ' ' && c[k] != '\n';
    var t := "time=" + Digits(time) + "&" + c;
    assert forall k | 0 <= k < |t| :: t[k] != NUL && t[k] != ' ' && t[k] != '\n';
  }

  lemma RenderIs(key: string, time: nat, content: string)
    requires Bytes(content)
    ensures Render(key, time, content) == "GET /append?" + ParameterText(key, time, content) + " HTTP/1.1"
  {
    hide Encode, Digits;
  }

  /** The request text, written out. */
  lemma RenderText(key: string, time: nat, content: string)
    requires Bytes(content)
    ensures Render(key, time, content) ==
              "GET /append?key=" + key + "&time=" + Digits(time) + "&content=" + Encode(content) + "& HTTP/1.1"
  {
    hide Encode, Digits;
    assert "GET /append?" + "key=" == "GET /append?key=" && "&" + " HTTP/1.1" == "& HTTP/1.1";
    assert "&" + "time=" == "&time=" && "&" + "content=" == "&content=";
  }

  /** Parsing up to the parameters. */
  lemma ParseAppend(rest: string)
    ensures var space := FindChar(rest, ' ');
            Parse("GET /append?" + rest) ==
              if space == -1 then None else Some(Params(rest[..space], NEW_REQ).(kind := Append))
  {
    hide Params;
    var s := "GET /append?" + rest;
    assert s[..3] == "GET" && s[4] == '/';
    assert s[5..] == "append?" + rest;
    assert s[5..][..6] == "append";
    assert s[11..] == "?" + rest;
    assert s[11..][1..] == rest;
  }

  /** The request arrives exactly as sent if its blank after the parameters is within the message,
      that is, if the text has at most 1030 bytes; a longer one is rejected. */
  lemma RequestRoundTrip(key: string, time: nat, content: string)
    requires CanSend(key, time, content)
    ensures var text := Render(key, time, content);
            Parse(Message(text)) ==
              if |text| <= 1030 then Some(NEW_REQ.(kind := Append, key := key, time := time, content := content)) else None
  {
    hide Params, FindChar, ParameterText, Parse, Render, Plain;
    var text := Render(key, time, content);
    var p := ParameterText(key, time, content);
    RenderIs(key, time, content);
    ParameterTextHasNoBlank(key, time, content);
    if |text| <= 1030 {
      var rest := Message(text)[12 + |p| + 1..];
      assert Message(text) == "GET /append?" + (p + [' '] + rest);
      ParseAppend(p + [' '] + rest);
      FindCharAt(p, ' ', rest);
      assert (p + [' '] + rest)[..|p|] == p;
      ContentFits(key, time, content);
      ParamsOf(key, time, content);
    } else {
      var cut := p[..CLIENT_STR_LEN - 2 - 12];
      var nuls: string := [NUL, NUL];
      assert text[..CLIENT_STR_LEN - 2] == "GET /append?" + cut;
      assert seq(2, _ => NUL) == nuls;
      assert Message(text) == "GET /append?" + (cut + nuls);
      ParseAppend(cut + nuls);
      FindCharAt(cut, ' ', nuls);
    }
  }

  lemma ContentFits(key: string, time: nat, content: string)
    requires Bytes(content) && |ParameterText(key, time, content)| <= 1009
    ensures |content| <= STR_LEN - 1
  {
    hide Encode, Digits;
  }

  lemma TextFits(key: string, time: nat, content: string)
    requires CanSend(key, time, content) && |Render(key, time, content)| <= 1030
    ensures |content| <= STR_LEN - 1 && NUL !in content
  {
    hide Render, ParameterText;
    RenderIs(key, time, content);
    ContentFits(key, time, content);
    BytesHaveNoNul(content);
  }

  // ---- ParseReq on the receive buffer ----

  /** The parameters from i up to the blank at e, which has been cut to a NUL. */
  ghost predicate Cut(s: string, i: nat, e: nat) {
    i <= e < |s| && s[e] == NUL && forall k | i <= k < e :: s[k] != NUL && s[k] != ' ' && s[k] != '\n'
  }

  lemma FindBefore(s: string, i: nat, e: nat, c: char)
    requires Cut(s, i, e) && c != NUL
    ensures FindChar(s[i..], c) == FindChar(s[i..e], c)
    decreases e - i
  {
    if i < e {
      assert s[i..][1..] == s[i + 1..] && s[i..e][1..] == s[i + 1..e];
      FindBefore(s, i + 1, e, c);
    } else {
      assert s[i..e] == [];
    }
  }

  lemma CStringBefore(s: string, i: nat, e: nat)
    requires Cut(s, i, e)
    ensures CString(s[i..]) == s[i..e]
    decreases e - i
  {
    if i < e {
      assert s[i..][1..] == s[i + 1..] && s[i..e] == [s[i]] + s[i + 1..e];
      CStringBefore(s, i + 1, e);
    } else {
      assert s[i..e] == [];
    }
  }

  lemma SkipAmpersand(s: string, i: nat, e: nat)
    requires i < e <= |s| && s[i] == '&'
    ensures SkipAmpersands(s[i..e]) == SkipAmpersands(s[i + 1..e])
  {
    assert s[i..e][1..] == s[i + 1..e];
  }

  /** One cut of the parameter loop. */
  lemma ParamsCut(s: string, i: nat, e: nat, sep: nat, d: ReqData)
    requires Cut(s, i, e) && s[i] != '&' && i + sep < e && FindChar(s[i..], '&') == sep
    ensures Params(s[i..e], d) == Params(s[i + sep + 1..e], GetParameter(s[i..i + sep], d))
  {
    hide GetParameter, FindChar;
    FindBefore(s, i, e, '&');
    var p := s[i..e];
    assert SkipAmpersands(p) == p;
    assert p[..sep] == s[i..i + sep] && p[sep + 1..] == s[i + sep + 1..e];
  }

  lemma ParamsLast(s: string, i: nat, e: nat, d: ReqData)
    requires Cut(s, i, e) && s[i] != '&' && FindChar(s[i..], '&') == -1
    ensures Params(s[i..e], d) == GetParameter(s[i..e], d)
  {
    hide GetParameter, FindChar;
    FindBefore(s, i, e, '&');
    assert SkipAmpersands(s[i..e]) == s[i..e];
  }

  /** Skips the ampersands before a parameter. */
  method PassAmpersands(reqStr: array<char>, from: nat, ghost e: nat) returns (readIndex: nat)
    requires Cut(reqStr[..], from, e)
    ensures from <= readIndex && Cut(reqStr[..], readIndex, e) && reqStr[readIndex] != '&'
    ensures forall d :: Params(reqStr[readIndex..e], d) == Params(reqStr[from..e], d)
  {
    readIndex := from;
    while reqStr[readIndex] == '&'
      invariant from <= readIndex && Cut(reqStr[..], readIndex, e)
      invariant SkipAmpersands(reqStr[readIndex..e]) == SkipAmpersands(reqStr[from..e])
      decreases e - readIndex
    {
      SkipAmpersand(reqStr[..], readIndex, e);
      assert reqStr[..][readIndex..e] == reqStr[readIndex..e] && reqStr[..][readIndex + 1..e] == reqStr[readIndex + 1..e];
      readIndex := readIndex + 1;
    }
    forall d ensures Params(reqStr[readIndex..e], d) == Params(reqStr[from..e], d) {
      SameParams(reqStr[readIndex..e], reqStr[from..e], d);
    }
  }

  lemma SameParams(p: string, q: string, d: ReqData)
    requires SkipAmpersands(p) == SkipAmpersands(q)
    ensures Params(p, d) == Params(q, d)
  {
    hide GetParameter, FindChar;
  }

  /** The parameter loop: each '&' found is overwritten with a NUL before its parameter is read. */
  method ParseParameters(reqStr: array<char>, from: nat, ghost e: nat) returns (d: ReqData)
    requires Cut(reqStr[..], from, e)
    modifies reqStr
    ensures d == Params(old(reqStr[from..e]), NEW_REQ)
  {
    hide Params, GetParameter, FindChar, CString;
    d := NEW_REQ;
    var readIndex: nat := from;
    var separator := 0;
    while separator != -1
      invariant separator != -1 ==> Cut(reqStr[..], readIndex, e)
      invariant (if separator == -1 then d else Params(reqStr[readIndex..e], d)) == Params(old(reqStr[from..e]), NEW_REQ)
      decreases if separator == -1 then 0 else e - readIndex + 1
    {
      readIndex := PassAmpersands(reqStr, readIndex, e);
      ghost var s := reqStr[..];
      assert s[readIndex..] == reqStr[readIndex..] && s[readIndex..e] == reqStr[readIndex..e];
      separator := FindChar(reqStr[readIndex..], '&');
      FindBefore(s, readIndex, e, '&');
      if separator != -1 {
        var next := readIndex + separator;
        ParamsCut(s, readIndex, e, separator, d);
        reqStr[next] := NUL;
        assert reqStr[readIndex..next] == s[readIndex..next];
        CStringBefore(reqStr[..], readIndex, next);
        assert reqStr[..][readIndex..] == reqStr[readIndex..] && reqStr[..][readIndex..next] == reqStr[readIndex..next];
        d := GetParameter(CString(reqStr[readIndex..]), d);
        readIndex := next + 1;
        assert reqStr[readIndex..e] == s[readIndex..e];
      } else {
        ParamsLast(s, readIndex, e, d);
        CStringBefore(s, readIndex, e);
        d := GetParameter(CString(reqStr[readIndex..]), d);
      }
    }
  }

  /** ParseReq. The buffer is cut in place at the blank and at every '&'. */
  method ParseReq(reqStr: array<char>) returns (r: Option<ReqData>)
    requires reqStr.Length == STR_LEN
    modifies reqStr
    ensures r == Parse(old(reqStr[..]))
  {
    hide Params, FindChar, KindOf;
    ghost var s := reqStr[..];
    if reqStr[..3] != "GET" {
      assert !("GET" <= s) by { assert s[..3] == reqStr[..3]; }
      return None;
    }
    assert "GET" <= s;
    if reqStr[4] != '/' {
      return None;
    }
    var kind := KindOf(reqStr[5..]);
    assert reqStr[5..] == s[5..];
    KindLength(reqStr[5..]);
    if kind == None {
      return None;
    }
    var (k, len) := kind.value;
    var readIndex := 5 + len;
    var separator := FindChar(reqStr[readIndex..], '?');
    assert reqStr[readIndex..] == s[readIndex..];
    if separator == -1 {
      return Some(NEW_REQ.(kind := k));
    }
    var from := readIndex + separator + 1;
    assert s[readIndex..][separator + 1..] == s[from..] == reqStr[from..];
    var space := FindChar(reqStr[from..], ' ');
    if space == -1 {
      return None;
    }
    reqStr[from + space] := NUL;
    CutAtBlank(s, reqStr[..], from, space);
    assert s[from..][..space] == reqStr[from..from + space];
    var d := ParseParameters(reqStr, from, from + space);
    r := Some(d.(kind := k));
  }

  lemma KindLength(s: string)
    ensures KindOf(s).Some? ==> KindOf(s).value.1 <= |s|
  {
  }

  lemma CutAtBlank(s: string, s': string, from: nat, space: nat)
    requires from <= |s| && FindChar(s[from..], ' ') == space && from + space < |s| && s' == s[from + space := NUL]
    ensures Cut(s', from, from + space)
  {
    assert forall k | from <= k < from + space :: s'[k] == s[from..][k - from];
  }
}
