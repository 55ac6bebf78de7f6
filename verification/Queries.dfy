/** Requests as clients write them, with any parameters in any order, and what the parser makes of
    them. */
module Queries {
  import opened Wrappers
  import opened Text
  import opened Percent
  import opened Request

  /** A parameter of a request. A text is sent percent-encoded, a number in decimal. */
  datatype Field =
    | Key(text: string)
    | Content(text: string)
    | Keyword(text: string)
    | Time(n: nat)
    | Start(n: nat)
    | End(n: nat)
    | Count(n: nat)
    | Id(n: nat)
    | Other(name: string, text: string)

  /** A name no parameter of the program begins with, and a value, that end no search early. */
  ghost predicate Sendable(f: Field) {
    match f
    case Other(name, text) =>
      && Plain(name) && Plain(text) && name != "" && name[0] != '&' && '=' !in name
      && !("key" <= name) && !("time" <= name) && !("content" <= name) && !("count" <= name) && !("start" <= name)
      && !("end" <= name) && !("id" <= name)
    case Key(text) => Bytes(text)
    case Content(text) => Bytes(text)
    case Keyword(text) => Bytes(text)
    case _ => true
  }

  /** How it is written: its name, and its value behind a '='. */
  function Name(f: Field): string {
    match f
    case Key(_) => "key"
    case Content(_) => "content"
    case Keyword(_) => "keyword"
    case Time(_) => "time"
    case Start(_) => "start"
    case End(_) => "end"
    case Count(_) => "count"
    case Id(_) => "id"
    case Other(name, _) => name
  }

  ghost function Value(f: Field): string
    requires Sendable(f)
  {
    match f
    case Key(text) => Encode(text)
    case Content(text) => Encode(text)
    case Keyword(text) => Encode(text)
    case Other(_, text) => text
    case _ => Digits(f.n)
  }

  ghost function FieldText(f: Field): string
    requires Sendable(f)
  {
    Name(f) + "=" + Value(f)
  }

  /** The first bytes of a text. */
  function Head(text: string, n: nat): string {
    if |text| <= n then text else text[..n]
  }

  /** What it sets: texts are cut to 15, 1023 and 31 bytes, and a number that is 0 or does not fit
      into a long sets nothing. */
  function SetField(f: Field, d: ReqData): ReqData {
    match f
    case Key(text) => d.(key := Head(text, 15))
    case Content(text) => d.(content := Head(text, 1023))
    case Keyword(text) => d.(keyword := Head(text, 31))
    case Time(n) => if 0 < n < 0x7fff_ffff_ffff_ffff then d.(time := n) else d
    case Start(n) => if 0 < n < 0x7fff_ffff_ffff_ffff then d.(start := n) else d
    case End(n) => if 0 < n < 0x7fff_ffff_ffff_ffff then d.(end := n) else d
    case Count(n) => if 0 < n < 0x7fff_ffff_ffff_ffff then d.(count := n) else d
    case Id(n) => if 0 < n < 0x7fff_ffff_ffff_ffff then d.(clientId := ToInt(n)) else d
    case Other(_, _) => d
  }

  function SetFields(fields: seq<Field>, d: ReqData): ReqData {
    if fields == [] then d else SetFields(fields[1..], SetField(fields[0], d))
  }

  /** Each parameter with an ampersand behind it but the last. */
  ghost function FieldsText(fields: seq<Field>): string
    requires forall k | 0 <= k < |fields| :: Sendable(fields[k])
  {
    if fields == [] then ""
    else if |fields| == 1 then FieldText(fields[0])
    else FieldText(fields[0]) + "&" + FieldsText(fields[1..])
  }

  /** The path of each kind of request. */
  function PathOf(kind: ReqType): string
    requires kind != Invalid
  {
    match kind
    case Append => "append"
    case Recent => "recent"
    case Getkey => "getkey"
    case Search => "search"
    case SearchTime => "searchtime"
    case LogCount => "logcount"
    case Persistence => "persistence"
  }

  // ---- one parameter ----

  /** Any decimal: 0, and what does not fit, is taken for a failure. */
  lemma NumberOfDecimal(n: nat)
    ensures Number(Digits(n)) == if 0 < n < 0x7fff_ffff_ffff_ffff then Some(n) else None
  {
    hide Digits, DigitsFrom;
    if n == 0 {
      ZeroDigit();
    } else {
      DigitsFromOf(n);
      var s := Digits(n);
      assert IsDigit(s[0]);
      assert SkipSpaces(s) == s;
    }
  }

  lemma ZeroDigit()
    ensures Digits(0) == "0" && Number("0") == None
  {
    assert "0"[1..] == "";
  }

  lemma TextValue(text: string)
    requires Bytes(text)
    ensures Decode(Encode(text)) == text && CString(text) == text && Plain(Encode(text))
  {
    hide Encode, Decode;
    DecodeEncode(text);
    BytesHaveNoNul(text);
    CStringOf(text);
    EncodeAlphabet(text);
    var e := Encode(text);
    assert forall k | 0 <= k < |e| :: e[k] != NUL && e[k] != ' ' && e[k] != '\n' && e[k] != '&' && e[k] != '?';
  }

  /** The value stands behind the first '='. */
  lemma ValueOf(name: string, value: string)
    requires Plain(name) && '=' !in name
    ensures FindChar(name + "=" + value, '=') == |name| && (name + "=" + value)[|name| + 1..] == value
  {
    hide FindChar;
    FindCharAt(name, '=', value);
    assert name + "=" + value == name + ['='] + value;
  }

  /** Which name a parameter begins with, by its first letters. */
  lemma NameOf(name: string, value: string)
    requires name in {"key", "content", "keyword", "time", "start", "end", "count", "id"}
    ensures ParameterOf(name + "=" + value) ==
              if name == "key" then KeyP else if name == "content" then ContentP else if name == "keyword" then KeywordP
              else if name == "time" then TimeP else if name == "start" then StartP else if name == "end" then EndP
              else if name == "count" then CountP else IdP
  {
    var s := name + "=" + value;
    assert s[..|name|] == name;
    assert s[0] == name[0] && s[1] == name[1];
    assert |name| > 2 ==> s[2] == name[2];
    assert |name| == 3 ==> s[3] == '=';
  }

  lemma UnknownName(name: string, value: string)
    requires Sendable(Other(name, value))
    ensures ParameterOf(name + "=" + value) == NoParameter
  {
    var s := name + "=" + value;
    assert s[..|name|] == name && s[|name|] == '=';
    NotBegun("keyword", name, value);
    NotBegun("key", name, value);
    NotBegun("time", name, value);
    NotBegun("content", name, value);
    NotBegun("count", name, value);
    NotBegun("start", name, value);
    NotBegun("end", name, value);
    NotBegun("id", name, value);
  }

  lemma NotBegun(known: string, name: string, value: string)
    requires '=' !in known && !(known <= name)
    ensures !(known <= name + "=" + value)
  {
    var s := name + "=" + value;
    assert s[..|name|] == name && s[|name|] == '=';
    if |known| <= |name| {
      assert s[..|known|] == name[..|known|];
    } else {
      assert known[|name|] in known;
    }
  }

  lemma TextField(name: string, text: string, d: ReqData)
    requires Bytes(text) && name in {"key", "content", "keyword"}
    ensures GetParameter(name + "=" + Encode(text), d) ==
              if name == "key" then d.(key := Head(text, 15)) else if name == "content" then d.(content := Head(text, 1023))
              else d.(keyword := Head(text, 31))
  {
    hide Encode, Decode, FindChar, ParameterOf, CString, Number;
    TextValue(text);
    assert Plain(name) && '=' !in name;
    ValueOf(name, Encode(text));
    NameOf(name, Encode(text));
  }

  lemma NumberField(name: string, n: nat, d: ReqData)
    requires name in {"time", "start", "end", "count", "id"}
    ensures GetParameter(name + "=" + Digits(n), d) ==
              if !(0 < n < 0x7fff_ffff_ffff_ffff) then d
              else if name == "time" then d.(time := n) else if name == "start" then d.(start := n)
              else if name == "end" then d.(end := n) else if name == "count" then d.(count := n)
              else d.(clientId := ToInt(n))
  {
    hide Digits, Number, Decode, FindChar, ParameterOf, CString, ToInt;
    NumberOfDecimal(n);
    assert Plain(name) && '=' !in name;
    ValueOf(name, Digits(n));
    NameOf(name, Digits(n));
  }

  lemma PlainDigits(n: nat)
    ensures Plain(Digits(n))
  {
    hide Digits;
    assert forall k | 0 <= k < |Digits(n)| :: IsDigit(Digits(n)[k]);
  }

  lemma PlainPair(name: string, value: string)
    requires Plain(name) && Plain(value)
    ensures Plain(name + "=" + value)
  {
  }

  /** The parser does with a parameter what it is meant to. */
  lemma FieldParameter(f: Field, d: ReqData)
    requires Sendable(f)
    ensures GetParameter(FieldText(f), d) == SetField(f, d) && Plain(FieldText(f)) && FieldText(f) != ""
    ensures FieldText(f)[0] != '&'
  {
    hide Encode, Digits, GetParameter, ToInt, Plain, Head;
    match f
    case Key(text) =>
      TextField(Name(f), text, d);
      TextValue(text);
      PlainName(Name(f), Value(f));
    case Content(text) =>
      TextField(Name(f), text, d);
      TextValue(text);
      PlainName(Name(f), Value(f));
    case Keyword(text) =>
      TextField(Name(f), text, d);
      TextValue(text);
      PlainName(Name(f), Value(f));
    case Other(name, text) =>
      UnknownField(name, text, d);
      PlainPair(name, text);
    case _ =>
      NumberField(Name(f), f.n, d);
      PlainDigits(f.n);
      PlainName(Name(f), Value(f));
  }

  lemma PlainName(name: string, value: string)
    requires name in {"key", "content", "keyword", "time", "start", "end", "count", "id"} && Plain(value)
    ensures Plain(name + "=" + value) && (name + "=" + value)[0] != '&'
  {
    assert Plain(name);
    PlainPair(name, value);
  }

  lemma UnknownField(name: string, text: string, d: ReqData)
    requires Sendable(Other(name, text))
    ensures GetParameter(name + "=" + text, d) == d
  {
    hide FindChar, ParameterOf, Decode, CString, Number;
    ValueOf(name, text);
    UnknownName(name, text);
  }

  // ---- all parameters ----

  ghost predicate AllSendable(fields: seq<Field>) {
    forall k | 0 <= k < |fields| :: Sendable(fields[k])
  }

  /** The parameters are set one after another, a later one over an earlier one. */
  lemma {:induction false} FieldsParameters(fields: seq<Field>, d: ReqData)
    requires AllSendable(fields)
    ensures Params(FieldsText(fields), d) == SetFields(fields, d)
    ensures var p := FieldsText(fields); forall k | 0 <= k < |p| :: p[k] != NUL && p[k] != ' ' && p[k] != '\n'
    decreases |fields|
  {
    hide GetParameter, FieldText, SetField, Sendable, Params;
    if fields == [] {
      NoParams(d);
    } else {
      var text, rest := FieldText(fields[0]), fields[1..];
      FieldParameter(fields[0], d);
      if rest == [] {
        LastParameter(text, d);
        NoFields(rest, SetField(fields[0], d));
      } else {
        FieldsParameters(rest, SetField(fields[0], d));
        ParamsStep(text, FieldsText(rest), d);
      }
    }
  }

  lemma NoFields(fields: seq<Field>, d: ReqData)
    requires fields == []
    ensures SetFields(fields, d) == d
  {
  }

  lemma LastParameter(text: string, d: ReqData)
    requires text != "" && Plain(text) && text[0] != '&'
    ensures Params(text, d) == GetParameter(text, d)
  {
    hide GetParameter, FindChar;
    FindCharAt(text, '&', "");
  }

  // ---- the request ----

  /** What stands behind the path decides. */
  lemma BehindPath(s: string, kind: ReqType, path: string, t: string)
    requires |s| > 4 && "GET" <= s && s[4] == '/' && s[5..] == path + t
    requires KindOf(path + t) == Some((kind, |path|))
    ensures Parse(s) ==
              if FindChar(t, '?') == -1 then Some(ReqData(kind, "", 0, "", "", 0, 0, 0, 0))
              else
                var u := t[FindChar(t, '?') + 1..];
                if FindChar(u, ' ') == -1 then None
                else Some(Params(u[..FindChar(u, ' ')], ReqData(Invalid, "", 0, "", "", 0, 0, 0, 0)).(kind := kind))
  {
    hide Params, KindOf, FindChar, Parse;
    TailBehind(s, path, t);
    ParseIs(s, kind, |path|);
  }

  lemma TailBehind(s: string, path: string, t: string)
    requires |s| > 4 && s[5..] == path + t
    ensures 5 + |path| <= |s| && s[5 + |path|..] == t
  {
    assert s[5 + |path|..] == s[5..][|path|..];
  }

  lemma ParseIs(s: string, kind: ReqType, len: nat)
    requires |s| > 4 && "GET" <= s && s[4] == '/' && KindOf(s[5..]) == Some((kind, len)) && 5 + len <= |s|
    ensures var t := s[5 + len..];
            Parse(s) ==
              if FindChar(t, '?') == -1 then Some(NEW_REQ.(kind := kind))
              else
                var u := t[FindChar(t, '?') + 1..];
                if FindChar(u, ' ') == -1 then None else Some(Params(u[..FindChar(u, ' ')], NEW_REQ).(kind := kind))
  {
    hide Params, KindOf, FindChar;
  }

  /** Text that may stand between a path and its '?': nothing that ends the search for that, and
      nothing that makes a search a search by time. */
  predicate Between(kind: ReqType, more: string) {
    && (forall k | 0 <= k < |more| :: more[k] != '?' && more[k] != NUL && more[k] != ' ' && more[k] != '\n')
    && (kind == Search ==> !("time" <= more))
  }

  /** The text up to the parameters. */
  lemma ParsePath(kind: ReqType, more: string, rest: string)
    requires kind != Invalid && Between(kind, more)
    ensures var space := FindChar(rest, ' ');
            Parse("GET /" + PathOf(kind) + more + "?" + rest) ==
              if space == -1 then None
              else Some(Params(rest[..space], ReqData(Invalid, "", 0, "", "", 0, 0, 0, 0)).(kind := kind))
  {
    hide Params, KindOf, PathOf, FindChar, Parse;
    var path, t := PathOf(kind), more + "?" + rest;
    var s := "GET /" + path + more + "?" + rest;
    BeginsGet(path + t);
    assert s == "GET /" + (path + t);
    NoTime(kind, more, "?" + rest);
    assert more + ("?" + rest) == t;
    KindOfPath(kind, t);
    BehindPath(s, kind, path, t);
    FindCharAt(more, '?', rest);
    assert more + ['?'] + rest == t && t[|more| + 1..] == rest;
  }

  lemma NoTime(kind: ReqType, more: string, rest: string)
    requires Between(kind, more) && rest != "" && (rest[0] == '?' || rest[0] == ' ')
    ensures kind == Search ==> !("time" <= more + rest)
  {
    assert (more + rest)[|more|] == rest[0];
    assert |more| >= 4 ==> more[..4] == (more + rest)[..4];
    assert forall k | 0 <= k < 4 :: "time"[k] != '?' && "time"[k] != ' ';
  }

  lemma BeginsGet(t: string)
    ensures var s := "GET /" + t; |s| > 4 && "GET" <= s && s[4] == '/' && s[5..] == t
  {
    var s := "GET /" + t;
    assert s[..3] == "GET";
  }

  lemma KindOfPath(kind: ReqType, rest: string)
    requires kind != Invalid && (kind == Search ==> !("time" <= rest))
    ensures KindOf(PathOf(kind) + rest) == Some((kind, |PathOf(kind)|))
  {
    var path := PathOf(kind);
    var s := path + rest;
    assert s[..|path|] == path;
    assert s[0] == path[0] && s[1] == path[1] && s[2] == path[2];
    assert s[|path|..] == rest;
    assert "searchtime" == "search" + "time";
    assert kind == Search && |rest| >= 4 ==> s[..10][6..] == rest[..4];
  }

  /** Any request of any kind with any parameters in any order is parsed as it was meant, whatever
      stands between its path and the '?' and follows its blank in the buffer. */
  lemma QueryRoundTrip(kind: ReqType, more: string, fields: seq<Field>, rest: string)
    requires kind != Invalid && Between(kind, more) && AllSendable(fields)
    ensures Parse("GET /" + PathOf(kind) + more + "?" + FieldsText(fields) + " " + rest) ==
              Some(SetFields(fields, ReqData(Invalid, "", 0, "", "", 0, 0, 0, 0)).(kind := kind))
  {
    hide Params, FindChar, FieldsText, SetFields, Parse, PathOf, Sendable, Between;
    var p := FieldsText(fields);
    FieldsParameters(fields, ReqData(Invalid, "", 0, "", "", 0, 0, 0, 0));
    ParsePath(kind, more, p + " " + rest);
    var a := "GET /" + PathOf(kind) + more + "?";
    assert a + p + " " + rest == a + (p + " " + rest);
    FindCharAt(p, ' ', rest);
    assert p + [' '] + rest == p + " " + rest;
    assert (p + " " + rest)[..|p|] == p;
  }

  /** ... with nothing in between. */
  lemma PlainQuery(kind: ReqType, fields: seq<Field>, rest: string)
    requires kind != Invalid && AllSendable(fields)
    ensures Parse("GET /" + PathOf(kind) + "?" + FieldsText(fields) + " " + rest) ==
              Some(SetFields(fields, ReqData(Invalid, "", 0, "", "", 0, 0, 0, 0)).(kind := kind))
  {
    hide FieldsText, SetFields, Parse, PathOf, Sendable;
    QueryRoundTrip(kind, "", fields, rest);
    assert "GET /" + PathOf(kind) + "" == "GET /" + PathOf(kind);
  }

  /** The five queries, written out. */
  lemma SearchTimeQuery(key: string, start: nat, end: nat, id: nat, rest: string)
    requires Bytes(key) && |key| <= 15 && 0 < id < 0x8000_0000
    requires 0 < start < 0x7fff_ffff_ffff_ffff && 0 < end < 0x7fff_ffff_ffff_ffff
    ensures Parse("GET /searchtime?key=" + Encode(key) + "&start=" + Digits(start) + "&end=" + Digits(end)
                  + "&id=" + Digits(id) + " " + rest) == Some(ReqData(SearchTime, key, 0, "", "", id, 0, start, end))
  {
    hide Encode, Digits, Parse, ToInt, FieldText;
    FourQuery(SearchTime, Key(key), Start(start), End(end), Id(id), rest);
    ToIntIs(id);
    assert "GET /" + "searchtime" + "?" + "key" + "=" == "GET /searchtime?key=";
    assert "&" + "start" + "=" == "&start=" && "&" + "end" + "=" == "&end=" && "&" + "id" + "=" == "&id=";
  }

  lemma GetkeyQuery(key: string, id: nat, rest: string)
    requires Bytes(key) && |key| <= 15 && 0 < id < 0x8000_0000
    ensures Parse("GET /getkey?key=" + Encode(key) + "&id=" + Digits(id) + " " + rest) ==
              Some(ReqData(Getkey, key, 0, "", "", id, 0, 0, 0))
  {
    hide Encode, Digits, Parse, ToInt, FieldText;
    TwoFields(Getkey, Key(key), Id(id), rest);
    ToIntIs(id);
    assert "GET /" + "getkey" + "?" + "key" + "=" == "GET /getkey?key=" && "&" + "id" + "=" == "&id=";
  }

  lemma RecentQuery(count: nat, id: nat, rest: string)
    requires 0 < count < 0x7fff_ffff_ffff_ffff && 0 < id < 0x8000_0000
    ensures Parse("GET /recent?count=" + Digits(count) + "&id=" + Digits(id) + " " + rest) ==
              Some(ReqData(Recent, "", 0, "", "", id, count, 0, 0))
  {
    hide Digits, Parse, ToInt, FieldText;
    TwoFields(Recent, Count(count), Id(id), rest);
    ToIntIs(id);
    assert "GET /" + "recent" + "?" + "count" + "=" == "GET /recent?count=" && "&" + "id" + "=" == "&id=";
  }

  lemma SearchQuery(keyword: string, id: nat, rest: string)
    requires Bytes(keyword) && |keyword| <= 31 && 0 < id < 0x8000_0000
    ensures Parse("GET /search?keyword=" + Encode(keyword) + "&id=" + Digits(id) + " " + rest) ==
              Some(ReqData(Search, "", 0, "", keyword, id, 0, 0, 0))
  {
    hide Encode, Digits, Parse, ToInt, FieldText;
    TwoFields(Search, Keyword(keyword), Id(id), rest);
    ToIntIs(id);
    assert "GET /" + "search" + "?" + "keyword" + "=" == "GET /search?keyword=" && "&" + "id" + "=" == "&id=";
  }

  lemma LogCountQuery(id: nat, rest: string)
    requires 0 < id < 0x8000_0000
    ensures Parse("GET /logcount?id=" + Digits(id) + " " + rest) == Some(ReqData(LogCount, "", 0, "", "", id, 0, 0, 0))
  {
    hide Digits, Parse, ToInt;
    var fields := [Id(id)];
    PlainQuery(LogCount, fields, rest);
    ToIntIs(id);
    NoFields(fields[1..], SetField(fields[0], ReqData(Invalid, "", 0, "", "", 0, 0, 0, 0)));
    OneText("logcount", Name(fields[0]), Value(fields[0]), rest);
    assert "GET /" + "logcount" + "?" + "id" + "=" == "GET /logcount?id=";
  }

  lemma TwoFields(kind: ReqType, f: Field, g: Field, rest: string)
    requires kind != Invalid && Sendable(f) && Sendable(g)
    ensures Parse("GET /" + PathOf(kind) + "?" + Name(f) + "=" + Value(f) + ("&" + Name(g) + "=") + Value(g)
                  + " " + rest) ==
              Some(SetField(g, SetField(f, ReqData(Invalid, "", 0, "", "", 0, 0, 0, 0))).(kind := kind))
  {
    hide Parse, SetField, Sendable, PathOf, Name, Value;
    var fields := [f, g];
    PlainQuery(kind, fields, rest);
    assert fields[1..] == [g];
    TwoTexts(PathOf(kind), Name(f), Value(f), Name(g), Value(g), rest);
    TwoSet(fields, ReqData(Invalid, "", 0, "", "", 0, 0, 0, 0));
  }

  lemma FourQuery(kind: ReqType, f: Field, g: Field, h: Field, i: Field, rest: string)
    requires kind != Invalid && Sendable(f) && Sendable(g) && Sendable(h) && Sendable(i)
    ensures Parse("GET /" + PathOf(kind) + "?" + Name(f) + "=" + Value(f) + ("&" + Name(g) + "=") + Value(g)
                  + ("&" + Name(h) + "=") + Value(h) + ("&" + Name(i) + "=") + Value(i) + " " + rest) ==
              Some(SetField(i, SetField(h, SetField(g, SetField(f, ReqData(Invalid, "", 0, "", "", 0, 0, 0, 0)))))
                   .(kind := kind))
  {
    hide Parse, SetField, Sendable, PathOf, Name, Value, FieldsText, SetFields;
    var fields := [f, g, h, i];
    PlainQuery(kind, fields, rest);
    FourFields(fields, ReqData(Invalid, "", 0, "", "", 0, 0, 0, 0));
    FourTexts(PathOf(kind), Name(f), Value(f), Name(g), Value(g), Name(h), Value(h), Name(i), Value(i), rest);
  }

  lemma TwoSet(fields: seq<Field>, d: ReqData)
    requires |fields| == 2
    ensures SetFields(fields, d) == SetField(fields[1], SetField(fields[0], d))
  {
    hide SetField;
    NoFields(fields[1..][1..], SetField(fields[1], SetField(fields[0], d)));
  }

  lemma FourFields(fields: seq<Field>, d: ReqData)
    requires |fields| == 4 && AllSendable(fields)
    ensures FieldsText(fields) ==
              FieldText(fields[0]) + "&"
              + (FieldText(fields[1]) + "&" + (FieldText(fields[2]) + "&" + FieldText(fields[3])))
    ensures SetFields(fields, d) ==
              SetField(fields[3], SetField(fields[2], SetField(fields[1], SetField(fields[0], d))))
  {
    hide FieldText, Sendable, SetField;
    var tail := fields[2..];
    assert fields[1..][1..] == tail;
    assert FieldsText(tail) == FieldText(fields[2]) + "&" + FieldText(fields[3]);
    assert FieldsText(fields[1..]) == FieldText(fields[1]) + "&" + FieldsText(tail);
    TwoSet(tail, SetField(fields[1], SetField(fields[0], d)));
    assert SetFields(fields[1..], SetField(fields[0], d)) == SetFields(tail, SetField(fields[1], SetField(fields[0], d)));
  }

  lemma OneText(path: string, n: string, v: string, rest: string)
    ensures "GET /" + path + "?" + (n + "=" + v) + " " + rest == "GET /" + path + "?" + n + "=" + v + " " + rest
  {
    assert "GET /" + path + "?" + (n + "=" + v) == "GET /" + path + "?" + n + "=" + v;
  }

  lemma TwoTexts(path: string, n: string, v: string, n': string, v': string, rest: string)
    ensures "GET /" + path + "?" + ((n + "=" + v) + "&" + (n' + "=" + v')) + " " + rest ==
            "GET /" + path + "?" + n + "=" + v + ("&" + n' + "=") + v' + " " + rest
  {
    var a := "GET /" + path + "?";
    assert a + ((n + "=" + v) + "&" + (n' + "=" + v')) == a + n + "=" + v + ("&" + n' + "=") + v';
  }

  lemma FourTexts(path: string, n: string, v: string, n1: string, v1: string, n2: string, v2: string, n3: string,
                  v3: string, rest: string)
    ensures "GET /" + path + "?"
            + ((n + "=" + v) + "&" + ((n1 + "=" + v1) + "&" + ((n2 + "=" + v2) + "&" + (n3 + "=" + v3)))) + " " + rest ==
            "GET /" + path + "?" + n + "=" + v + ("&" + n1 + "=") + v1 + ("&" + n2 + "=") + v2 + ("&" + n3 + "=") + v3 + " "
            + rest
  {
    var a := "GET /" + path + "?";
    var c, c1, c2, c3 := n + "=" + v, n1 + "=" + v1, n2 + "=" + v2, n3 + "=" + v3;
    assert a + (c + "&" + (c1 + "&" + (c2 + "&" + c3))) == a + c + "&" + c1 + "&" + c2 + "&" + c3;
    assert a + c == a + n + "=" + v;
    Behind(a + c, n1, v1);
    Behind(a + c + "&" + c1, n2, v2);
    Behind(a + c + "&" + c1 + "&" + c2, n3, v3);
  }

  lemma Behind(a: string, n: string, v: string)
    ensures a + "&" + (n + "=" + v) == a + ("&" + n + "=") + v
  {
  }

  // ---- other texts ----

  /** A text is refused that does not begin with GET, a byte and a slash or names no request behind
      it. */
  lemma Refused(s: string)
    ensures Parse(s).Some? ==> |s| > 4 && s[..3] == "GET" && s[4] == '/'
    ensures Parse(s).Some? ==>
              exists kind: ReqType | kind != Invalid :: PathOf(kind) <= s[5..] && Parse(s).value.kind == kind
  {
    hide Params, FindChar;
    if Parse(s).Some? {
      var kind := Parse(s).value.kind;
      assert PathOf(kind) <= s[5..];
    }
  }

  /** Without parameters every field but the kind is empty. */
  lemma WithoutParameters(kind: ReqType, more: string, rest: string)
    requires kind != Invalid && Between(kind, more)
    ensures Parse("GET /" + PathOf(kind) + more + " " + rest) == Some(ReqData(kind, "", 0, "", "", 0, 0, 0, 0))
  {
    hide Params, KindOf, PathOf, FindChar, Parse;
    var path, t := PathOf(kind), more + " " + rest;
    var s := "GET /" + path + more + " " + rest;
    BeginsGet(path + t);
    assert s == "GET /" + (path + t);
    NoTime(kind, more, " " + rest);
    assert more + (" " + rest) == t;
    KindOfPath(kind, t);
    BehindPath(s, kind, path, t);
    FindCharAt(more, '?', " " + rest);
  }

  // ---- numbers in other forms ----

  /** The digits of n in a base, as in "2f". */
  ghost function InBase(n: nat, base: nat): (r: string)
    requires 2 <= base <= 16
    ensures r != ""
  {
    if n < base then [LowerDigit(n)] else InBase(n / base, base) + [LowerDigit(n % base)]
  }

  function LowerDigit(d: nat): char
    requires d < 16
  {
    "0123456789abcdef"[d]
  }

  lemma DigitIs(d: nat, base: nat)
    requires d < base && base in {8, 10, 16}
    ensures IsDigitOf(LowerDigit(d), base) && DigitOf(LowerDigit(d), base) == d && !IsSpace(LowerDigit(d))
    ensures LowerDigit(d) != '-' && LowerDigit(d) != '+' && LowerDigit(d) != 'x' && LowerDigit(d) != 'X'
    ensures LowerDigit(d) == '0' <==> d == 0
  {
  }

  lemma {:induction false} DigitsFromLastOf(s: string, c: char, rest: string, base: nat, sofar: nat)
    requires (forall k | 0 <= k < |s| :: IsDigitOf(s[k], base)) && IsDigitOf(c, base)
    requires rest == "" || !IsDigitOf(rest[0], base)
    ensures DigitsFrom(s + [c] + rest, base, sofar) == base * DigitsFrom(s, base, sofar) + DigitOf(c, base)
    decreases |s|
  {
    hide IsDigitOf, DigitOf;
    var t := s + [c] + rest;
    if s == [] {
      assert t[1..] == rest;
      EndOfDigits(rest, base, base * sofar + DigitOf(c, base));
    } else {
      assert t[1..] == s[1..] + [c] + rest;
      DigitsFromLastOf(s[1..], c, rest, base, base * sofar + DigitOf(s[0], base));
    }
  }

  lemma EndOfDigits(rest: string, base: nat, sofar: nat)
    requires rest == "" || !IsDigitOf(rest[0], base)
    ensures DigitsFrom(rest, base, sofar) == sofar
  {
  }

  lemma {:induction false} InBaseDigits(n: nat, base: nat)
    requires base in {8, 10, 16}
    ensures forall k | 0 <= k < |InBase(n, base)| :: IsDigitOf(InBase(n, base)[k], base)
    ensures n > 0 ==> InBase(n, base)[0] != '0'
  {
    hide IsDigitOf, DigitOf, LowerDigit;
    DigitIs(n % base, base);
    if n >= base { InBaseDigits(n / base, base); }
  }

  lemma {:induction false} InBaseValue(n: nat, base: nat, rest: string)
    requires base in {8, 10, 16} && (rest == "" || !IsDigitOf(rest[0], base))
    ensures DigitsFrom(InBase(n, base) + rest, base, 0) == n
  {
    hide IsDigitOf, DigitOf, LowerDigit, DigitsFrom, InBase;
    DigitIs(n % base, base);
    InBaseStep(n, base);
    if n < base {
      NoDigitsYet(base);
      DigitsFromLastOf("", LowerDigit(n), rest, base, 0);
      assert "" + [LowerDigit(n)] + rest == InBase(n, base) + rest;
    } else {
      InBaseDigits(n / base, base);
      InBaseValue(n / base, base, "");
      assert InBase(n / base, base) + "" == InBase(n / base, base);
      DigitsFromLastOf(InBase(n / base, base), LowerDigit(n % base), rest, base, 0);
      Divided(n, base);
    }
  }

  lemma InBaseStep(n: nat, base: nat)
    requires base in {8, 10, 16}
    ensures n < base ==> n % base == n
    ensures InBase(n, base) == (if n < base then "" else InBase(n / base, base)) + [LowerDigit(n % base)]
    ensures n >= base ==> n / base < n
  {
    hide LowerDigit;
    Divided(n, base);
  }

  lemma Divided(n: nat, base: nat)
    requires base in {8, 10, 16}
    ensures base * (n / base) + n % base == n && (n < base ==> n % base == n) && (n >= base ==> n / base < n)
  {
    if base == 8 {
      Divided8(n);
    } else if base == 10 {
      Divided10(n);
    } else {
      Divided16(n);
    }
  }

  lemma Divided8(n: nat)
    ensures 8 * (n / 8) + n % 8 == n && (n < 8 ==> n % 8 == n) && (n >= 8 ==> n / 8 < n)
  {
  }

  lemma Divided10(n: nat)
    ensures 10 * (n / 10) + n % 10 == n && (n < 10 ==> n % 10 == n) && (n >= 10 ==> n / 10 < n)
  {
  }

  lemma Divided16(n: nat)
    ensures 16 * (n / 16) + n % 16 == n && (n < 16 ==> n % 16 == n) && (n >= 16 ==> n / 16 < n)
  {
  }

  lemma NoDigitsYet(base: nat)
    ensures DigitsFrom("", base, 0) == 0
  {
  }

  /** What marks a base. */
  predicate Marks(mark: string, base: nat) {
    match mark
    case "" => base == 10
    case "0" => base == 8
    case "0x" => base == 16
    case "0X" => base == 16
    case _ => false
  }

  /** A number may have blanks and a sign in front, and be hexadecimal behind 0x, octal behind 0,
      decimal otherwise; it ends at the first character that is no digit, and is held within a
      long. */
  lemma StrtolReads(blanks: string, sign: string, mark: string, base: nat, n: nat, rest: string)
    requires (forall k | 0 <= k < |blanks| :: blanks[k] as int in {9, 10, 11, 12, 13, 32}) && sign in {"", "-", "+"}
    requires Marks(mark, base) && (base == 10 ==> n > 0)
    requires rest == "" || !(0 <= HexCode(rest[0]) < base)
    ensures var v := if sign == "-" then -(n as int) else n;
            Strtol(blanks + (sign + (mark + InBase(n, base) + rest))) ==
              if v > 0x7fff_ffff_ffff_ffff then 0x7fff_ffff_ffff_ffff
              else if v < -0x8000_0000_0000_0000 then -0x8000_0000_0000_0000 else v
  {
    hide InBase, DigitsFrom, IsDigitOf, LowerDigit, Strtol, HexCode;
    if rest != "" { DigitByCode(rest[0], base); }
    InBaseValue(n, base, rest);
    InBaseDigits(n, base);
    var digits := InBase(n, base) + rest;
    FirstDigit(digits[0], base);
    assert mark + InBase(n, base) + rest == mark + digits;
    MarkedDigits(mark, digits, base);
    SkipBlanks(blanks, sign + (mark + digits));
    SignedDigits(blanks, sign, mark + digits);
  }

  lemma DigitByCode(c: char, base: nat)
    requires base in {8, 10, 16}
    ensures IsDigitOf(c, base) <==> 0 <= HexCode(c) < base
  {
    HexByCode(c);
  }

  /** Which numbers are taken, and as what uint64_t: not 0 and not the ends of a long, at which any
      greater number is held. */
  lemma NumberIs(s: string)
    ensures Number(s) ==
              if Strtol(s) in {0, 0x7fff_ffff_ffff_ffff, -0x8000_0000_0000_0000} then None
              else Some(Strtol(s) % 0x1_0000_0000_0000_0000)
  {
    hide Strtol;
    StrtolWithinLong(s);
  }

  lemma StrtolWithinLong(s: string)
    ensures -0x8000_0000_0000_0000 <= Strtol(s) <= 0x7fff_ffff_ffff_ffff
  {
    hide DigitsFrom, SkipSpaces;
  }

  /** The unsigned part. */
  ghost function Unsigned(u: string): nat {
    if |u| >= 3 && u[0] == '0' && (u[1] == 'x' || u[1] == 'X') && IsHex(u[2]) then DigitsFrom(u[2..], 16, 0)
    else if u != [] && u[0] == '0' then DigitsFrom(u, 8, 0)
    else DigitsFrom(u, 10, 0)
  }

  lemma MarkedDigits(mark: string, digits: string, base: nat)
    requires Marks(mark, base)
    requires digits != "" && IsDigitOf(digits[0], base) && (base == 10 ==> digits[0] != '0')
    ensures Unsigned(mark + digits) == DigitsFrom(digits, base, 0)
    ensures mark + digits != "" && var c := (mark + digits)[0]; !IsSpace(c) && c != '-' && c != '+'
  {
    hide DigitsFrom, IsDigitOf;
    FirstDigit(digits[0], base);
    var u := mark + digits;
    if base == 16 {
      assert u[2..] == digits && u[2] == digits[0];
    } else if base == 8 {
      OctalBehindZero(digits);
      assert u == "0" + digits;
      assert u[1] == digits[0];
    } else {
      assert u == digits;
    }
  }

  lemma SignedDigits(blanks: string, sign: string, u: string)
    requires sign in {"", "-", "+"} && u != "" && !IsSpace(u[0]) && u[0] != '-' && u[0] != '+'
    requires SkipSpaces(blanks + (sign + u)) == sign + u
    ensures Strtol(blanks + (sign + u)) == Clamp(if sign == "-" then -(Unsigned(u) as int) else Unsigned(u))
  {
    hide DigitsFrom, IsHex;
    var t := sign + u;
    if sign == "" {
      assert t == u;
    } else {
      assert t[0] == sign[0] && t[1..] == u;
    }
  }

  lemma FirstDigit(c: char, base: nat)
    requires IsDigitOf(c, base) && base in {8, 10, 16}
    ensures !IsSpace(c) && c != '-' && c != '+' && c != 'x' && c != 'X' && (base == 16 ==> IsHex(c))
  {
  }

  lemma OctalBehindZero(s: string)
    ensures DigitsFrom("0" + s, 8, 0) == DigitsFrom(s, 8, 0)
  {
    assert ("0" + s)[1..] == s;
  }

  lemma {:induction false} SkipBlanks(blanks: string, s: string)
    requires forall k | 0 <= k < |blanks| :: blanks[k] as int in {9, 10, 11, 12, 13, 32}
    requires s != "" && !IsSpace(s[0])
    ensures SkipSpaces(blanks + s) == s
  {
    if blanks == "" {
      assert blanks + s == s;
    } else {
      assert (blanks + s)[1..] == blanks[1..] + s;
      SkipBlanks(blanks[1..], s);
    }
  }
}
