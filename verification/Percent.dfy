/** Percent-encoding of byte strings (section 2.1 of RFC 3986). A byte is a char up to U+FF. */
module Percent {
  import opened Text

  /** A C string of bytes: no NUL inside. */
  ghost predicate Bytes(s: string) {
    forall k | 0 <= k < |s| :: IsByte(s[k])
  }

  predicate IsByte(c: char) {
    NUL < c <= '\U{FF}'
  }

  /** Bytes url_encode leaves alone. */
  predicate IsSafe(c: char) {
    '0' <= c <= '9' || 'A' <= c <= 'Z' || 'a' <= c <= 'z' || c == '-' || c == '.' || c == '_'
  }

  /** The value of a byte as C's signed char. */
  function Signed(c: char): int {
    if c as int < 128 then c as int else c as int - 256
  }

  /** The test of url_encode on a signed char, spelled as there. */
  predicate MustEncode(c: char) {
    var v := Signed(c);
    || (v < '0' as int && v != '-' as int && v != '.' as int)
    || (v < 'A' as int && v > '9' as int)
    || (v > 'Z' as int && v < 'a' as int && v != '_' as int)
    || v > 'z' as int
  }

  lemma MustEncodeIsUnsafe(c: char)
    requires c <= '\U{FF}'
    ensures MustEncode(c) <==> !IsSafe(c)
  {
  }

  function HexChar(d: nat): (c: char)
    requires d < 16
    ensures IsHex(c) && HexValue(c) == d && c != NUL
  {
    if d < 10 then '0' + d as char else 'A' + (d - 10) as char
  }

  predicate IsHex(c: char) {
    '0' <= c <= '9' || 'A' <= c <= 'F' || 'a' <= c <= 'f'
  }

  /** One digit of htoi. */
  function HexValue(c: char): (d: nat)
    requires IsHex(c)
    ensures d < 16
  {
    if '0' <= c <= '9' then c as int - '0' as int
    else if 'A' <= c <= 'F' then c as int - 'A' as int + 10
    else c as int - 'a' as int + 10
  }

  /** htoi. */
  function Htoi(hi: char, lo: char): (c: char)
    requires IsHex(hi) && IsHex(lo)
    ensures c <= '\U{FF}'
  {
    (HexValue(hi) * 16 + HexValue(lo)) as char
  }

  function EncodeByte(c: char): (r: string)
    requires c <= '\U{FF}'
    ensures 1 <= |r| <= 3
  {
    if MustEncode(c) then ['%', HexChar(c as int / 16), HexChar(c as int % 16)] else [c]
  }

  function Encode(s: string): (r: string)
    requires Bytes(s)
    ensures |s| <= |r| <= 3 * |s|
  {
    if s == [] then [] else EncodeByte(s[0]) + Encode(s[1..])
  }

  function Decode(s: string): (r: string)
    ensures |r| <= |s|
  {
    if s == [] then []
    else if s[0] == '%' && |s| >= 3 && IsHex(s[1]) && IsHex(s[2]) then [Htoi(s[1], s[2])] + Decode(s[3..])
    else [s[0]] + Decode(s[1..])
  }

  /** One round of url_decode: the byte written and how far the input moves. */
  lemma DecodeStep(s: string, data: nat)
    requires data < |s|
    ensures var rest := s[data..];
            if s[data] == '%' && |s| - data >= 3 && IsHex(s[data + 1]) && IsHex(s[data + 2])
            then Decode(rest) == [Htoi(s[data + 1], s[data + 2])] + Decode(s[data + 3..])
            else Decode(rest) == [s[data]] + Decode(s[data + 1..])
  {
    hide IsHex, Htoi;
    var rest := s[data..];
    if |rest| >= 3 { assert rest[3..] == s[data + 3..]; }
    assert rest[1..] == s[data + 1..];
  }

  /** Decoding undoes encoding. */
  lemma {:induction false} DecodeEncode(s: string)
    requires Bytes(s)
    ensures Decode(Encode(s)) == s
  {
    if s != [] {
      var e, rest := EncodeByte(s[0]), Encode(s[1..]);
      DecodeEncode(s[1..]);
      MustEncodeIsUnsafe(s[0]);
      assert (e + rest)[|e|..] == rest;
      if MustEncode(s[0]) {
        assert (e + rest)[0] == '%' && (e + rest)[1] == e[1] && (e + rest)[2] == e[2];
        assert Htoi(e[1], e[2]) == s[0];
      } else {
        assert (e + rest)[0] == s[0] != '%';
      }
      assert [s[0]] + s[1..] == s;
    }
  }

  /** Encoded text has only letters, digits, '-', '.', '_' and '%'. */
  lemma {:induction false} EncodeAlphabet(s: string)
    requires Bytes(s)
    ensures forall k | 0 <= k < |Encode(s)| :: IsSafe(Encode(s)[k]) || Encode(s)[k] == '%'
  {
    if s != [] {
      EncodeAlphabet(s[1..]);
      MustEncodeIsUnsafe(s[0]);
    }
  }

  /** Text without '%' decodes to itself. */
  lemma {:induction false} DecodePlain(s: string)
    requires '%' !in s
    ensures Decode(s) == s
  {
    if s != [] { DecodePlain(s[1..]); }
  }

  /** The C string in a buffer. */
  ghost predicate HoldsString(buffer: array<char>, s: string)
    reads buffer
  {
    |s| < buffer.Length && buffer[..|s|] == s && buffer[|s|] == NUL
  }

  lemma {:induction false} EncodeAppend(s: string, c: char)
    requires Bytes(s) && IsByte(c)
    ensures Bytes(s + [c]) && Encode(s + [c]) == Encode(s) + EncodeByte(c)
  {
    if s == [] {
      assert s + [c] == [c];
    } else {
      assert (s + [c])[1..] == s[1..] + [c];
      EncodeAppend(s[1..], c);
    }
  }

  /** url_encode: the output buffer of 3*len+1 bytes is large enough. */
  method UrlEncode(s: string) returns (str: array<char>)
    requires Bytes(s)
    ensures fresh(str) && str.Length == 3 * |s| + 1 && HoldsString(str, Encode(s))
  {
    hide Encode, HexChar, MustEncode;
    str := new char[3 * |s| + 1];
    EncodeNothing();
    var x, y := 0, 0;
    assert s[..0] == [];
    while x < |s|
      invariant 0 <= x <= |s| && y == |Encode(s[..x])| <= 3 * x && str[..y] == Encode(s[..x])
    {
      EncodeAppend(s[..x], s[x]);
      assert s[..x] + [s[x]] == s[..x + 1];
      ghost var done := str[..y];
      str[y] := s[x];
      if MustEncode(s[x]) {
        str[y] := '%';
        y := y + 1;
        str[y] := HexChar(s[x] as int / 16);
        y := y + 1;
        str[y] := HexChar(s[x] as int % 16);
      }
      assert str[..y + 1] == done + EncodeByte(s[x]);
      x, y := x + 1, y + 1;
    }
    assert s[..|s|] == s;
    str[y] := NUL;
  }

  /** url_decode: the output buffer of len+1 bytes is large enough. The text left behind is what
      was decoded, which is the whole C string unless a %00 was in it. */
  method UrlDecode(s: string) returns (str: array<char>)
    ensures fresh(str) && str.Length == |s| + 1
    ensures HoldsString(str, Decode(s))
  {
    hide Decode, IsHex, Htoi;
    str := new char[|s| + 1];
    var data, dest := 0, 0;
    assert s[0..] == s;
    while data < |s|
      invariant 0 <= dest <= data <= |s| && str[..dest] + Decode(s[data..]) == Decode(s)
    {
      DecodeStep(s, data);
      ghost var done := str[..dest];
      var len := |s| - data - 1;
      if s[data] == '%' && len >= 2 && IsHex(s[data + 1]) && IsHex(s[data + 2]) {
        str[dest] := Htoi(s[data + 1], s[data + 2]);
        data := data + 2;
      } else {
        str[dest] := s[data];
      }
      assert str[..dest + 1] == done + [str[dest]];
      data, dest := data + 1, dest + 1;
    }
    str[dest] := NUL;
    DecodeNothing(s[data..]);
    assert str[..dest] + [] == Decode(s);
  }

  lemma EncodeNothing()
    ensures Encode([]) == []
  {
  }

  lemma DecodeNothing(s: string)
    requires s == []
    ensures Decode(s) == []
  {
  }

  // ---- by character codes ----

  /** The value of a hexadecimal digit of either case, -1 for any other character. */
  function HexCode(c: char): int {
    var v := c as int;
    if 48 <= v <= 57 then v - 48 else if 65 <= v <= 70 then v - 55 else if 97 <= v <= 102 then v - 87 else -1
  }

  /** An escaped byte may be in hexadecimal of either case; a '%' without two such digits behind it,
      and any other byte, is left as it is. */
  lemma DecodeIs(s: string)
    requires s != ""
    ensures Decode(s) ==
              if s[0] as int == 37 && |s| >= 3 && HexCode(s[1]) >= 0 && HexCode(s[2]) >= 0
              then [(16 * HexCode(s[1]) + HexCode(s[2])) as char] + Decode(s[3..])
              else [s[0]] + Decode(s[1..])
  {
    if |s| >= 3 {
      HexByCode(s[1]);
      HexByCode(s[2]);
    }
  }

  lemma HexByCode(c: char)
    ensures IsHex(c) <==> HexCode(c) >= 0
    ensures IsHex(c) ==> HexValue(c) == HexCode(c) < 16
  {
  }

  /** Letters, digits, '-', '.' and '_' stay; any other byte is escaped in capital hexadecimal. */
  lemma EncodeIs(c: char)
    requires c as int <= 255
    ensures var v := c as int;
            EncodeByte(c) ==
              if 48 <= v <= 57 || 65 <= v <= 90 || 97 <= v <= 122 || v in {45, 46, 95} then [c]
              else [37 as char, "0123456789ABCDEF"[v / 16], "0123456789ABCDEF"[v % 16]]
  {
    MustEncodeIsUnsafe(c);
  }
}
