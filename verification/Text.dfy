/** Text as streams read and write it: decimal numbers, whitespace, single characters. */
module Text {
  import opened Wrappers

  const NUL := '\0'

  /** The C string at the head of a buffer. */
  function CString(s: string): (r: string)
    ensures r <= s && NUL !in r
  {
    if s == [] || s[0] == NUL then [] else [s[0]] + CString(s[1..])
  }

  lemma {:induction false} CStringOf(s: string)
    requires NUL !in s
    ensures CString(s) == s
  {
    if s != [] { CStringOf(s[1..]); }
  }

  /** A NUL-free text ends at the first zero after it. */
  lemma {:induction false} CStringBeforeNul(s: string, rest: string)
    requires NUL !in s && rest != [] && rest[0] == NUL
    ensures CString(s + rest) == s
  {
    if s == [] {
      assert s + rest == rest;
    } else {
      assert (s + rest)[1..] == s[1..] + rest;
      CStringBeforeNul(s[1..], rest);
    }
  }

  /** isspace in the C locale. */
  predicate IsSpace(c: char) {
    c == ' ' || c == '\t' || c == '\n' || c == '\r' || c == '\U{0B}' || c == '\U{0C}'
  }

  predicate IsDigit(c: char) {
    '0' <= c <= '9'
  }

  function DigitChar(d: nat): (c: char)
    requires d < 10
    ensures IsDigit(c) && DigitValue(c) == d
  {
    '0' + d as char
  }

  function DigitValue(c: char): (d: nat)
    requires IsDigit(c)
    ensures d < 10
  {
    c as int - '0' as int
  }

  // ---- writing ----

  /** Decimal digits of n, as operator<< writes them. */
  function Digits(n: nat): (s: string)
    ensures s != [] && forall k :: 0 <= k < |s| ==> IsDigit(s[k])
  {
    if n < 10 then [DigitChar(n)] else Digits(n / 10) + [DigitChar(n % 10)]
  }

  function RenderInt(i: int): (s: string)
    ensures s != []
  {
    if i < 0 then ['-'] + Digits(-i) else Digits(i)
  }

  // ---- reading ----

  /** What is left after leading whitespace. */
  function SkipSpaces(s: string): (r: string)
    ensures |r| <= |s|
    ensures r != [] ==> !IsSpace(r[0])
  {
    if s != [] && IsSpace(s[0]) then SkipSpaces(s[1..]) else s
  }

  /** operator>> into a char. */
  function ReadChar(s: string): (r: Option<(char, string)>)
    ensures r.Some? ==> !IsSpace(r.value.0) && |r.value.1| < |s|
  {
    var t := SkipSpaces(s);
    if t == [] then None else Some((t[0], t[1..]))
  }

  /** Number of leading digits. */
  function DigitRun(s: string): (n: nat)
    ensures n <= |s|
    ensures forall k :: 0 <= k < n ==> IsDigit(s[k])
    ensures n < |s| ==> !IsDigit(s[n])
  {
    if s != [] && IsDigit(s[0]) then 1 + DigitRun(s[1..]) else 0
  }

  function DigitsValue(s: string): nat
    requires forall k :: 0 <= k < |s| ==> IsDigit(s[k])
  {
    if s == [] then 0 else 10 * DigitsValue(s[..|s| - 1]) + DigitValue(s[|s| - 1])
  }

  /** The digits at the head of s, at least one. */
  function ReadDigits(s: string): (r: Option<(nat, string)>)
    ensures r.Some? ==> |r.value.1| < |s|
  {
    var n := DigitRun(s);
    if n == 0 then None else Some((DigitsValue(s[..n]), s[n..]))
  }

  /** operator>> into an int, in base 10; None when no number is there. */
  function ReadInt(s: string): (r: Option<(int, string)>)
    ensures r.Some? ==> |r.value.1| < |s|
  {
    var t := SkipSpaces(s);
    if t != [] && t[0] == '-' then
      match ReadDigits(t[1..])
      case None => None
      case Some((n, rest)) => Some((-(n as int), rest))
    else
      match ReadDigits(if t != [] && t[0] == '+' then t[1..] else t)
      case None => None
      case Some((n, rest)) => Some((n, rest))
  }

  // ---- reading undoes writing ----

  lemma {:induction false} DigitsValueOfDigits(n: nat)
    ensures DigitsValue(Digits(n)) == n
  {
    if n < 10 {
      assert Digits(n)[..0] == [];
    } else {
      DigitsValueOfDigits(n / 10);
      assert Digits(n)[..|Digits(n)| - 1] == Digits(n / 10);
    }
  }

  lemma {:induction false} DigitRunOf(d: string, rest: string)
    requires (forall k :: 0 <= k < |d| ==> IsDigit(d[k])) && (rest == [] || !IsDigit(rest[0]))
    ensures DigitRun(d + rest) == |d|
  {
    if d == [] {
      assert d + rest == rest;
    } else {
      assert (d + rest)[1..] == d[1..] + rest;
      DigitRunOf(d[1..], rest);
    }
  }

  lemma ReadDigitsOf(n: nat, rest: string)
    requires rest == [] || !IsDigit(rest[0])
    ensures ReadDigits(Digits(n) + rest) == Some((n, rest))
  {
    DigitRunOf(Digits(n), rest);
    DigitsValueOfDigits(n);
    assert (Digits(n) + rest)[..|Digits(n)|] == Digits(n);
    assert (Digits(n) + rest)[|Digits(n)|..] == rest;
  }

  /** A number written before a non-digit is read back. */
  lemma ReadIntOf(i: int, rest: string)
    requires rest == [] || !IsDigit(rest[0])
    ensures ReadInt(RenderInt(i) + rest) == Some((i, rest))
  {
    hide Digits, ReadDigits;
    var s := RenderInt(i) + rest;
    if i < 0 {
      ReadDigitsOf(-i, rest);
      assert s[1..] == Digits(-i) + rest;
      assert s[0] == '-';
    } else {
      ReadDigitsOf(i, rest);
      assert s == Digits(i) + rest;
      assert s[0] == Digits(i)[0];
      assert IsDigit(s[0]);
    }
    assert SkipSpaces(s) == s;
  }

  lemma SkipOne(c: char, s: string)
    requires IsSpace(c)
    ensures SkipSpaces([c] + s) == SkipSpaces(s)
    ensures ReadInt([c] + s) == ReadInt(s) && ReadChar([c] + s) == ReadChar(s)
  {
    assert ([c] + s)[1..] == s;
    SkipTwice(s);
  }

  lemma {:induction false} SkipTwice(s: string)
    ensures SkipSpaces(SkipSpaces(s)) == SkipSpaces(s)
  {
    if s != [] && IsSpace(s[0]) { SkipTwice(s[1..]); }
  }

  lemma ReadCharOf(c: char, rest: string)
    requires !IsSpace(c)
    ensures ReadChar([c] + rest) == Some((c, rest))
  {
    assert ([c] + rest)[1..] == rest;
  }

  lemma OneDigit(n: nat)
    ensures |Digits(n)| <= |Digits(n / 10)| + 1
  {
  }

  lemma FourDigits(n: nat)
    ensures |Digits(n)| <= |Digits(n / 10000)| + 4
  {
    hide Digits;
    assert n / 10 / 10 == n / 100 && n / 100 / 10 == n / 1000 && n / 1000 / 10 == n / 10000;
    OneDigit(n);
    OneDigit(n / 10);
    OneDigit(n / 100);
    OneDigit(n / 1000);
  }

  lemma DigitsFew(n: nat)
    requires n < 0x1_0000_0000_0000_0000
    ensures |Digits(n)| <= 21
  {
    FourDigits(n);
    FourDigits(n / 10000);
    FourDigits(n / 10000 / 10000);
    FourDigits(n / 10000 / 10000 / 10000);
    FourDigits(n / 10000 / 10000 / 10000 / 10000);
  }

  // ---- by character codes ----

  /** The blanks, and the digits with their values. */
  lemma SpacesAndDigits(c: char)
    ensures IsSpace(c) <==> c as int in {9, 10, 11, 12, 13, 32}
    ensures IsDigit(c) <==> 48 <= c as int <= 57
    ensures IsDigit(c) ==> DigitValue(c) == c as int - 48
  {
  }

  /** The value of a decimal, from the codes of its digits. */
  ghost function Decimal(s: string): int {
    if s == [] then 0 else 10 * Decimal(s[..|s| - 1]) + (s[|s| - 1] as int - 48)
  }

  /** A number is written in decimal digits without a leading zero. */
  lemma {:induction false} DecimalText(n: nat)
    ensures Decimal(Digits(n)) == n && (forall k | 0 <= k < |Digits(n)| :: 48 <= Digits(n)[k] as int <= 57)
    ensures |Digits(n)| > 1 ==> Digits(n)[0] as int != 48
    ensures n > 0 ==> Digits(n)[0] as int != 48
  {
    if n < 10 {
      assert Digits(n)[..0] == [];
    } else {
      DecimalText(n / 10);
      assert Digits(n)[..|Digits(n)| - 1] == Digits(n / 10);
    }
  }
}
