/** The JavaScript string operations the request engine relies on, with the
    semantics of the built-ins they stand for: `startsWith`, `includes`,
    `replace` with a string pattern (first occurrence only), `split` on one
    character, `join`, decimal number rendering, `parseInt` and the
    "first n characters plus an ellipsis" truncation used for previews. */
module Strings {
  import opened Wrappers

  predicate StartsWith(s: string, prefix: string) {
    prefix <= s
  }

  /** Position of the first occurrence of `pat` in `s` (`String.prototype.indexOf`). */
  function IndexOf(s: string, pat: string): (r: Option<nat>)
    ensures r.Some? ==> r.value + |pat| <= |s| && s[r.value..r.value + |pat|] == pat
    ensures r.Some? ==> forall j :: 0 <= j < r.value ==> !StartsWith(s[j..], pat)
    ensures r.None? ==> forall j :: 0 <= j <= |s| ==> !StartsWith(s[j..], pat)
    decreases |s|
  {
    if StartsWith(s, pat) then Some(0)
    else if |s| == 0 then None
    else
      match IndexOf(s[1..], pat)
      case None =>
        assert forall j :: 0 <= j <= |s| ==> !StartsWith(s[j..], pat) by {
          forall j | 1 <= j <= |s| ensures !StartsWith(s[j..], pat) {
            assert s[j..] == s[1..][j - 1..];
          }
        }
        None
      case Some(i) =>
        assert s[i + 1..i + 1 + |pat|] == s[1..][i..i + |pat|];
        assert forall j :: 0 <= j < i + 1 ==> !StartsWith(s[j..], pat) by {
          forall j | 1 <= j < i + 1 ensures !StartsWith(s[j..], pat) {
            assert s[j..] == s[1..][j - 1..];
          }
        }
        Some(i + 1)
  }

  /** `s.includes(pat)` */
  predicate Contains(s: string, pat: string) {
    IndexOf(s, pat).Some?
  }

  /** `s.replace(pat, rep)` with a string pattern: only the first occurrence is replaced. */
  function ReplaceFirst(s: string, pat: string, rep: string): (r: string)
    ensures !Contains(s, pat) ==> r == s
    ensures Contains(s, pat) ==>
      var i := IndexOf(s, pat).value;
      |r| == |s| - |pat| + |rep| && r[..i] == s[..i] && r[i..] == rep + s[i + |pat|..]
  {
    match IndexOf(s, pat)
    case None => s
    case Some(i) => s[..i] + rep + s[i + |pat|..]
  }

  /** Replacing a pattern the string starts with swaps exactly that prefix. */
  lemma ReplaceLeadingPattern(s: string, pat: string, rep: string)
    requires StartsWith(s, pat)
    ensures ReplaceFirst(s, pat, rep) == rep + s[|pat|..]
  {
    assert s[0..] == s;
    assert IndexOf(s, pat) == Some(0);
  }

  /** `s.split(sep)` for a one-character separator: always at least one field,
      and no field contains the separator. */
  function Split(s: string, sep: char): (parts: seq<string>)
    ensures |parts| >= 1
    ensures forall i :: 0 <= i < |parts| ==> sep !in parts[i]
    decreases |s|
  {
    if |s| == 0 then [""]
    else
      var rest := Split(s[1..], sep);
      if s[0] == sep then [""] + rest
      else [[s[0]] + rest[0]] + rest[1..]
  }

  /** `parts.join(sep)` */
  function Join(parts: seq<string>, sep: string): string
    decreases |parts|
  {
    if |parts| == 0 then ""
    else if |parts| == 1 then parts[0]
    else parts[0] + sep + Join(parts[1..], sep)
  }

  /** Splitting and joining back with the same separator is the identity. */
  lemma {:induction false} SplitJoin(s: string, sep: char)
    ensures Join(Split(s, sep), [sep]) == s
    decreases |s|
  {
    if |s| > 0 {
      var rest := Split(s[1..], sep);
      SplitJoin(s[1..], sep);
      if s[0] == sep {
        assert Split(s, sep) == [""] + rest;
        assert ([""] + rest)[1..] == rest;
        assert s == [sep] + s[1..];
      } else if |rest| == 1 {
        assert Join(rest, [sep]) == rest[0];
        assert s == [s[0]] + s[1..];
      } else {
        var parts := Split(s, sep);
        assert parts == [[s[0]] + rest[0]] + rest[1..];
        assert parts[1..] == rest[1..];
        assert Join(rest, [sep]) == rest[0] + [sep] + Join(rest[1..], [sep]);
        assert s == [s[0]] + s[1..];
      }
    }
  }

  /** A string without the separator is a single field. */
  lemma {:induction false} SplitWithoutSeparator(a: string, sep: char)
    requires sep !in a
    ensures Split(a, sep) == [a]
    decreases |a|
  {
    if |a| > 0 {
      SplitWithoutSeparator(a[1..], sep);
      assert [a[0]] + a[1..] == a;
    }
  }

  /** The text before the first separator becomes the first field. */
  lemma {:induction false} SplitAtFirstSeparator(a: string, b: string, sep: char)
    requires sep !in a
    ensures Split(a + [sep] + b, sep) == [a] + Split(b, sep)
    decreases |a|
  {
    var s := a + [sep] + b;
    if |a| == 0 {
      assert s[1..] == b;
    } else {
      SplitAtFirstSeparator(a[1..], b, sep);
      assert s[1..] == a[1..] + [sep] + b;
      assert [a[0]] + a[1..] == a;
    }
  }

  /** `s.split(sep)[i]`: `None` plays the part of `undefined` past the last field. */
  function Field(s: string, sep: char, i: nat): (r: Option<string>)
    ensures r.Some? <==> i < |Split(s, sep)|
    ensures r.Some? ==> sep !in r.value
  {
    var parts := Split(s, sep);
    if i < |parts| then Some(parts[i]) else None
  }

  /** JavaScript truthiness of an optional string: neither `undefined` nor `""`. */
  predicate HasText(v: Option<string>) {
    v.Some? && v.value != ""
  }

  /** `a || b` over optional strings. */
  function OrElse(a: Option<string>, b: Option<string>): (r: Option<string>)
    ensures HasText(a) ==> r == a
    ensures !HasText(a) ==> r == b
  {
    if HasText(a) then a else b
  }

  // ---------------------------------------------------------------- numbers

  predicate IsDigit(c: char) {
    '0' <= c <= '9'
  }

  function DigitChar(d: nat): (c: char)
    requires d < 10
    ensures IsDigit(c)
  {
    "0123456789"[d]
  }

  function DigitValue(c: char): (d: nat)
    requires IsDigit(c)
    ensures d < 10
  {
    (c as int - '0' as int) as nat
  }

  /** Decimal rendering of a natural number (`String(n)` / template literal). */
  function NatToString(n: nat): (s: string)
    ensures |s| >= 1
    ensures forall i :: 0 <= i < |s| ==> IsDigit(s[i])
    decreases n
  {
    if n < 10 then [DigitChar(n)] else NatToString(n / 10) + [DigitChar(n % 10)]
  }

  /** Decimal rendering of an integer: a minus sign then the magnitude. */
  function IntToString(i: int): string {
    if i < 0 then "-" + NatToString(-i) else NatToString(i)
  }

  /** The number a string of decimal digits denotes. */
  function DigitsValue(s: string): nat
    requires forall i :: 0 <= i < |s| ==> IsDigit(s[i])
    decreases |s|
  {
    if |s| == 0 then 0 else DigitsValue(s[..|s| - 1]) * 10 + DigitValue(s[|s| - 1])
  }

  /** Reading back a rendered number gives the number. */
  lemma {:induction false} NatToStringDigits(n: nat)
    ensures DigitsValue(NatToString(n)) == n
    decreases n
  {
    var s := NatToString(n);
    if n >= 10 {
      NatToStringDigits(n / 10);
      assert s[..|s| - 1] == NatToString(n / 10);
    }
  }

  /** Rendering is injective, so rendered numbers can serve as keys. */
  lemma NatToStringInjective(m: nat, n: nat)
    requires NatToString(m) == NatToString(n)
    ensures m == n
  {
    NatToStringDigits(m);
    NatToStringDigits(n);
  }

  /** The result of JavaScript `parseInt`. */
  datatype ParsedInt = Int(value: int) | NaN

  /** The longest prefix of `s` made of decimal digits. */
  function LeadingDigits(s: string): (d: string)
    ensures d <= s
    ensures forall i :: 0 <= i < |d| ==> IsDigit(d[i])
    ensures |d| < |s| ==> !IsDigit(s[|d|])
    decreases |s|
  {
    if |s| == 0 || !IsDigit(s[0]) then "" else [s[0]] + LeadingDigits(s[1..])
  }

  /** `StrWhiteSpaceChar` of ECMAScript (section 7.1.4.1 of ECMA-262): the
      white space characters, the line terminators and every space separator
      of Unicode category Zs. */
  predicate IsJsSpace(c: char) {
    || c == '\t' || c == '\n' || c == '\U{000B}' || c == '\U{000C}' || c == '\r' || c == ' '
    || c == '\U{00A0}' || c == '\U{1680}' || ('\U{2000}' <= c <= '\U{200A}')
    || c == '\U{2028}' || c == '\U{2029}' || c == '\U{202F}' || c == '\U{205F}'
    || c == '\U{3000}' || c == '\U{FEFF}'
  }

  /** `parseInt`'s first step: leading white space removed. */
  function TrimStartSpaces(s: string): (t: string)
    ensures |t| <= |s| && t == s[|s| - |t|..]
    ensures |t| > 0 ==> !IsJsSpace(t[0])
    ensures forall i :: 0 <= i < |s| - |t| ==> IsJsSpace(s[i])
    decreases |s|
  {
    if |s| > 0 && IsJsSpace(s[0]) then
      var t := TrimStartSpaces(s[1..]);
      assert forall i :: 1 <= i < |s| - |t| ==> s[i] == s[1..][i - 1];
      t
    else s
  }

  /** Text that does not start with white space is left as it is. */
  lemma NothingToTrim(s: string)
    requires |s| == 0 || !IsJsSpace(s[0])
    ensures TrimStartSpaces(s) == s
  {
  }

  /** The value of `c` as a digit of the radix (letters of either case count
      from ten), if it is one. */
  function RadixDigit(c: char, radix: nat): (d: Option<nat>)
    ensures d.Some? ==> d.value < radix
  {
    var v: int :=
      if IsDigit(c) then DigitValue(c)
      else if 'a' <= c <= 'z' then c as int - 'a' as int + 10
      else if 'A' <= c <= 'Z' then c as int - 'A' as int + 10
      else radix;
    if v < radix then Some(v as nat) else None
  }

  /** In radix 10 the digits are exactly the decimal ones, with their values. */
  lemma DecimalDigit(c: char)
    ensures RadixDigit(c, 10).Some? <==> IsDigit(c)
    ensures IsDigit(c) ==> RadixDigit(c, 10) == Some(DigitValue(c))
  {
  }

  /** The longest prefix of `s` made of digits of the radix. */
  function LeadingRadixDigits(s: string, radix: nat): (d: string)
    ensures d <= s
    ensures forall i :: 0 <= i < |d| ==> RadixDigit(d[i], radix).Some?
    ensures |d| < |s| ==> RadixDigit(s[|d|], radix).None?
    decreases |s|
  {
    if |s| == 0 || RadixDigit(s[0], radix).None? then "" else [s[0]] + LeadingRadixDigits(s[1..], radix)
  }

  /** The number a string of digits of the radix denotes. */
  function RadixValue(s: string, radix: nat): nat
    requires forall i :: 0 <= i < |s| ==> RadixDigit(s[i], radix).Some?
    decreases |s|
  {
    if |s| == 0 then 0
    else
      var init := s[..|s| - 1];
      assert forall i :: 0 <= i < |init| ==> init[i] == s[i];
      var high := RadixValue(init, radix);
      ProductOfNaturals(high, radix);
      high * radix + RadixDigit(s[|s| - 1], radix).value
  }

  lemma ProductOfNaturals(a: nat, b: nat)
    ensures a * b >= 0
  {
  }

  /** Does the text after the sign carry the `0x`/`0X` prefix of radix 16? */
  predicate HexPrefixed(t: string) {
    |t| >= 2 && t[0] == '0' && (t[1] == 'x' || t[1] == 'X')
  }

  /** `parseInt(s)` with no radix (section 19.2.5 of ECMA-262): leading white
      space is skipped and an optional sign read, then the magnitude. */
  function ParseInt(s: string): (r: ParsedInt)
    ensures r.NaN? <==> Magnitude(Unsigned(TrimStartSpaces(s))).None?
  {
    ParseTrimmed(TrimStartSpaces(s))
  }

  /** `parseInt` once the white space is gone. */
  function ParseTrimmed(t: string): (r: ParsedInt)
    ensures r.NaN? <==> Magnitude(Unsigned(t)).None?
  {
    match Magnitude(Unsigned(t))
    case None => NaN
    case Some(m) => if |t| > 0 && t[0] == '-' then Int(0 - m) else Int(m)
  }

  /** The text after an optional sign. */
  function Unsigned(t: string): (u: string)
    ensures |t| > 0 && (t[0] == '-' || t[0] == '+') ==> u == t[1..]
    ensures !(|t| > 0 && (t[0] == '-' || t[0] == '+')) ==> u == t
  {
    if |t| > 0 && (t[0] == '-' || t[0] == '+') then t[1..] else t
  }

  /** A `0x` or `0X` prefix selects radix 16, otherwise radix 10; the longest
      run of digits of that radix is the number, and no digits give `None`
      (`NaN`). */
  function Magnitude(body: string): (m: Option<nat>)
  {
    var radix := if HexPrefixed(body) then 16 else 10;
    var digits := LeadingRadixDigits(if HexPrefixed(body) then body[2..] else body, radix);
    if |digits| == 0 then None else Some(RadixValue(digits, radix))
  }

  /** Decimal text without a prefix reads as its leading digits. */
  lemma MagnitudeOfDecimal(d: string, rest: string)
    requires |d| > 0 && forall i :: 0 <= i < |d| ==> IsDigit(d[i])
    requires |rest| > 0 ==> !IsDigit(rest[0])
    requires d != "0" || |rest| == 0 || (rest[0] != 'x' && rest[0] != 'X')
    ensures Magnitude(d + rest) == Some(DigitsValue(d))
  {
    assert !HexPrefixed(d + rest) by {
      if |d| >= 2 { assert (d + rest)[1] == d[1]; }
    }
    forall i | 0 <= i < |d| ensures RadixDigit(d[i], 10).Some? {
      DecimalDigit(d[i]);
    }
    if |rest| > 0 {
      DecimalDigit(rest[0]);
    }
    RadixDigitsThenOther(d, rest, 10);
    DecimalRadixValue(d);
  }

  /** For decimal digits the radix reading is the decimal one. */
  lemma {:induction false} DecimalRadixValue(s: string)
    requires forall i :: 0 <= i < |s| ==> IsDigit(s[i])
    ensures RadixValue(s, 10) == DigitsValue(s)
    decreases |s|
  {
    if |s| > 0 {
      DecimalRadixValue(s[..|s| - 1]);
      DecimalDigit(s[|s| - 1]);
    }
  }

  /** A rendered number parses back to itself. */
  lemma ParseIntOfNatToString(n: nat)
    ensures ParseInt(NatToString(n)) == Int(n)
  {
    var s := NatToString(n);
    assert IsDigit(s[0]);
    NothingToTrim(s);
    assert Unsigned(s) == s;
    assert s + "" == s;
    MagnitudeOfDecimal(s, "");
    NatToStringDigits(n);
  }

  /** A minus sign in front of a rendered number negates it. */
  lemma ParseIntOfNegative(n: nat)
    ensures ParseInt("-" + NatToString(n)) == Int(-(n as int))
  {
    var s := NatToString(n);
    var t := "-" + s;
    assert t[0] == '-';
    NothingToTrim(t);
    assert Unsigned(t) == s + "" by { assert t[1..] == s; }
    MagnitudeOfDecimal(s, "");
    NatToStringDigits(n);
  }

  /** Leading white space, whichever kind, does not change the result. */
  lemma ParseIntSkipsSpace(c: char, s: string)
    requires IsJsSpace(c)
    ensures ParseInt([c] + s) == ParseInt(s)
  {
    TrimLeadingSpace(c, s);
  }

  lemma TrimLeadingSpace(c: char, s: string)
    requires IsJsSpace(c)
    ensures TrimStartSpaces([c] + s) == TrimStartSpaces(s)
  {
    assert ([c] + s)[1..] == s;
  }

  /** After a `0x` prefix the hexadecimal digits up to the first other
      character are the number. */
  lemma ParseIntOfHex(h: string, rest: string)
    requires |h| > 0 && forall i :: 0 <= i < |h| ==> RadixDigit(h[i], 16).Some?
    requires |rest| > 0 ==> RadixDigit(rest[0], 16).None?
    ensures ParseInt("0x" + h + rest) == Int(RadixValue(h, 16))
  {
    var t := "0x" + h + rest;
    HexText(h, rest);
    MagnitudeOfHex(t, h, rest);
    ParseIntOfUnsigned(t, RadixValue(h, 16));
  }

  lemma HexText(h: string, rest: string)
    ensures var t := "0x" + h + rest;
      |t| >= 2 && t[0] == '0' && t[1] == 'x' && t[2..] == h + rest
  {
  }

  /** Text with neither leading white space nor a sign is its magnitude. */
  lemma ParseIntOfUnsigned(t: string, m: nat)
    requires |t| > 0 && !IsJsSpace(t[0]) && t[0] != '-' && t[0] != '+'
    requires Magnitude(t) == Some(m)
    ensures ParseInt(t) == Int(m)
  {
    NothingToTrim(t);
    assert Unsigned(t) == t;
  }

  lemma MagnitudeOfHex(body: string, h: string, rest: string)
    requires HexPrefixed(body) && body[2..] == h + rest
    requires |h| > 0 && forall i :: 0 <= i < |h| ==> RadixDigit(h[i], 16).Some?
    requires |rest| > 0 ==> RadixDigit(rest[0], 16).None?
    ensures Magnitude(body) == Some(RadixValue(h, 16))
  {
    RadixDigitsThenOther(h, rest, 16);
  }

  /** The digits of a radix followed by a character that is not one are
      exactly the leading run. */
  lemma {:induction false} RadixDigitsThenOther(h: string, rest: string, radix: nat)
    requires forall i :: 0 <= i < |h| ==> RadixDigit(h[i], radix).Some?
    requires |rest| > 0 ==> RadixDigit(rest[0], radix).None?
    ensures LeadingRadixDigits(h + rest, radix) == h
    decreases |h|
  {
    if |h| > 0 {
      assert (h + rest)[1..] == h[1..] + rest;
      RadixDigitsThenOther(h[1..], rest, radix);
      assert [h[0]] + h[1..] == h;
    } else {
      assert h + rest == rest;
    }
  }

  /** Text that starts with no digit, white space or sign is `NaN`. */
  lemma ParseIntOfNonNumeric(s: string)
    requires |s| > 0 && !IsDigit(s[0]) && !IsJsSpace(s[0]) && s[0] != '-' && s[0] != '+'
    ensures ParseInt(s) == NaN
  {
    NothingToTrim(s);
    assert Unsigned(s) == s;
    assert !HexPrefixed(s);
    DecimalDigit(s[0]);
  }

  // ---------------------------------------------------------------- previews

  /** The first `n` characters followed by "..." when `s` is longer than `n`,
      otherwise `s` unchanged. */
  function Truncate(s: string, n: nat): (r: string)
    ensures |s| <= n ==> r == s
    ensures |s| > n ==> |r| == n + 3 && r[..n] == s[..n] && r[n..] == "..."
    ensures |r| <= n + 3
  {
    if |s| > n then s[..n] + "..." else s
  }

  /** Truncating an already truncated text changes nothing. */
  lemma TruncateIdempotent(s: string, n: nat)
    ensures Truncate(Truncate(s, n), n) == Truncate(s, n)
  {
    var r := Truncate(s, n);
    if |s| > n {
      assert r[..n] + "..." == r;
    }
  }
}
