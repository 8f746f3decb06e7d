/**
 * The JavaScript string operations the pages rely on, written out over `seq<char>`:
 * `trim`, `toLowerCase` (ASCII letters), `includes`, `padStart`, number-to-decimal
 * conversion (template literals, `toString`) and the decimal part of `parseInt`.
 */
module Text {
  import opened Wrappers

  // ---------------------------------------------------------------------------
  // Whitespace and trim
  // ---------------------------------------------------------------------------

  /** The characters `String.prototype.trim` removes: ECMAScript WhiteSpace and LineTerminator. */
  predicate IsJsWhitespace(c: char) {
    || c == '\t' || c == '\n' || c == '\U{000B}' || c == '\U{000C}' || c == '\r' || c == ' '
    || c == '\U{00A0}' || c == '\U{1680}' || ('\U{2000}' <= c <= '\U{200A}')
    || c == '\U{2028}' || c == '\U{2029}' || c == '\U{202F}' || c == '\U{205F}'
    || c == '\U{3000}' || c == '\U{FEFF}'
  }

  predicate AllWhitespace(s: string) {
    forall i :: 0 <= i < |s| ==> IsJsWhitespace(s[i])
  }

  lemma WhitespaceCons(c: char, t: string)
    requires IsJsWhitespace(c) && AllWhitespace(t)
    ensures AllWhitespace([c] + t)
  {
    assert forall i :: 0 < i <= |t| ==> ([c] + t)[i] == t[i - 1];
  }

  lemma WhitespaceSnoc(t: string, c: char)
    requires AllWhitespace(t) && IsJsWhitespace(c)
    ensures AllWhitespace(t + [c])
  {
    assert forall i :: 0 <= i < |t| ==> (t + [c])[i] == t[i];
  }

  /** `s` without its leading whitespace. */
  function TrimStart(s: string): string
    decreases |s|
  {
    if s != [] && IsJsWhitespace(s[0]) then TrimStart(s[1..]) else s
  }

  /** `TrimStart` keeps a suffix of `s` that starts with a non-blank, and drops only whitespace. */
  lemma {:induction false} TrimStartSpec(s: string)
    ensures var r := TrimStart(s);
      && |r| <= |s| && r == s[|s| - |r|..]
      && AllWhitespace(s[..|s| - |r|])
      && (r == [] || !IsJsWhitespace(r[0]))
    decreases |s|
  {
    if s != [] && IsJsWhitespace(s[0]) {
      TrimStartSpec(s[1..]);
      var r := TrimStart(s[1..]);
      var blank := s[1..][..|s| - 1 - |r|];
      assert s[1..][|s| - 1 - |r|..] == s[|s| - |r|..];
      assert s[..|s| - |r|] == [s[0]] + blank;
      WhitespaceCons(s[0], blank);
    } else {
      assert s[..0] == [];
    }
  }

  /** `s` without its trailing whitespace. */
  function TrimEnd(s: string): string
    decreases |s|
  {
    if s != [] && IsJsWhitespace(s[|s| - 1]) then TrimEnd(s[..|s| - 1]) else s
  }

  /** `TrimEnd` keeps a prefix of `s` that ends with a non-blank, and drops only whitespace. */
  lemma {:induction false} TrimEndSpec(s: string)
    ensures var r := TrimEnd(s);
      && |r| <= |s| && r == s[..|r|]
      && AllWhitespace(s[|r|..])
      && (r == [] || !IsJsWhitespace(r[|r| - 1]))
    decreases |s|
  {
    if s != [] && IsJsWhitespace(s[|s| - 1]) {
      TrimEndSpec(s[..|s| - 1]);
      var r := TrimEnd(s[..|s| - 1]);
      var blank := s[..|s| - 1][|r|..];
      assert s[..|s| - 1][..|r|] == s[..|r|];
      assert s[|r|..] == blank + [s[|s| - 1]];
      WhitespaceSnoc(blank, s[|s| - 1]);
    } else {
      assert s[..|s|] == s;
    }
  }

  /** `s.trim()`. */
  function Trim(s: string): string {
    TrimEnd(TrimStart(s))
  }

  /** The trimmed string is empty exactly when every character of `s` is whitespace. */
  lemma TrimEmptyIff(s: string)
    ensures Trim(s) == [] <==> AllWhitespace(s)
  {
    var t := TrimStart(s);
    TrimStartSpec(s);
    TrimEndSpec(t);
    if Trim(s) == [] {
      assert AllWhitespace(t[0..]);
      assert t == [];
      assert s[..|s|] == s;
    }
  }

  // ---------------------------------------------------------------------------
  // Case folding and substring search
  // ---------------------------------------------------------------------------

  /** `toLowerCase` on one character, for the ASCII letters. */
  function LowerChar(c: char): char {
    if 'A' <= c <= 'Z' then (c as int + 32) as char else c
  }

  /** `s.toLowerCase()`, character by character. */
  function ToLower(s: string): (r: string)
    ensures |r| == |s|
    ensures forall i :: 0 <= i < |s| ==> r[i] == LowerChar(s[i])
  {
    if s == [] then [] else [LowerChar(s[0])] + ToLower(s[1..])
  }

  lemma LowerCharIdempotent(c: char)
    ensures LowerChar(LowerChar(c)) == LowerChar(c)
  {
    if 'A' <= c <= 'Z' {
      assert 'a' <= LowerChar(c) <= 'z';
    }
  }

  /** Lower-casing twice is lower-casing once. */
  lemma ToLowerIdempotent(s: string)
    ensures ToLower(ToLower(s)) == ToLower(s)
  {
    var once := ToLower(s);
    var twice := ToLower(once);
    forall i | 0 <= i < |s| ensures twice[i] == once[i] {
      LowerCharIdempotent(s[i]);
    }
  }

  /** `needle` occurs in `s` starting at position `i`. */
  predicate OccursAt(s: string, needle: string, i: int) {
    0 <= i && i + |needle| <= |s| && s[i..i + |needle|] == needle
  }

  lemma OccursShift(s: string, needle: string)
    requires s != []
    ensures forall i :: OccursAt(s[1..], needle, i) ==> OccursAt(s, needle, i + 1)
    ensures forall i :: 1 <= i && OccursAt(s, needle, i) ==> OccursAt(s[1..], needle, i - 1)
  {
    forall i | OccursAt(s[1..], needle, i) ensures OccursAt(s, needle, i + 1) {
      assert s[1..][i..i + |needle|] == s[i + 1..i + 1 + |needle|];
    }
    forall i | 1 <= i && OccursAt(s, needle, i) ensures OccursAt(s[1..], needle, i - 1) {
      assert s[1..][i - 1..i - 1 + |needle|] == s[i..i + |needle|];
    }
  }

  /** `s.includes(needle)`: some position of `s` starts an occurrence of `needle`. */
  function Contains(s: string, needle: string): (r: bool)
    ensures r <==> exists i :: OccursAt(s, needle, i)
    decreases |s|
  {
    if |needle| <= |s| && s[..|needle|] == needle then
      assert OccursAt(s, needle, 0);
      true
    else if s == [] then
      false
    else
      OccursShift(s, needle);
      assert !OccursAt(s, needle, 0);
      Contains(s[1..], needle)
  }

  // ---------------------------------------------------------------------------
  // Decimal digits
  // ---------------------------------------------------------------------------

  predicate IsDigit(c: char) {
    '0' <= c <= '9'
  }

  predicate AllDigits(s: string) {
    forall i :: 0 <= i < |s| ==> IsDigit(s[i])
  }

  function DigitChar(d: nat): (c: char)
    requires d < 10
    ensures IsDigit(c)
  {
    ('0' as int + d) as char
  }

  function DigitValue(c: char): (d: nat)
    requires IsDigit(c)
    ensures d < 10
  {
    c as int - '0' as int
  }

  /** The value of a string of decimal digits, most significant first. */
  function DigitsValue(s: string): nat
    requires AllDigits(s)
    decreases |s|
  {
    if s == [] then 0 else DigitsValue(s[..|s| - 1]) * 10 + DigitValue(s[|s| - 1])
  }

  /** The decimal representation JavaScript gives a non-negative integer: no leading zero. */
  function NatToString(n: nat): (s: string)
    ensures |s| >= 1 && AllDigits(s)
    ensures s[0] == '0' <==> n == 0
    decreases n
  {
    if n < 10 then [DigitChar(n)] else NatToString(n / 10) + [DigitChar(n % 10)]
  }

  /** The decimal representation of an integer, with a leading `-` when negative. */
  function IntToString(i: int): string {
    if i < 0 then "-" + NatToString(-i) else NatToString(i)
  }

  /** Reading back the digits gives the number. */
  lemma {:induction false} NatToStringRoundTrip(n: nat)
    ensures DigitsValue(NatToString(n)) == n
  {
    if n >= 10 {
      var s := NatToString(n);
      assert s[..|s| - 1] == NatToString(n / 10);
      NatToStringRoundTrip(n / 10);
    }
  }

  /** The decimal forms of the numbers the pages write out. */
  lemma SomeNumerals()
    ensures IntToString(0) == "0" && IntToString(1) == "1" && IntToString(7) == "7"
    ensures IntToString(20) == "20" && IntToString(25) == "25" && IntToString(70) == "70"
    ensures IntToString(1302) == "1302"
  {
    assert NatToString(2) == "2" && NatToString(7) == "7" && NatToString(5) == "5";
    assert NatToString(20) == "20" && NatToString(25) == "25" && NatToString(70) == "70";
    assert NatToString(1) == "1" && NatToString(13) == "13";
    assert NatToString(130) == "130";
    assert NatToString(1302) == "1302";
  }

  /** The representation starts with `-` exactly for negative numbers. */
  lemma IntToStringSign(a: int)
    ensures |IntToString(a)| >= 1
    ensures IntToString(a)[0] == '-' <==> a < 0
  {
    if a >= 0 {
      assert IsDigit(NatToString(a)[0]);
    }
  }

  /** Distinct integers have distinct decimal representations. */
  lemma IntToStringInjective(a: int, b: int)
    requires IntToString(a) == IntToString(b)
    ensures a == b
  {
    IntToStringSign(a);
    IntToStringSign(b);
    if a < 0 {
      var m: nat, n: nat := -a, -b;
      var sa, sb := "-" + NatToString(m), "-" + NatToString(n);
      assert IntToString(a) == sa && IntToString(b) == sb;
      assert sa[1..] == NatToString(m) && sb[1..] == NatToString(n);
      NatToStringInjective(m, n);
    } else {
      var m: nat, n: nat := a, b;
      assert IntToString(a) == NatToString(m) && IntToString(b) == NatToString(n);
      NatToStringInjective(m, n);
    }
  }

  lemma NatToStringInjective(m: nat, n: nat)
    requires NatToString(m) == NatToString(n)
    ensures m == n
  {
    NatToStringRoundTrip(m);
    NatToStringRoundTrip(n);
  }

  // ---------------------------------------------------------------------------
  // padStart
  // ---------------------------------------------------------------------------

  function Repeat(c: char, n: nat): (r: string)
    ensures |r| == n && forall i :: 0 <= i < n ==> r[i] == c
  {
    seq(n, _ => c)
  }

  /** `s.padStart(width, fill)` with a one-character fill: `s` preceded by enough `fill` to reach `width`. */
  function PadStart(s: string, width: nat, fill: char): (r: string)
    ensures |r| == if |s| >= width then |s| else width
    ensures r[|r| - |s|..] == s
    ensures forall i :: 0 <= i < |r| - |s| ==> r[i] == fill
  {
    if |s| >= width then s else Repeat(fill, width - |s|) + s
  }

  lemma {:induction false} ZerosValue(n: nat)
    ensures AllDigits(Repeat('0', n)) && DigitsValue(Repeat('0', n)) == 0
  {
    if n > 0 {
      assert Repeat('0', n)[..n - 1] == Repeat('0', n - 1);
      ZerosValue(n - 1);
    }
  }

  /** Leading zeros do not change the value of a digit string. */
  lemma {:induction false} LeadingZerosValue(k: nat, s: string)
    requires AllDigits(s)
    ensures AllDigits(Repeat('0', k) + s)
    ensures DigitsValue(Repeat('0', k) + s) == DigitsValue(s)
    decreases |s|
  {
    var t := Repeat('0', k) + s;
    if s == [] {
      assert t == Repeat('0', k);
      ZerosValue(k);
    } else {
      assert t[..|t| - 1] == Repeat('0', k) + s[..|s| - 1];
      LeadingZerosValue(k, s[..|s| - 1]);
    }
  }

  // ---------------------------------------------------------------------------
  // parseInt (decimal)
  // ---------------------------------------------------------------------------

  /** The length of the run of decimal digits at the start of `s`. */
  function DigitPrefixLength(s: string): (n: nat)
    ensures n <= |s| && AllDigits(s[..n])
    ensures n == |s| || !IsDigit(s[n])
    decreases |s|
  {
    if s != [] && IsDigit(s[0]) then
      var m := DigitPrefixLength(s[1..]);
      assert s[..m + 1] == [s[0]] + s[1..][..m];
      1 + m
    else
      0
  }

  /** The digits at the start of `u` read as a number; `None` when `u` does not start with a digit. */
  function ParseUnsigned(u: string): Option<nat> {
    var n := DigitPrefixLength(u);
    if n == 0 then None else Some(DigitsValue(u[..n]))
  }

  /**
   * `parseInt(s)` in base 10: leading whitespace is skipped, an optional sign is read,
   * then the longest run of digits; `None` stands for `NaN` (no digit there).
   */
  function ParseInt(s: string): Option<int> {
    var t := TrimStart(s);
    if t != [] && t[0] == '-' then
      match ParseUnsigned(t[1..])
      case None => None
      case Some(v) => Some(-(v as int))
    else if t != [] && t[0] == '+' then
      match ParseUnsigned(t[1..])
      case None => None
      case Some(v) => Some(v)
    else
      match ParseUnsigned(t)
      case None => None
      case Some(v) => Some(v)
  }

  lemma {:induction false} DigitRunLength(d: string, rest: string)
    requires AllDigits(d)
    requires rest == [] || !IsDigit(rest[0])
    ensures DigitPrefixLength(d + rest) == |d|
    decreases |d|
  {
    if d != [] {
      assert (d + rest)[1..] == d[1..] + rest;
      DigitRunLength(d[1..], rest);
    } else {
      assert d + rest == rest;
    }
  }

  /** A run of digits followed by something that does not start with a digit reads as the run. */
  lemma ParseUnsignedDigits(d: string, rest: string)
    requires d != [] && AllDigits(d)
    requires rest == [] || !IsDigit(rest[0])
    ensures ParseUnsigned(d + rest) == Some(DigitsValue(d))
  {
    DigitRunLength(d, rest);
    assert (d + rest)[..|d|] == d;
  }

  lemma TrimStartNoBlank(s: string)
    requires s != [] && !IsJsWhitespace(s[0])
    ensures TrimStart(s) == s
  {
  }

  /** A run of digits followed by anything that does not start with a digit parses to the run's value. */
  lemma ParseIntDigitPrefix(d: string, rest: string)
    requires d != [] && AllDigits(d)
    requires rest == [] || !IsDigit(rest[0])
    ensures ParseInt(d + rest) == Some(DigitsValue(d))
  {
    var s := d + rest;
    assert s[0] == d[0] && IsDigit(s[0]);
    TrimStartNoBlank(s);
    ParseUnsignedDigits(d, rest);
  }

  /** A leading `-` negates what the rest reads as. */
  lemma ParseIntMinus(u: string)
    ensures ParseInt("-" + u) == match ParseUnsigned(u) case None => None case Some(v) => Some(-(v as int))
  {
    var s := "-" + u;
    assert s[0] == '-' && s[1..] == u;
    assert !IsJsWhitespace('-');
    TrimStartNoBlank(s);
  }

  lemma ParseUnsignedOfDigits(d: string)
    requires d != [] && AllDigits(d)
    ensures ParseUnsigned(d) == Some(DigitsValue(d))
  {
    ParseUnsignedDigits(d, []);
    assert d + [] == d;
  }

  lemma ParseIntMinusValue(u: string, v: nat)
    requires ParseUnsigned(u) == Some(v)
    ensures ParseInt("-" + u) == Some(-(v as int))
  {
    ParseIntMinus(u);
  }

  /** A digit string parses to its value. */
  lemma ParseIntOfDigits(d: string)
    requires d != [] && AllDigits(d)
    ensures ParseInt(d) == Some(DigitsValue(d) as int)
  {
    ParseIntDigitPrefix(d, []);
    assert d + [] == d;
  }

  /** `parseInt` reads back what the decimal conversion writes, negative numbers included. */
  lemma ParseIntOfNatToString(n: nat)
    ensures ParseInt(NatToString(n)) == Some(n as int)
  {
    ParseIntOfDigits(NatToString(n));
    NatToStringRoundTrip(n);
  }

  /** With a leading `-` the digits parse to the negated value. */
  lemma ParseIntOfNegated(n: nat)
    ensures ParseInt("-" + NatToString(n)) == Some(-(n as int))
  {
    var d := NatToString(n);
    NatToStringRoundTrip(n);
    ParseUnsignedOfDigits(d);
    ParseIntMinusValue(d, n);
  }

  lemma ParseIntOfIntToString(i: int)
    ensures ParseInt(IntToString(i)) == Some(i)
  {
    if i < 0 {
      ParseIntOfNegative(i);
    } else {
      ParseIntOfNatToString(i);
    }
  }

  lemma ParseIntOfNegative(i: int)
    requires i < 0
    ensures ParseInt(IntToString(i)) == Some(i)
  {
    var n: nat := -i;
    ParseIntOfNegated(n);
    var s := "-" + NatToString(n);
    assert IntToString(i) == s;
    assert ParseInt(s) == Some(i);
  }
}
