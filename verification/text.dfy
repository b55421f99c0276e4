/** The string and number primitives of JavaScript that the application leans on:
    `trim`, `startsWith`, `padStart`, `split`, `join`, `String(n)` for integers
    and `parseInt` with its default radix. A `string` is a sequence of Unicode
    scalar values; JavaScript's `length` counts UTF-16 code units instead,
    which `Utf16Length` gives. */
module Text {
  import opened Wrappers

  // ---------------------------------------------------------------------------
  // Length
  // ---------------------------------------------------------------------------

  /** A character outside the Basic Multilingual Plane, written in UTF-16 as
      a surrogate pair. */
  predicate IsAstral(c: char) {
    c >= '\U{10000}'
  }

  /** `s.length` in JavaScript: the number of UTF-16 code units of `s`. */
  function Utf16Length(s: string): (n: nat)
    ensures |s| <= n <= 2 * |s|
    ensures n == |s| <==> forall i :: 0 <= i < |s| ==> !IsAstral(s[i])
  {
    if s == [] then 0
    else (if IsAstral(s[0]) then 2 else 1) + Utf16Length(s[1..])
  }

  /** Code units add up over concatenation. */
  lemma {:induction false} Utf16LengthAppend(a: string, b: string)
    ensures Utf16Length(a + b) == Utf16Length(a) + Utf16Length(b)
  {
    if a == [] {
      assert a + b == b;
    } else {
      assert (a + b)[0] == a[0] && (a + b)[1..] == a[1..] + b;
      Utf16LengthAppend(a[1..], b);
    }
  }

  // ---------------------------------------------------------------------------
  // Whitespace and trimming
  // ---------------------------------------------------------------------------

  /** ECMAScript WhiteSpace and LineTerminator code points: the characters
      `String.prototype.trim` removes and the regular-expression class `\s` matches. */
  predicate IsSpace(c: char) {
    || c == '\t' || c == '\n' || c == '\U{B}' || c == '\U{C}' || c == '\r' || c == ' '
    || c == '\U{A0}' || c == '\U{1680}' || ('\U{2000}' <= c <= '\U{200A}')
    || c == '\U{2028}' || c == '\U{2029}' || c == '\U{202F}' || c == '\U{205F}'
    || c == '\U{3000}' || c == '\U{FEFF}'
  }

  predicate AllSpace(s: string) {
    forall i :: 0 <= i < |s| ==> IsSpace(s[i])
  }

  /** Neither end of `s` is whitespace. */
  predicate Unpadded(s: string) {
    s == [] || (!IsSpace(s[0]) && !IsSpace(s[|s| - 1]))
  }

  /** `s` without its leading whitespace (the regular expression `^\s*`). */
  function TrimStart(s: string): (r: string)
    ensures |r| <= |s| && r == s[|s| - |r|..]
    ensures AllSpace(s[..|s| - |r|])
    ensures r == [] || !IsSpace(r[0])
  {
    if s != [] && IsSpace(s[0]) then TrimStart(s[1..]) else s
  }

  /** `s` without its trailing whitespace (the regular expression `\s*$`). */
  function TrimEnd(s: string): (r: string)
    ensures |r| <= |s| && r == s[..|r|]
    ensures AllSpace(s[|r|..])
    ensures r == [] || !IsSpace(r[|r| - 1])
  {
    if s != [] && IsSpace(s[|s| - 1]) then TrimEnd(s[..|s| - 1]) else s
  }

  /** `String.prototype.trim`: the middle of `s` between two whitespace runs. */
  function Trim(s: string): (r: string)
    ensures |r| <= |s|
    ensures Unpadded(r)
  {
    TrimEnd(TrimStart(s))
  }

  /** `r` is the slice of `s` starting at `i`, with only whitespace on either side of it. */
  predicate MiddleSlice(s: string, i: nat, r: string) {
    && i + |r| <= |s| && s[i..i + |r|] == r
    && AllSpace(s[..i]) && AllSpace(s[i + |r|..])
  }

  /** What `trim` keeps is a slice of `s` with only whitespace on either side of it. */
  lemma {:induction false} TrimMiddle(s: string) returns (i: nat)
    ensures MiddleSlice(s, i, Trim(s))
  {
    var t := TrimStart(s);
    i := MiddleOf(s, t, TrimEnd(t));
  }

  /** Cutting a whitespace prefix and then a whitespace suffix leaves a middle slice. */
  lemma MiddleOf(s: string, t: string, r: string) returns (i: nat)
    requires |t| <= |s| && t == s[|s| - |t|..] && AllSpace(s[..|s| - |t|])
    requires |r| <= |t| && r == t[..|r|] && AllSpace(t[|r|..])
    ensures i == |s| - |t| && MiddleSlice(s, i, r)
  {
    i := |s| - |t|;
    assert s[i + |r|..] == t[|r|..];
  }

  lemma TrimStartOfUnpadded(s: string)
    requires s == [] || !IsSpace(s[0])
    ensures TrimStart(s) == s
  {
  }

  lemma TrimEndOfUnpadded(s: string)
    requires s == [] || !IsSpace(s[|s| - 1])
    ensures TrimEnd(s) == s
  {
  }

  /** Whitespace around an unpadded string is exactly what trimming removes. */
  lemma {:induction false} TrimAroundSpaces(w1: string, s: string, w2: string)
    requires AllSpace(w1) && AllSpace(w2) && Unpadded(s)
    ensures Trim(w1 + s + w2) == s
  {
    assert w1 + s + w2 == w1 + (s + w2);
    TrimStartPrefix(w1, s + w2);
    if s == [] {
      assert s + w2 == w2;
      TrimStartAllSpace(w2);
    } else {
      TrimStartOfUnpadded(s + w2);
      TrimEndSuffix(s, w2);
      TrimEndOfUnpadded(s);
    }
  }

  lemma {:induction false} TrimStartPrefix(w: string, s: string)
    requires AllSpace(w)
    ensures TrimStart(w + s) == TrimStart(s)
  {
    if w != [] {
      assert (w + s)[0] == w[0];
      assert (w + s)[1..] == w[1..] + s;
      TrimStartPrefix(w[1..], s);
    } else {
      assert w + s == s;
    }
  }

  lemma {:induction false} TrimStartAllSpace(w: string)
    requires AllSpace(w)
    ensures TrimStart(w) == [] && TrimEnd([]) == []
  {
    if w != [] {
      TrimStartAllSpace(w[1..]);
    }
  }

  lemma {:induction false} TrimEndSuffix(s: string, w: string)
    requires AllSpace(w)
    ensures TrimEnd(s + w) == TrimEnd(s)
  {
    if w != [] {
      assert (s + w)[..|s + w| - 1] == s + w[..|w| - 1];
      TrimEndSuffix(s, w[..|w| - 1]);
    } else {
      assert s + w == s;
    }
  }

  /** Trimming twice is trimming once. */
  lemma {:induction false} TrimIdempotent(s: string)
    ensures Trim(Trim(s)) == Trim(s)
  {
    var t := Trim(s);
    TrimStartOfUnpadded(t);
    TrimEndOfUnpadded(t);
  }

  // ---------------------------------------------------------------------------
  // Prefixes, suffixes, padding
  // ---------------------------------------------------------------------------

  predicate StartsWith(s: string, prefix: string) {
    |prefix| <= |s| && s[..|prefix|] == prefix
  }

  predicate EndsWith(s: string, suffix: string) {
    |suffix| <= |s| && s[|s| - |suffix|..] == suffix
  }

  function Repeat(c: char, n: nat): (r: string)
    ensures |r| == n && forall i :: 0 <= i < n ==> r[i] == c
  {
    if n == 0 then [] else [c] + Repeat(c, n - 1)
  }

  /** `s.padStart(width, fill)` with a one-character fill. */
  function PadStart(s: string, width: nat, fill: char): (r: string)
    ensures |r| == if |s| >= width then |s| else width
    ensures EndsWith(r, s)
    ensures forall i :: 0 <= i < |r| - |s| ==> r[i] == fill
  {
    if |s| >= width then s else Repeat(fill, width - |s|) + s
  }

  // ---------------------------------------------------------------------------
  // Digits, String(n) and parseInt
  // ---------------------------------------------------------------------------

  predicate IsDigit(c: char) {
    '0' <= c <= '9'
  }

  predicate IsDigits(s: string) {
    forall i :: 0 <= i < |s| ==> IsDigit(s[i])
  }

  /** The digit value `parseInt` gives `c` in any radix up to 36. */
  function DigitValue(c: char): Option<nat> {
    if '0' <= c <= '9' then Some(c as int - '0' as int)
    else if 'a' <= c <= 'z' then Some(c as int - 'a' as int + 10)
    else if 'A' <= c <= 'Z' then Some(c as int - 'A' as int + 10)
    else None
  }

  predicate IsRadixDigit(c: char, radix: nat) {
    DigitValue(c).Some? && DigitValue(c).value < radix
  }

  predicate IsRadixDigits(s: string, radix: nat) {
    forall i :: 0 <= i < |s| ==> IsRadixDigit(s[i], radix)
  }

  /** The number a string of digits denotes in `radix`, most significant first. */
  function DigitsValue(s: string, radix: nat): nat
    requires IsRadixDigits(s, radix)
  {
    if s == [] then 0 else DigitsValue(s[..|s| - 1], radix) * radix + DigitValue(s[|s| - 1]).value
  }

  function DigitChar(d: nat): (c: char)
    requires d < 10
    ensures IsDigit(c) && DigitValue(c) == Some(d)
  {
    ('0' as int + d) as char
  }

  /** Decimal form of a non-negative integer, as `String(n)` writes it. */
  function NatToString(n: nat): (r: string)
    ensures r != [] && IsDigits(r) && IsRadixDigits(r, 10)
    ensures |r| == 1 || r[0] != '0'
    ensures DigitsValue(r, 10) == n
  {
    if n < 10 then [DigitChar(n)]
    else
      var r := NatToString(n / 10) + [DigitChar(n % 10)];
      assert r[..|r| - 1] == NatToString(n / 10);
      r
  }

  /** Decimal form of an integer, as `String(n)` writes it (below 10^21). */
  function IntToString(i: int): (r: string)
    ensures r != []
    ensures i >= 0 ==> IsDigits(r)
    ensures i < 0 ==> r[0] == '-' && IsDigits(r[1..])
  {
    if i < 0 then "-" + NatToString(-i) else NatToString(i)
  }

  /** The longest prefix of `s` made of digits of `radix`. */
  function DigitPrefix(s: string, radix: nat): (r: string)
    ensures |r| <= |s| && r == s[..|r|] && IsRadixDigits(r, radix)
    ensures |r| < |s| ==> !IsRadixDigit(s[|r|], radix)
  {
    if s != [] && IsRadixDigit(s[0], radix) then [s[0]] + DigitPrefix(s[1..], radix) else []
  }

  /** `parseInt(s)` with no radix argument. `None` stands for NaN.
      Leading whitespace is skipped, one sign is read, a `0x`/`0X` prefix
      switches to base 16, and the longest run of digits that follows is read;
      anything after it is ignored. Precision loss above 2^53 is not modelled. */
  function ParseInt(s: string): (r: Option<int>)
    ensures TrimStart(s) == [] ==> r.None?
  {
    var t := TrimStart(s);
    var negative := t != [] && t[0] == '-';
    var unsigned := if t != [] && (t[0] == '-' || t[0] == '+') then t[1..] else t;
    var hex := |unsigned| >= 2 && unsigned[0] == '0' && (unsigned[1] == 'x' || unsigned[1] == 'X');
    var radix := if hex then 16 else 10;
    var digits := DigitPrefix(if hex then unsigned[2..] else unsigned, radix);
    var magnitude: int := DigitsValue(digits, radix);
    if digits == [] then None else Some(if negative then -magnitude else magnitude)
  }

  /** A plain run of decimal digits is read as its decimal value. */
  lemma ParseIntOfDigits(s: string)
    requires IsDigits(s) && s != []
    ensures IsRadixDigits(s, 10) && ParseInt(s) == Some(DigitsValue(s, 10))
  {
    assert IsDigit(s[0]);
    TrimStartOfUnpadded(s);
    assert s[0] != '-' && s[0] != '+';
    assert !(|s| >= 2 && s[0] == '0' && (s[1] == 'x' || s[1] == 'X')) by {
      if |s| >= 2 {
        assert IsDigit(s[1]);
      }
    }
    DigitPrefixOfDigits(s);
  }

  lemma {:induction false} DigitPrefixOfDigits(s: string)
    requires IsDigits(s)
    ensures IsRadixDigits(s, 10) && DigitPrefix(s, 10) == s
  {
    if s != [] {
      DigitPrefixOfDigits(s[1..]);
    }
  }

  /** `parseInt` reads back what `String(n)` writes. */
  lemma ParseIntOfIntToString(i: int)
    ensures ParseInt(IntToString(i)) == Some(i)
  {
    var s := IntToString(i);
    if i < 0 {
      var digits := NatToString(-i);
      assert s == "-" + digits;
      TrimStartOfUnpadded(s);
      DigitPrefixOfDigits(digits);
      assert s[1..] == digits;
      assert |digits| >= 2 ==> digits[1] != 'x' && digits[1] != 'X';
    } else {
      ParseIntOfDigits(s);
    }
  }

  /** Decimal formatting is injective. */
  lemma IntToStringInjective(i: int, j: int)
    requires IntToString(i) == IntToString(j)
    ensures i == j
  {
    ParseIntOfIntToString(i);
    ParseIntOfIntToString(j);
  }

  lemma {:induction false} DigitsValueOfPrefix(s: string, k: nat)
    requires IsRadixDigits(s, 10) && k <= |s|
    ensures IsRadixDigits(s[..k], 10)
  {
  }

  /** Decimal digits are exactly the characters `0` to `9`. */
  lemma DecimalDigits(s: string)
    requires IsRadixDigits(s, 10)
    ensures IsDigits(s)
  {
    forall i | 0 <= i < |s| ensures IsDigit(s[i]) {
      assert DigitValue(s[i]).value < 10;
    }
  }

  function Pow10(n: nat): (p: nat)
    ensures p >= 1
  {
    if n == 0 then 1 else 10 * Pow10(n - 1)
  }

  /** `n` digits denote less than `10^n`. */
  lemma {:induction false} DigitsValueBelow(s: string)
    requires IsRadixDigits(s, 10)
    ensures DigitsValue(s, 10) < Pow10(|s|)
  {
    if s != [] {
      var init := s[..|s| - 1];
      DigitsValueBelow(init);
      var v, d := DigitsValue(init, 10), DigitValue(s[|s| - 1]).value;
      assert d < 10;
      assert v * 10 <= (Pow10(|init|) - 1) * 10;
    }
  }

  /** A leading zero does not change the value. */
  lemma {:induction false} LeadingZero(s: string)
    requires IsRadixDigits(s, 10) && s != [] && s[0] == '0'
    ensures DigitsValue(s, 10) == DigitsValue(s[1..], 10)
  {
    if |s| > 1 {
      assert s[..|s| - 1][0] == '0';
      LeadingZero(s[..|s| - 1]);
      assert s[..|s| - 1][1..] == s[1..][..|s[1..]| - 1];
    }
  }

  /** A digit string that starts with a non-zero digit denotes at least 1. */
  lemma {:induction false} LeadingNonZero(s: string)
    requires IsRadixDigits(s, 10) && s != [] && s[0] != '0'
    ensures DigitsValue(s, 10) >= 1
  {
    if |s| > 1 {
      assert s[..|s| - 1][0] == s[0];
      LeadingNonZero(s[..|s| - 1]);
    }
  }

  /** `String(n)` gives back a digit string without superfluous leading zeros. */
  lemma {:induction false} NatToStringOfCanonical(s: string)
    requires IsRadixDigits(s, 10) && s != [] && (|s| == 1 || s[0] != '0')
    ensures NatToString(DigitsValue(s, 10)) == s
  {
    var n := DigitsValue(s, 10);
    var last := s[|s| - 1];
    var d := DigitValue(last).value;
    if |s| == 1 {
      assert DigitChar(d) == last;
    } else {
      var init := s[..|s| - 1];
      assert init[0] == s[0];
      NatToStringOfCanonical(init);
      LeadingNonZero(init);
      assert n / 10 == DigitsValue(init, 10) && n % 10 == d;
      assert DigitChar(d) == last;
      assert s == init + [last];
    }
  }

  /** Padding `String(n)` back to the width of the digits it was read from
      restores them, leading zeros included. */
  lemma {:induction false} PadStartOfDigits(s: string)
    requires IsRadixDigits(s, 10) && s != []
    ensures PadStart(NatToString(DigitsValue(s, 10)), |s|, '0') == s
  {
    if |s| > 1 && s[0] == '0' {
      LeadingZero(s);
      PadStartOfDigits(s[1..]);
      PadOneZeroMore(NatToString(DigitsValue(s, 10)), s);
    } else {
      NatToStringOfCanonical(s);
    }
  }

  /** One more column of width adds one more leading zero. */
  lemma PadOneZeroMore(x: string, s: string)
    requires |s| > 1 && s[0] == '0' && PadStart(x, |s| - 1, '0') == s[1..]
    ensures PadStart(x, |s|, '0') == s
  {
    assert PadStart(x, |s|, '0') == "0" + PadStart(x, |s| - 1, '0');
    assert s == "0" + s[1..];
  }

  // ---------------------------------------------------------------------------
  // split and join
  // ---------------------------------------------------------------------------

  /** `parts.join(sep)`. */
  function Join(parts: seq<string>, sep: string): string
  {
    if parts == [] then []
    else if |parts| == 1 then parts[0]
    else parts[0] + sep + Join(parts[1..], sep)
  }

  /** `s.split(sep)` for a one-character separator: the pieces between
      separators, empty pieces included; `"".split(sep)` is `[""]`. */
  function Split(s: string, sep: char): (parts: seq<string>)
    ensures |parts| >= 1
    ensures forall i :: 0 <= i < |parts| ==> sep !in parts[i]
    ensures Join(parts, [sep]) == s
  {
    if s == [] then [[]]
    else
      var rest := Split(s[1..], sep);
      if s[0] == sep then
        assert Join([[]] + rest, [sep]) == [sep] + Join(rest, [sep]);
        [[]] + rest
      else
        var parts := [[s[0]] + rest[0]] + rest[1..];
        assert Join(parts, [sep]) == [s[0]] + Join(rest, [sep]);
        parts
  }

  lemma {:induction false} SplitNoSeparator(s: string, sep: char)
    requires sep !in s
    ensures Split(s, sep) == [s]
  {
    if s != [] {
      SplitNoSeparator(s[1..], sep);
    }
  }

  lemma {:induction false} SplitAtFirst(a: string, sep: char, b: string)
    requires sep !in a
    ensures Split(a + [sep] + b, sep) == [a] + Split(b, sep)
  {
    if a != [] {
      assert (a + [sep] + b)[1..] == a[1..] + [sep] + b;
      SplitAtFirst(a[1..], sep, b);
      assert [a[0]] + a[1..] == a;
    } else {
      assert a + [sep] + b == [sep] + b;
    }
  }

  /** Splitting a join on a separator that occurs in no part gives the parts back. */
  lemma {:induction false} SplitJoin(parts: seq<string>, sep: char)
    requires |parts| >= 1
    requires forall i :: 0 <= i < |parts| ==> sep !in parts[i]
    ensures Split(Join(parts, [sep]), sep) == parts
  {
    if |parts| == 1 {
      SplitNoSeparator(parts[0], sep);
    } else {
      SplitJoin(parts[1..], sep);
      SplitAtFirst(parts[0], sep, Join(parts[1..], [sep]));
    }
  }
}
