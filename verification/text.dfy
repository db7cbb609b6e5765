/** The few pieces of Python string behaviour the loader relies on:
    `str.strip()`, `str.startswith`, `str(int)`, `int(str)`, `",".join` and
    `str.split(",")`. */
module Text {
  import opened Wrappers

  /** Python's `str.isspace()` for a single character. */
  predicate IsSpace(c: char) {
    || c == ' '
    || ('\t' <= c <= '\r')
    || ('\U{1C}' <= c <= '\U{1F}')
    || c == '\U{85}' || c == '\U{A0}' || c == '\U{1680}'
    || ('\U{2000}' <= c <= '\U{200A}')
    || c == '\U{2028}' || c == '\U{2029}' || c == '\U{202F}'
    || c == '\U{205F}' || c == '\U{3000}'
  }

  /** The first position at or after `i` that is not whitespace (`|s|` when
      there is none). */
  function SkipSpaceFrom(s: string, i: nat): (a: nat)
    requires i <= |s|
    ensures i <= a <= |s|
    ensures forall k :: i <= k < a ==> IsSpace(s[k])
    ensures a == |s| || !IsSpace(s[a])
    decreases |s| - i
  {
    if i < |s| && IsSpace(s[i]) then SkipSpaceFrom(s, i + 1) else i
  }

  /** The end of `s[lo..j]` once the whitespace at its end is dropped. */
  function SkipSpaceBack(s: string, lo: nat, j: nat): (b: nat)
    requires lo <= j <= |s|
    ensures lo <= b <= j
    ensures forall k :: b <= k < j ==> IsSpace(s[k])
    ensures b == lo || !IsSpace(s[b - 1])
    decreases j
  {
    if j > lo && IsSpace(s[j - 1]) then SkipSpaceBack(s, lo, j - 1) else j
  }

  /** Where `Strip(s)` starts inside `s`. */
  function StripOffset(s: string): (a: nat)
    ensures a <= |s|
  {
    SkipSpaceFrom(s, 0)
  }

  /** `s.strip()`: the slice of `s` left after removing whitespace at both
      ends; everything removed is whitespace and the slice neither starts nor
      ends with whitespace. */
  function Strip(s: string): (r: string)
    ensures StripOffset(s) + |r| <= |s| && r == s[StripOffset(s)..StripOffset(s) + |r|]
    ensures forall i :: 0 <= i < StripOffset(s) ==> IsSpace(s[i])
    ensures forall i :: StripOffset(s) + |r| <= i < |s| ==> IsSpace(s[i])
    ensures |r| == 0 || (!IsSpace(r[0]) && !IsSpace(r[|r| - 1]))
  {
    var a := StripOffset(s);
    s[a..SkipSpaceBack(s, a, |s|)]
  }

  /** Stripping is idempotent: a stripped string is left unchanged. */
  lemma StripIdempotent(s: string)
    ensures Strip(Strip(s)) == Strip(s)
  {
    var r := Strip(s);
    NoEdgeSpaceStripsToItself(r);
  }

  lemma NoEdgeSpaceStripsToItself(s: string)
    requires |s| == 0 || (!IsSpace(s[0]) && !IsSpace(s[|s| - 1]))
    ensures Strip(s) == s
  {
  }

  /** `s.startswith(p)` */
  predicate StartsWith(s: string, p: string) {
    |p| <= |s| && s[..|p|] == p
  }

  predicate IsDigit(c: char) {
    '0' <= c <= '9'
  }

  function DigitChar(d: nat): char
    requires d < 10
  {
    ('0' as int + d) as char
  }

  /** `str(n)` for a natural number: the shortest decimal numeral. */
  function NatToString(n: nat): (r: string)
    ensures |r| > 0 && forall i :: 0 <= i < |r| ==> IsDigit(r[i])
    ensures |r| > 1 ==> r[0] != '0'
  {
    if n < 10 then [DigitChar(n)] else NatToString(n / 10) + [DigitChar(n % 10)]
  }

  /** `str(i)` for any integer. */
  function IntToString(i: int): (r: string)
    ensures |r| > 0
    ensures forall k :: 0 <= k < |r| ==> IsDigit(r[k]) || (k == 0 && r[k] == '-')
    ensures (r[0] == '-') <==> i < 0
    ensures r[0] != '-' && |r| > 1 ==> r[0] != '0'
    ensures r[0] == '-' ==> |r| > 1 && r[1] != '0'
  {
    if i < 0 then "-" + NatToString(-i) else NatToString(i)
  }

  predicate AllDigits(s: string) {
    forall i :: 0 <= i < |s| ==> IsDigit(s[i])
  }

  /** The value of a string of decimal digits. */
  function DigitsValue(s: string): nat
    requires AllDigits(s)
  {
    if |s| == 0 then 0
    else DigitsValue(s[..|s| - 1]) * 10 + (s[|s| - 1] as int - '0' as int)
  }

  /** The whitespace `int()` skips around a numeral: the space, the ASCII
      controls \t..\r, and every non-ASCII character that `str.isspace()`
      accepts (those are turned into spaces first). The separators
      U+001C..U+001F are whitespace to `str.strip()` but not to `int()`. */
  predicate IsIntSpace(c: char) {
    c == ' ' || ('\t' <= c <= '\r') || (c as int >= 128 && IsSpace(c))
  }

  function SkipIntSpaceFrom(s: string, i: nat): (a: nat)
    requires i <= |s|
    ensures i <= a <= |s|
    ensures forall k :: i <= k < a ==> IsIntSpace(s[k])
    ensures a == |s| || !IsIntSpace(s[a])
    decreases |s| - i
  {
    if i < |s| && IsIntSpace(s[i]) then SkipIntSpaceFrom(s, i + 1) else i
  }

  function SkipIntSpaceBack(s: string, lo: nat, j: nat): (b: nat)
    requires lo <= j <= |s|
    ensures lo <= b <= j
    ensures forall k :: b <= k < j ==> IsIntSpace(s[k])
    ensures b == lo || !IsIntSpace(s[b - 1])
    decreases j
  {
    if j > lo && IsIntSpace(s[j - 1]) then SkipIntSpaceBack(s, lo, j - 1) else j
  }

  /** `s` without the whitespace `int()` ignores at either end: a slice of
      `s` whose removed ends are all such whitespace and which neither starts
      nor ends with it. */
  function IntTrim(s: string): (r: string)
    ensures SkipIntSpaceFrom(s, 0) + |r| <= |s|
    ensures r == s[SkipIntSpaceFrom(s, 0)..SkipIntSpaceFrom(s, 0) + |r|]
    ensures forall i :: 0 <= i < SkipIntSpaceFrom(s, 0) ==> IsIntSpace(s[i])
    ensures forall i :: SkipIntSpaceFrom(s, 0) + |r| <= i < |s| ==> IsIntSpace(s[i])
    ensures |r| == 0 || (!IsIntSpace(r[0]) && !IsIntSpace(r[|r| - 1]))
  {
    var a := SkipIntSpaceFrom(s, 0);
    s[a..SkipIntSpaceBack(s, a, |s|)]
  }

  lemma NoEdgeIntSpaceTrimsToItself(s: string)
    requires |s| == 0 || (!IsIntSpace(s[0]) && !IsIntSpace(s[|s| - 1]))
    ensures IntTrim(s) == s
  {
  }

  /** The numerals `int()` accepts in base 10: an optional sign, then one or
      more decimal digits (leading zeros allowed). */
  predicate IsNumeral(t: string) {
    || (|t| > 0 && AllDigits(t))
    || (|t| > 1 && (t[0] == '+' || t[0] == '-') && AllDigits(t[1..]))
  }

  /** The number a numeral denotes. */
  function NumeralValue(t: string): int
    requires IsNumeral(t)
  {
    if t[0] == '-' then -(DigitsValue(t[1..]) as int) else if t[0] == '+' then DigitsValue(t[1..]) else DigitsValue(t)
  }

  /** Python's `int(s)` on a string: the text between the whitespace `int()`
      ignores converts exactly when it is a numeral, to that numeral's value;
      anything else raises `ValueError`, modelled as `None`. */
  function ParseInt(s: string): (r: Option<int>)
    ensures r.Some? <==> IsNumeral(IntTrim(s))
    ensures r.Some? ==> r.value == NumeralValue(IntTrim(s))
  {
    ParseNumeral(IntTrim(s))
  }

  /** Reading a numeral character by character: a sign is only looked at
      first, and every other character must be a digit. */
  function ParseNumeral(t: string): (r: Option<int>)
    ensures r.Some? <==> IsNumeral(t)
    ensures r.Some? ==> r.value == NumeralValue(t)
  {
    if |t| > 0 && (t[0] == '+' || t[0] == '-') then
      var d := t[1..];
      if |d| > 0 && AllDigits(d) then
        var v: int := DigitsValue(d);
        Some(if t[0] == '-' then -v else v)
      else None
    else if |t| > 0 && AllDigits(t) then
      Some(DigitsValue(t))
    else None
  }

  lemma {:induction false} DigitsValueOfNatToString(n: nat)
    ensures DigitsValue(NatToString(n)) == n
  {
    if n >= 10 {
      var p := NatToString(n / 10);
      var s := p + [DigitChar(n % 10)];
      assert s[..|s| - 1] == p;
      DigitsValueOfNatToString(n / 10);
    }
  }

  /** `int(str(i)) == i`: the decimal rendering parses back to the number. */
  lemma ParseIntOfIntToString(i: int)
    ensures ParseInt(IntToString(i)) == Some(i)
  {
    if i < 0 {
      var d := NatToString(-i);
      assert ParseInt("-" + d) == Some(i) by {
        ParseNegative(d);
        DigitsValueOfNatToString(-i);
      }
      assert IntToString(i) == "-" + d;
    } else {
      var d := NatToString(i);
      assert ParseInt(d) == Some(i) by {
        ParseDigits(d);
        DigitsValueOfNatToString(i);
      }
      assert IntToString(i) == d;
    }
  }

  /** An unsigned numeral parses to its value. */
  lemma ParseDigits(d: string)
    requires |d| > 0 && AllDigits(d)
    ensures ParseInt(d) == Some(DigitsValue(d))
  {
    assert IsDigit(d[0]) && IsDigit(d[|d| - 1]);
    NoEdgeIntSpaceTrimsToItself(d);
  }

  /** A numeral after a minus sign parses to the negated value. */
  lemma ParseNegative(d: string)
    requires |d| > 0 && AllDigits(d)
    ensures ParseInt("-" + d) == Some(-(DigitsValue(d) as int))
  {
    var s := "-" + d;
    assert s[0] == '-' && s[|s| - 1] == d[|d| - 1] && IsDigit(d[|d| - 1]);
    NoEdgeIntSpaceTrimsToItself(s);
    assert s[1..] == d;
  }

  /** `int()` skips a space and a tab around a numeral but not the
      information separator U+001C, which `str.strip()` would remove. */
  lemma IntSkipsOnlyItsWhitespace()
    ensures ParseInt(" 5\t") == Some(5)
    ensures ParseInt("\U{1C}5") == None
    ensures Strip("\U{1C}5") == "5"
  {
    assert IntTrim(" 5\t") == "5";
    assert IntTrim("\U{1C}5") == "\U{1C}5";
    assert !IsNumeral("\U{1C}5");
    assert "\U{1C}5"[1..] == "5";
  }

  /** `sep.join(parts)` */
  function Join(parts: seq<string>, sep: char): (r: string)
    ensures |parts| == 1 ==> r == parts[0]
  {
    if |parts| == 0 then ""
    else if |parts| == 1 then parts[0]
    else parts[0] + [sep] + Join(parts[1..], sep)
  }

  /** `s.split(sep)`: the maximal separator-free pieces, always at least one. */
  function Split(s: string, sep: char): (r: seq<string>)
    ensures |r| > 0
    ensures forall i :: 0 <= i < |r| ==> sep !in r[i]
  {
    if |s| == 0 then [""]
    else
      var rest := Split(s[1..], sep);
      if s[0] == sep then [""] + rest else [[s[0]] + rest[0]] + rest[1..]
  }

  lemma {:induction false} SplitPrefix(p: string, t: string, sep: char)
    requires sep !in p
    ensures Split(p + t, sep) == [p + Split(t, sep)[0]] + Split(t, sep)[1..]
  {
    if |p| > 0 {
      assert (p + t)[1..] == p[1..] + t;
      SplitPrefix(p[1..], t, sep);
      assert [p[0]] + (p[1..] + Split(t, sep)[0]) == p + Split(t, sep)[0];
    } else {
      var r := Split(t, sep);
      assert p + t == t && p + r[0] == r[0];
      assert r == [r[0]] + r[1..];
    }
  }

  /** Splitting a join gives back the parts, provided there is at least one
      part and no part contains the separator. */
  lemma {:induction false} SplitJoin(parts: seq<string>, sep: char)
    requires |parts| > 0
    requires forall i :: 0 <= i < |parts| ==> sep !in parts[i]
    ensures Split(Join(parts, sep), sep) == parts
  {
    if |parts| == 1 {
      SplitPrefix(parts[0], "", sep);
      assert Split("", sep) == [""];
      assert parts[0] + "" == parts[0];
    } else {
      var rest := Join(parts[1..], sep);
      SplitJoin(parts[1..], sep);
      SplitPrefix(parts[0], [sep] + rest, sep);
      assert parts[0] + [sep] + rest == parts[0] + ([sep] + rest);
      assert ([sep] + rest)[1..] == rest;
      assert Split([sep] + rest, sep) == [""] + Split(rest, sep);
      assert parts[0] + "" == parts[0];
      assert parts == [parts[0]] + parts[1..];
    }
  }
}
