/** String helpers the pipeline relies on: Python's `str(int)`, `int(str)`,
    `str.endswith`, `str.split(c)[0]`, `str.lower`, slicing with clamped bounds,
    and the first match of the regular expression `\d+`. */
module Text {
  import opened Wrappers

  predicate IsDigit(c: char) {
    '0' <= c <= '9'
  }

  predicate AllDigits(s: string) {
    forall i :: 0 <= i < |s| ==> IsDigit(s[i])
  }

  predicate NoDigits(s: string) {
    forall i :: 0 <= i < |s| ==> !IsDigit(s[i])
  }

  function DigitChar(d: nat): (c: char)
    requires d < 10
    ensures IsDigit(c)
  {
    ('0' as int + d) as char
  }

  /** The number a string of decimal digits denotes (leading zeros allowed). */
  function DigitsValue(s: string): nat
    requires AllDigits(s)
  {
    if |s| == 0 then 0
    else
      assert IsDigit(s[|s| - 1]);
      10 * DigitsValue(s[..|s| - 1]) + (s[|s| - 1] as int - '0' as int)
  }

  /** Python's `str(n)` for a non-negative integer. */
  function NatToDigits(n: nat): (s: string)
    ensures 1 <= |s| && AllDigits(s)
    ensures s[0] == '0' ==> n == 0
    decreases n
  {
    if n < 10 then [DigitChar(n)] else NatToDigits(n / 10) + [DigitChar(n % 10)]
  }

  /** Python's `str(n)` for any integer. */
  function IntToString(n: int): (s: string)
    ensures 1 <= |s|
    ensures n >= 0 ==> AllDigits(s) && DigitsValue(s) == n
    ensures n < 0 ==> s[0] == '-' && AllDigits(s[1..]) && DigitsValue(s[1..]) == -n
  {
    if n < 0 then
      NatToDigitsValue(-n);
      var s := "-" + NatToDigits(-n);
      assert s[1..] == NatToDigits(-n);
      s
    else
      NatToDigitsValue(n);
      NatToDigits(n)
  }

  /** Python's `int(s)`: an optional sign followed by at least one digit;
      anything else raises ValueError. */
  function ParseInt(s: string): (r: Result<int>)
    ensures r.Success? <==> (1 <= |s| && AllDigits(s)) || (2 <= |s| && (s[0] == '-' || s[0] == '+') && AllDigits(s[1..]))
    ensures r.Failure? ==> r.error.ValueError?
    ensures 1 <= |s| && AllDigits(s) ==> r == Success(DigitsValue(s))
    ensures 2 <= |s| && s[0] == '+' && AllDigits(s[1..]) ==> r == Success(DigitsValue(s[1..]))
    ensures 2 <= |s| && s[0] == '-' && AllDigits(s[1..]) ==> r == Success(0 - DigitsValue(s[1..]) as int)
  {
    if |s| > 0 && (s[0] == '-' || s[0] == '+') && |s| > 1 && AllDigits(s[1..]) then
      var magnitude: int := DigitsValue(s[1..]);
      Success(if s[0] == '-' then -magnitude else magnitude)
    else if |s| > 0 && AllDigits(s) then
      Success(DigitsValue(s))
    else
      Failure(ValueError("invalid literal for int() with base 10"))
  }

  lemma {:induction false} NatToDigitsValue(n: nat)
    ensures DigitsValue(NatToDigits(n)) == n
    decreases n
  {
    var s := NatToDigits(n);
    if n >= 10 {
      NatToDigitsValue(n / 10);
      assert s[..|s| - 1] == NatToDigits(n / 10);
    }
  }

  /** `int(str(n)) == n`: printing an integer and parsing it back is the identity. */
  lemma IntToStringRoundTrip(n: int)
    ensures ParseInt(IntToString(n)) == Success(n)
  {
    var s := IntToString(n);
    if n < 0 {
      var d := NatToDigits(-n);
      NatToDigitsValue(-n);
      assert s == "-" + d;
      assert s[1..] == d;
      assert s[0] == '-' && |s| > 1 && AllDigits(s[1..]);
    } else {
      NatToDigitsValue(n);
      assert s[0] != '-' && s[0] != '+';
    }
  }

  /** A two-digit number prints as two characters. */
  lemma {:induction false} NatToDigitsTwoDigits(n: nat)
    requires 10 <= n < 100
    ensures NatToDigits(n) == [DigitChar(n / 10), DigitChar(n % 10)]
  {
  }

  /** Python's `s[lo:hi]` for `0 <= lo <= hi`: the bounds are clamped to the length. */
  function Slice(s: string, lo: nat, hi: nat): (r: string)
    requires lo <= hi
    ensures |r| <= hi - lo
    ensures hi <= |s| ==> r == s[lo..hi]
    ensures lo <= |s| < hi ==> r == s[lo..]
    ensures |s| < lo ==> r == ""
  {
    var a := if lo <= |s| then lo else |s|;
    var b := if hi <= |s| then hi else |s|;
    s[a..b]
  }

  /** Python's `s[lo:]`. */
  function SliceFrom(s: string, lo: nat): (r: string)
    ensures lo <= |s| ==> r == s[lo..]
    ensures lo >= |s| ==> r == ""
  {
    if lo <= |s| then s[lo..] else ""
  }

  predicate EndsWith(s: string, suffix: string) {
    |suffix| <= |s| && s[|s| - |suffix|..] == suffix
  }

  predicate IsUpper(c: char) {
    'A' <= c <= 'Z'
  }

  /** ASCII part of Python's `str.lower`: each capital letter becomes its small
      letter, and every other character is kept. */
  function AsciiLower(s: string): (r: string)
    ensures |r| == |s|
    ensures forall i :: 0 <= i < |s| && IsUpper(s[i]) ==> 'a' <= r[i] <= 'z' && r[i] as int - s[i] as int == 'a' as int - 'A' as int
    ensures forall i :: 0 <= i < |s| && !IsUpper(s[i]) ==> r[i] == s[i]
    ensures forall i :: 0 <= i < |r| ==> !IsUpper(r[i])
  {
    seq(|s|, i requires 0 <= i < |s| => if IsUpper(s[i]) then (s[i] as int + 32) as char else s[i])
  }

  /** Lower-casing twice is lower-casing once. */
  lemma AsciiLowerIdempotent(s: string)
    ensures AsciiLower(AsciiLower(s)) == AsciiLower(s)
  {
    var r := AsciiLower(s);
    assert forall i :: 0 <= i < |r| ==> AsciiLower(r)[i] == r[i];
  }

  /** Python's `s.split(c)[0]`: everything before the first `c`, or all of `s`. */
  function BeforeFirst(s: string, c: char): (r: string)
    ensures |r| <= |s| && r == s[..|r|]
    ensures c !in r
    ensures |r| < |s| ==> s[|r|] == c
  {
    if |s| == 0 || s[0] == c then "" else [s[0]] + BeforeFirst(s[1..], c)
  }

  /** A prefix without `c` is kept whole by `split(c)[0]`. */
  lemma {:induction false} BeforeFirstAppend(a: string, b: string, c: char)
    requires c !in a
    ensures BeforeFirst(a + b, c) == a + BeforeFirst(b, c)
  {
    if |a| > 0 {
      assert (a + b)[0] == a[0] && (a + b)[1..] == a[1..] + b;
      BeforeFirstAppend(a[1..], b, c);
      assert a == [a[0]] + a[1..];
    } else {
      assert a + b == b;
    }
  }

  /** Position of the first digit of `s`, or `|s|` when there is none. */
  function FirstDigitIndex(s: string): (i: nat)
    ensures i <= |s|
    ensures NoDigits(s[..i])
    ensures forall m :: 0 <= m < i ==> !IsDigit(s[m])
    ensures i < |s| ==> IsDigit(s[i])
  {
    if |s| == 0 then 0
    else if IsDigit(s[0]) then 0
    else
      var k := FirstDigitIndex(s[1..]);
      assert s[..k + 1] == [s[0]] + s[1..][..k];
      k + 1
  }

  /** The longest prefix of `s` made of digits. */
  function LeadingDigits(s: string): (r: string)
    ensures |r| <= |s| && r == s[..|r|]
    ensures AllDigits(r)
    ensures forall m :: 0 <= m < |r| ==> IsDigit(s[m])
    ensures |r| < |s| ==> !IsDigit(s[|r|])
  {
    if |s| == 0 || !IsDigit(s[0]) then "" else [s[0]] + LeadingDigits(s[1..])
  }

  /** `re.findall(r"\d+", s)[0]` on ASCII text: the first maximal run of digits,
      or None where Python raises IndexError. */
  function FirstDigitRun(s: string): (r: Option<string>)
    ensures r.None? <==> NoDigits(s)
    ensures r.Some? ==> 1 <= |r.value| && AllDigits(r.value)
  {
    var i := FirstDigitIndex(s);
    if i == |s| then
      assert s[..i] == s;
      None
    else
      var d := LeadingDigits(s[i..]);
      assert s[i..][0] == s[i];
      Some(d)
  }

  /** The first maximal run of digits is determined by its boundaries: any
      non-empty digit block `s[i..j]` with no digit before it and no digit right
      after it is what FirstDigitRun returns. */
  lemma FirstDigitRunIsFirstMaximalRun(s: string, i: nat, j: nat)
    requires i < j <= |s|
    requires NoDigits(s[..i]) && AllDigits(s[i..j])
    requires j == |s| || !IsDigit(s[j])
    ensures FirstDigitRun(s) == Some(s[i..j])
  {
    assert forall m :: 0 <= m < i ==> !IsDigit(s[m]) by {
      forall m | 0 <= m < i ensures !IsDigit(s[m]) { assert s[..i][m] == s[m]; }
    }
    assert IsDigit(s[i]) by { assert s[i..j][0] == s[i]; }
    var k := FirstDigitIndex(s);
    assert k == i;
    var t := s[i..];
    assert forall m :: 0 <= m < j - i ==> IsDigit(t[m]) by {
      forall m | 0 <= m < j - i ensures IsDigit(t[m]) { assert s[i..j][m] == t[m]; }
    }
    assert j - i == |t| || !IsDigit(t[j - i]);
    var d := LeadingDigits(t);
    assert |d| == j - i;
    assert d == t[..j - i];
    assert d == s[i..j];
  }
}
