/** Text as sequences of Unicode characters: decimal printing and parsing, splitting and trimming. */
module Text {
  // ---- decimal digits ----

  predicate IsDigit(c: char) { '0' <= c <= '9' }

  predicate AllDigits(s: string) { forall i :: 0 <= i < |s| ==> IsDigit(s[i]) }

  function DigitChar(d: nat): (c: char)
    requires d < 10
    ensures IsDigit(c) && DigitValue(c) == d
  {
    ('0' as int + d) as char
  }

  function DigitValue(c: char): (d: nat)
    requires IsDigit(c)
    ensures d < 10
  {
    c as int - '0' as int
  }

  /** What %d prints for a non-negative integer. */
  function NatText(n: nat): (s: string)
    ensures |s| >= 1 && AllDigits(s)
  {
    if n < 10 then [DigitChar(n)] else NatText(n / 10) + [DigitChar(n % 10)]
  }

  /** What %d prints for any integer. */
  function IntText(n: int): string {
    if n < 0 then "-" + NatText(-n) else NatText(n)
  }

  function DigitsValue(s: string): nat
    requires AllDigits(s)
  {
    if s == "" then 0 else DigitsValue(s[..|s| - 1]) * 10 + DigitValue(s[|s| - 1])
  }

  lemma {:induction false} NatTextValue(n: nat)
    ensures DigitsValue(NatText(n)) == n
  {
    if n >= 10 {
      NatTextValue(n / 10);
      assert NatText(n)[..|NatText(n)| - 1] == NatText(n / 10);
    }
  }

  function Zeros(k: nat): (s: string)
    ensures |s| == k && forall i :: 0 <= i < k ==> s[i] == '0'
  {
    seq(k, _ => '0')
  }

  /** What %0wd prints for a non-negative integer. */
  function ZeroPad(n: nat, w: nat): (s: string)
    ensures AllDigits(s) && |s| >= w && |s| >= 1
  {
    var t := NatText(n);
    if |t| >= w then t else Zeros(w - |t|) + t
  }

  lemma {:induction false} LeadingZeros(k: nat, t: string)
    requires AllDigits(t)
    ensures DigitsValue(Zeros(k) + t) == DigitsValue(t)
    decreases |t|, k
  {
    var s := Zeros(k) + t;
    if t != "" {
      assert s[..|s| - 1] == Zeros(k) + t[..|t| - 1];
      LeadingZeros(k, t[..|t| - 1]);
    } else if k > 0 {
      assert s[..|s| - 1] == Zeros(k - 1) + t;
      LeadingZeros(k - 1, t);
    }
  }

  lemma ZeroPadValue(n: nat, w: nat)
    ensures DigitsValue(ZeroPad(n, w)) == n
  {
    NatTextValue(n);
    if |NatText(n)| < w { LeadingZeros(w - |NatText(n)|, NatText(n)); }
  }

  lemma PadWidth2(n: nat)
    requires n < 100
    ensures |ZeroPad(n, 2)| == 2
  {
    if n >= 10 { assert |NatText(n / 10)| == 1; }
  }

  lemma PadWidth4(n: nat)
    requires n < 10000
    ensures |ZeroPad(n, 4)| == 4
  {
    if n >= 10 {
      if n >= 100 {
        if n >= 1000 { assert |NatText(n / 1000)| == 1 && n / 1000 == n / 10 / 10 / 10; }
        assert |NatText(n / 100)| <= 2 && n / 100 == n / 10 / 10;
      }
      assert |NatText(n / 10)| <= 3;
    }
  }

  function Pow10(k: nat): (p: nat)
    ensures p >= 1
  {
    if k == 0 then 1 else 10 * Pow10(k - 1)
  }

  lemma {:induction false} DigitsAppend(s: string, t: string)
    requires AllDigits(s) && AllDigits(t)
    ensures DigitsValue(s + t) == DigitsValue(s) * Pow10(|t|) + DigitsValue(t)
    decreases |t|
  {
    if t == "" {
      assert s + t == s;
    } else {
      var u := t[..|t| - 1];
      DigitsAppend(s, u);
      assert (s + t)[..|s + t| - 1] == s + u;
      MulShift(DigitsValue(s), Pow10(|u|));
    }
  }

  lemma MulShift(a: nat, p: nat)
    ensures a * (10 * p) == (a * p) * 10
  {}

  lemma {:induction false} DigitsBound(s: string)
    requires AllDigits(s)
    ensures DigitsValue(s) < Pow10(|s|)
    decreases |s|
  {
    if s != "" { DigitsBound(s[..|s| - 1]); }
  }

  // ---- searching and splitting ----

  /** The index of the first c, or |s|. */
  function IndexOf(s: string, c: char): (i: nat)
    ensures i <= |s| && c !in s[..i] && (i < |s| ==> s[i] == c)
    ensures i == |s| <==> c !in s
  {
    if s == "" then 0 else if s[0] == c then 0 else
      var j := IndexOf(s[1..], c);
      assert s[..1 + j] == [s[0]] + s[1..][..j];
      assert s == [s[0]] + s[1..];
      1 + j
  }

  lemma FirstIndex(a: string, c: char, rest: string)
    requires c !in a
    ensures IndexOf(a + [c] + rest, c) == |a|
  {
    var s := a + [c] + rest;
    var i := IndexOf(s, c);
    assert s[|a|] == c;
    assert forall k :: 0 <= k < |a| ==> s[k] == a[k];
    assert forall k :: 0 <= k < i ==> s[k] == s[..i][k] && s[k] in s[..i];
  }

  /** strings.Split for a one-character separator. */
  function Split(s: string, sep: char): (parts: seq<string>)
    ensures |parts| >= 1
    decreases |s|
  {
    var i := IndexOf(s, sep);
    if i == |s| then [s] else [s[..i]] + Split(s[i + 1..], sep)
  }

  lemma SplitFirst(a: string, sep: char, rest: string)
    requires sep !in a
    ensures Split(a + [sep] + rest, sep) == [a] + Split(rest, sep)
  {
    FirstIndex(a, sep, rest);
    var s := a + [sep] + rest;
    assert s[..|a|] == a && s[|a| + 1..] == rest;
  }

  lemma SplitWhole(a: string, sep: char)
    requires sep !in a
    ensures Split(a, sep) == [a]
  {}

  /** All characters of s except those equal to c: strings.ReplaceAll(s, c, ""). */
  function Without(s: string, c: char): (r: string)
    ensures c !in r
    ensures forall x :: x in r ==> x in s
  {
    if s == "" then "" else if s[0] == c then Without(s[1..], c) else [s[0]] + Without(s[1..], c)
  }

  lemma {:induction false} WithoutAbsent(s: string, c: char)
    requires c !in s
    ensures Without(s, c) == s
    decreases |s|
  {
    if s != "" { WithoutAbsent(s[1..], c); }
  }

  /** strings.ReplaceAll for single characters. */
  function Replace(s: string, c: char, d: char): (r: string)
    ensures |r| == |s|
    ensures forall i :: 0 <= i < |s| ==> r[i] == if s[i] == c then d else s[i]
  {
    seq(|s|, i requires 0 <= i < |s| => if s[i] == c then d else s[i])
  }

  // ---- white space ----

  /** unicode.IsSpace. */
  predicate IsSpace(c: char) {
    var n := c as int;
    9 <= n <= 13 || n == 0x20 || n == 0x85 || n == 0xA0 || n == 0x1680 || 0x2000 <= n <= 0x200A
    || n == 0x2028 || n == 0x2029 || n == 0x202F || n == 0x205F || n == 0x3000
  }

  function TrimLeft(s: string): (r: string)
    ensures |r| <= |s| && r == s[|s| - |r|..]
    ensures r != "" ==> !IsSpace(r[0])
    ensures forall i :: 0 <= i < |s| - |r| ==> IsSpace(s[i])
  {
    if s != "" && IsSpace(s[0]) then TrimLeft(s[1..]) else s
  }

  function TrimRight(s: string): (r: string)
    ensures |r| <= |s| && r == s[..|r|]
    ensures r != "" ==> !IsSpace(r[|r| - 1])
  {
    if s != "" && IsSpace(s[|s| - 1]) then TrimRight(s[..|s| - 1]) else s
  }

  /** strings.TrimSpace. */
  function Trim(s: string): (r: string)
    ensures |r| <= |s|
    ensures r != "" ==> !IsSpace(r[0]) && !IsSpace(r[|r| - 1])
  {
    var l := TrimLeft(s);
    var r := TrimRight(l);
    assert r != "" ==> r[0] == l[0];
    r
  }

  /** Text that neither starts nor ends with white space. */
  predicate Trimmed(s: string) { s != "" ==> !IsSpace(s[0]) && !IsSpace(s[|s| - 1]) }

  lemma TrimTrimmed(s: string)
    requires Trimmed(s)
    ensures Trim(s) == s
  {}

  lemma TrimIdempotent(s: string)
    ensures Trim(Trim(s)) == Trim(s)
  {
    TrimTrimmed(Trim(s));
  }

  /** Case mapping, one character at a time as Go's strings.ToLower and strings.ToUpper do. */
  function MapChars(s: string, f: char -> char): (r: string)
    ensures |r| == |s|
    ensures forall i :: 0 <= i < |s| ==> r[i] == f(s[i])
  {
    seq(|s|, i requires 0 <= i < |s| => f(s[i]))
  }
}
