/** Characters, whitespace and decimal numbers as the C library's "C" locale defines them. */
module Text {

  datatype Option<+T> = None | Some(value: T)

  predicate IsSpace(c: char) { c == ' ' || '\t' <= c <= '\r' }

  predicate IsDigit(c: char) { '0' <= c <= '9' }

  predicate IsAlpha(c: char) { 'a' <= c <= 'z' || 'A' <= c <= 'Z' }

  predicate IsAlnum(c: char) { IsAlpha(c) || IsDigit(c) }

  function Lower(c: char): char
  {
    if 'A' <= c <= 'Z' then c - 'A' + 'a' else c
  }

  function LowerAll(s: string): (r: string)
    ensures |r| == |s|
    ensures forall i :: 0 <= i < |s| ==> r[i] == Lower(s[i])
  {
    seq(|s|, i requires 0 <= i < |s| => Lower(s[i]))
  }

  /** No character would be changed by tolower. */
  predicate IsLowerCase(s: string) { forall i :: 0 <= i < |s| ==> Lower(s[i]) == s[i] }

  predicate AllSpace(s: string) { forall i :: 0 <= i < |s| ==> IsSpace(s[i]) }

  predicate AllAlnum(s: string) { forall i :: 0 <= i < |s| ==> IsAlnum(s[i]) }

  /** The text does not start with whitespace. */
  predicate Trimmed(s: string) { s == "" || !IsSpace(s[0]) }

  /** Length of the leading run of whitespace. */
  function Blank(s: string): (k: nat)
    ensures k <= |s| && AllSpace(s[..k]) && Trimmed(s[k..])
  {
    if s == "" || !IsSpace(s[0]) then 0 else
      var k := 1 + Blank(s[1..]);
      assert forall i :: 1 <= i < k ==> s[i] == s[1..][..k-1][i-1];
      assert s[k..] == s[1..][k-1..];
      k
  }

  function Trim(s: string): (r: string)
    ensures Trimmed(r)
  { s[Blank(s)..] }

  /** Whitespace in front of trimmed text is exactly what Blank measures. */
  lemma {:induction false} BlankSplit(w: string, s: string)
    requires AllSpace(w) && Trimmed(s)
    ensures Blank(w + s) == |w| && Trim(w + s) == s
  {
    if w != "" {
      assert (w + s)[1..] == w[1..] + s;
      BlankSplit(w[1..], s);
    } else {
      assert w + s == s;
    }
  }

  lemma TrimTrimmed(s: string)
    requires Trimmed(s)
    ensures Blank(s) == 0 && Trim(s) == s
  {}

  /** Skipping some of the leading blanks does not change the trimmed text. */
  lemma {:induction false} TrimSkip(s: string, k: nat)
    requires k <= Blank(s)
    ensures Trim(s[k..]) == Trim(s)
  {
    if k > 0 {
      TrimSkip(s[1..], k - 1);
      assert s[1..][k-1..] == s[k..];
      assert s[1..][Blank(s)-1..] == s[Blank(s)..];
    }
  }

  // ----- concatenation is associative; stated once so that proofs need not rediscover it -----

  lemma Cat3(a: string, b: string, c: string)
    ensures a + (b + c) == a + b + c
  {}

  lemma Cat4(a: string, b: string, c: string, d: string)
    ensures a + (b + (c + d)) == a + b + c + d
  {}

  lemma Cat5(a: string, b: string, c: string, d: string, e: string)
    ensures a + (b + (c + (d + e))) == a + b + c + d + e
  {}

  lemma Cat6(a: string, b: string, c: string, d: string, e: string, f: string)
    ensures a + (b + (c + (d + (e + f)))) == a + b + c + d + e + f
  {}

  lemma Split(s: string, k: nat)
    requires k <= |s|
    ensures s == s[..k] + s[k..]
  {}

  lemma Joined(a: string, b: string)
    ensures (a + b)[..|a|] == a && (a + b)[|a|..] == b
    ensures a != "" ==> (a + b)[0] == a[0]
  {}

  // ----- decimal numbers -----

  const INT_MAX := 0x7fff_ffff

  /** Two's complement wrap-around of a C int. */
  function Wrap32(x: int): (r: int)
    ensures -INT_MAX - 1 <= r <= INT_MAX
    ensures -INT_MAX - 1 <= x <= INT_MAX ==> r == x
  {
    (x + 0x8000_0000) % 0x1_0000_0000 - 0x8000_0000
  }

  function DigitChar(d: nat): (c: char)
    requires d < 10
    ensures IsDigit(c) && DigitValue(c) == d
  { '0' + d as char }

  function DigitValue(c: char): (d: nat)
    requires IsDigit(c)
    ensures d < 10
  { (c - '0') as int }

  predicate AllDigits(s: string) { forall i :: 0 <= i < |s| ==> IsDigit(s[i]) }

  /** Decimal digits without leading zeros. */
  function Digits(n: nat): (s: string)
    ensures s != "" && AllDigits(s)
  {
    if n < 10 then [DigitChar(n)] else Digits(n / 10) + [DigitChar(n % 10)]
  }

  /** The text printf writes for "%d". */
  function Dec(n: int): (s: string)
    ensures s != ""
  { if n < 0 then "-" + Digits(-n) else Digits(n) }

  /** The unbounded value of a digit string. */
  function DigitsValue(s: string): (n: nat)
    requires AllDigits(s)
  {
    if s == "" then 0
    else DigitsValue(s[..|s|-1]) * 10 + DigitValue(s[|s|-1])
  }

  lemma {:induction false} DigitsRoundTrip(n: nat)
    ensures DigitsValue(Digits(n)) == n
  {
    if n >= 10 {
      DigitsRoundTrip(n / 10);
      assert Digits(n)[..|Digits(n)|-1] == Digits(n / 10);
    }
  }
}
