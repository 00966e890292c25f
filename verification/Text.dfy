/** Characters, decimal numbers and the number scanners of the C library, on strings without NUL. */
module Text {
  predicate IsDigit(c: char) { '0' <= c <= '9' }

  predicate IsAlnum(c: char) { IsDigit(c) || 'A' <= c <= 'Z' || 'a' <= c <= 'z' }

  predicate IsSpace(c: char) { c == ' ' || 9 <= c as int <= 13 }

  predicate NoSpace(s: string) { forall i :: 0 <= i < |s| ==> !IsSpace(s[i]) }

  /** What `cpdlc_strlcpy` leaves in a buffer of `cap` bytes. */
  function Trunc(s: string, cap: nat): string
    requires cap > 0
  {
    if |s| < cap then s else s[..cap - 1]
  }

  /** Index of the first `c`, or the length. */
  function Find(s: string, c: char): (r: nat)
    ensures r <= |s| && (r < |s| ==> s[r] == c) && forall i :: 0 <= i < r ==> s[i] != c
  {
    if s == "" || s[0] == c then 0 else 1 + Find(s[1..], c)
  }

  lemma {:induction false} FindAfter(a: string, c: char, b: string)
    requires c !in a
    ensures Find(a + [c] + b, c) == |a|
  {
    var s := a + [c] + b;
    if a != "" {
      assert s[0] == a[0] && s[1..] == a[1..] + [c] + b;
      FindAfter(a[1..], c, b);
    }
  }

  predicate StartsWith(s: string, p: string) { |p| <= |s| && s[..|p|] == p }

  // ----- printing -----

  function Digit(d: nat): (c: char)
    requires d < 10
    ensures IsDigit(c) && c as int - '0' as int == d
  {
    ('0' as int + d) as char
  }

  function Dec(n: nat): (s: string)
    ensures |s| > 0 && forall i :: 0 <= i < |s| ==> IsDigit(s[i])
  {
    if n < 10 then [Digit(n)] else Dec(n / 10) + [Digit(n % 10)]
  }

  /** `%d` */
  function DecInt(n: int): string { if n < 0 then "-" + Dec(-n) else Dec(n) }

  /** `%02d` and the like */
  function Zeros(k: nat): (s: string)
    ensures |s| == k && forall i :: 0 <= i < k ==> s[i] == '0'
  {
    if k == 0 then "" else "0" + Zeros(k - 1)
  }

  function Pad(n: nat, width: nat): string {
    var d := Dec(n);
    if |d| >= width then d else Zeros(width - |d|) + d
  }

  const TWO31 := 0x8000_0000
  const TWO32 := 0x1_0000_0000
  const TWO63 := 0x8000_0000_0000_0000
  const TWO64 := 0x1_0000_0000_0000_0000

  /** A 32-bit unsigned value as `%d` sees it. */
  function Signed(n: nat): int { if n < TWO31 then n else n - TWO32 }

  function Wrap32(v: int): int { (v + TWO31) % TWO32 - TWO31 }

  // ----- scanning -----

  function SpaceLen(s: string): (n: nat)
    ensures n <= |s|
  {
    if s == "" || !IsSpace(s[0]) then 0 else 1 + SpaceLen(s[1..])
  }

  function DigitsLen(s: string): (n: nat)
    ensures n <= |s| && (forall i :: 0 <= i < n ==> IsDigit(s[i])) && (n < |s| ==> !IsDigit(s[n]))
  {
    if s == "" || !IsDigit(s[0]) then 0 else 1 + DigitsLen(s[1..])
  }

  /** The number written by a string of digits. */
  function Value(s: string): nat
    requires forall i :: 0 <= i < |s| ==> IsDigit(s[i])
  {
    if s == "" then 0 else
      assert IsDigit(s[|s| - 1]);
      Value(s[..|s| - 1]) * 10 + (s[|s| - 1] as int - '0' as int)
  }

  datatype Num = NoNum | Num(neg: bool, mag: nat)

  predicate IsSign(c: char) { c == '-' || c == '+' }

  function Magnitude(neg: bool, s: string): Num {
    var n := DigitsLen(s);
    if n == 0 then NoNum else Num(neg, Value(s[..n]))
  }

  /** Leading blanks, a sign, digits: the start of any integer conversion. */
  function ScanNum(s: string): Num {
    var a := s[SpaceLen(s)..];
    if a != "" && IsSign(a[0]) then Magnitude(a[0] == '-', a[1..]) else Magnitude(false, a)
  }

  /** `%d`: a 64-bit conversion that saturates, cut to 32 bits. */
  function AsInt(n: Num): int
    requires n.Num?
  {
    var v := n.mag * if n.neg then -1 else 1;
    Wrap32(if v >= TWO63 then TWO63 - 1 else if v < -TWO63 then -TWO63 else v)
  }

  function Atoi(s: string): int { var n := ScanNum(s); if n.NoNum? then 0 else AsInt(n) }

  /** `%u`: saturates at 64 bits, a minus sign negates modulo 2^64, then cut to 32 bits. */
  function AsUnsigned(n: Num): nat
    requires n.Num?
  {
    (if n.mag >= TWO64 then TWO64 - 1 else if n.neg then (TWO64 - n.mag) % TWO64 else n.mag) % TWO32
  }

  // ----- scanning undoes printing -----

  lemma {:induction false} ValueOfDec(n: nat)
    ensures Value(Dec(n)) == n
  {
    if n < 10 {
      assert [Digit(n)][..0] == "";
    } else {
      ValueOfDec(n / 10);
      assert Dec(n)[..|Dec(n)| - 1] == Dec(n / 10);
    }
  }

  lemma {:induction false} ValueOfZeros(k: nat, s: string)
    requires forall i :: 0 <= i < |s| ==> IsDigit(s[i])
    ensures Value(Zeros(k) + s) == Value(s)
    decreases |s|, k
  {
    var z := Zeros(k) + s;
    if s == "" {
      if k > 0 {
        assert z[..|z| - 1] == Zeros(k - 1) + s by {
          assert forall i :: 0 <= i < k - 1 ==> z[i] == '0' == Zeros(k - 1)[i];
        }
        ValueOfZeros(k - 1, s);
      }
    } else {
      assert z[..|z| - 1] == Zeros(k) + s[..|s| - 1];
      ValueOfZeros(k, s[..|s| - 1]);
    }
  }

  lemma PadDigits(n: nat, width: nat)
    ensures |Pad(n, width)| > 0 && (forall i :: 0 <= i < |Pad(n, width)| ==> IsDigit(Pad(n, width)[i]))
    ensures Value(Pad(n, width)) == n
    ensures |Pad(n, width)| >= width
  {
    ValueOfDec(n);
    if |Dec(n)| < width { ValueOfZeros(width - |Dec(n)|, Dec(n)); }
  }

  predicate NotDigitFirst(r: string) { r == "" || !IsDigit(r[0]) }

  lemma {:induction false} DigitsLenOf(d: string, r: string)
    requires (forall i :: 0 <= i < |d| ==> IsDigit(d[i])) && NotDigitFirst(r)
    ensures DigitsLen(d + r) == |d|
  {
    if d == "" { assert d + r == r; } else {
      assert (d + r)[1..] == d[1..] + r;
      DigitsLenOf(d[1..], r);
    }
  }

  lemma MagnitudeOf(neg: bool, d: string, r: string)
    requires |d| > 0 && (forall i :: 0 <= i < |d| ==> IsDigit(d[i])) && NotDigitFirst(r)
    ensures Magnitude(neg, d + r) == Num(neg, Value(d))
  {
    DigitsLenOf(d, r);
    assert (d + r)[..|d|] == d;
  }

  lemma ScanDigits(d: string, r: string)
    requires |d| > 0 && (forall i :: 0 <= i < |d| ==> IsDigit(d[i])) && NotDigitFirst(r)
    ensures ScanNum(d + r) == Num(false, Value(d))
  {
    var s := d + r;
    assert s[0] == d[0] && IsDigit(d[0]);
    assert s[SpaceLen(s)..] == s;
    MagnitudeOf(false, d, r);
  }

  lemma ScanSign(s: string)
    requires s != "" && s[0] == '-'
    ensures ScanNum(s) == Magnitude(true, s[1..])
  {
    assert s[SpaceLen(s)..] == s;
  }

  lemma ScanMinus(s: string, d: string, r: string)
    requires s != "" && s[0] == '-' && s[1..] == d + r
    requires |d| > 0 && (forall i :: 0 <= i < |d| ==> IsDigit(d[i])) && NotDigitFirst(r)
    ensures ScanNum(s) == Num(true, Value(d))
  {
    ScanSign(s);
    MagnitudeOf(true, d, r);
  }

  lemma ScanDec(n: nat, r: string)
    requires NotDigitFirst(r)
    ensures ScanNum(Dec(n) + r) == Num(false, n)
  {
    ScanDigits(Dec(n), r);
    ValueOfDec(n);
  }

  lemma ScanNegative(m: nat, r: string)
    requires NotDigitFirst(r)
    ensures ScanNum("-" + Dec(m) + r) == Num(true, m)
  {
    var d := Dec(m);
    ValueOfDec(m);
    var s := "-" + d + r;
    assert s[1..] == d + r;
    ScanMinus(s, d, r);
  }

  lemma ScanDecInt(n: int, r: string)
    requires NotDigitFirst(r)
    ensures ScanNum(DecInt(n) + r) == Num(n < 0, if n < 0 then -n else n)
  {
    if n < 0 { ScanNegative(-n, r); } else { ScanDec(n, r); }
  }

  lemma NegatedUnsigned(m: nat)
    requires 0 < m <= TWO31
    ensures AsUnsigned(Num(true, m)) == TWO32 - m
  {
    assert (TWO64 - m) % TWO64 == TWO64 - m;
    assert TWO64 - m == TWO32 * (TWO32 - 1) + (TWO32 - m);
  }

  lemma SmallInt(neg: bool, m: nat)
    requires m < TWO31 || (neg && m == TWO31)
    ensures AsInt(Num(neg, m)) == m * if neg then -1 else 1
  {
  }

  lemma SmallUnsigned(m: nat)
    requires m < TWO31
    ensures AsUnsigned(Num(false, m)) == m
  {
  }

  /** A 32-bit number printed with `%d` comes back, signed or unsigned. */
  lemma ScanSigned(n: nat, r: string)
    requires n < TWO32 && NotDigitFirst(r)
    ensures ScanNum(DecInt(Signed(n)) + r).Num?
    ensures AsUnsigned(ScanNum(DecInt(Signed(n)) + r)) == n
    ensures Atoi(DecInt(Signed(n)) + r) == Signed(n)
  {
    if n < TWO31 {
      ScanDecInt(n, r);
      SmallInt(false, n);
      SmallUnsigned(n);
    } else {
      var m := TWO32 - n;
      ScanDecInt(-m, r);
      SmallInt(true, m);
      NegatedUnsigned(m);
    }
  }
}
