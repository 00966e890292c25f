/**
 The checksum of FANS-1/A messages: a table-driven CRC with generator x^16 + x^12 + x^5 + 1, register preset to ones and
 result inverted.
 */
module Crc {
  function Row0(lo: bv8): bv16 {
    if lo == 0 then 0x0000 else if lo == 1 then 0x1021 else if lo == 2 then 0x2042 else if lo == 3 then 0x3063
    else if lo == 4 then 0x4084 else if lo == 5 then 0x50A5 else if lo == 6 then 0x60C6 else if lo == 7 then 0x70E7
    else if lo == 8 then 0x8108 else if lo == 9 then 0x9129 else if lo == 10 then 0xA14A else if lo == 11 then 0xB16B
    else if lo == 12 then 0xC18C else if lo == 13 then 0xD1AD else if lo == 14 then 0xE1CE else 0xF1EF
  }

  function Row1(lo: bv8): bv16 {
    if lo == 0 then 0x1231 else if lo == 1 then 0x0210 else if lo == 2 then 0x3273 else if lo == 3 then 0x2252
    else if lo == 4 then 0x52B5 else if lo == 5 then 0x4294 else if lo == 6 then 0x72F7 else if lo == 7 then 0x62D6
    else if lo == 8 then 0x9339 else if lo == 9 then 0x8318 else if lo == 10 then 0xB37B else if lo == 11 then 0xA35A
    else if lo == 12 then 0xD3BD else if lo == 13 then 0xC39C else if lo == 14 then 0xF3FF else 0xE3DE
  }

  function Row2(lo: bv8): bv16 {
    if lo == 0 then 0x2462 else if lo == 1 then 0x3443 else if lo == 2 then 0x0420 else if lo == 3 then 0x1401
    else if lo == 4 then 0x64E6 else if lo == 5 then 0x74C7 else if lo == 6 then 0x44A4 else if lo == 7 then 0x5485
    else if lo == 8 then 0xA56A else if lo == 9 then 0xB54B else if lo == 10 then 0x8528 else if lo == 11 then 0x9509
    else if lo == 12 then 0xE5EE else if lo == 13 then 0xF5CF else if lo == 14 then 0xC5AC else 0xD58D
  }

  function Row3(lo: bv8): bv16 {
    if lo == 0 then 0x3653 else if lo == 1 then 0x2672 else if lo == 2 then 0x1611 else if lo == 3 then 0x0630
    else if lo == 4 then 0x76D7 else if lo == 5 then 0x66F6 else if lo == 6 then 0x5695 else if lo == 7 then 0x46B4
    else if lo == 8 then 0xB75B else if lo == 9 then 0xA77A else if lo == 10 then 0x9719 else if lo == 11 then 0x8738
    else if lo == 12 then 0xF7DF else if lo == 13 then 0xE7FE else if lo == 14 then 0xD79D else 0xC7BC
  }

  function Row4(lo: bv8): bv16 {
    if lo == 0 then 0x48C4 else if lo == 1 then 0x58E5 else if lo == 2 then 0x6886 else if lo == 3 then 0x78A7
    else if lo == 4 then 0x0840 else if lo == 5 then 0x1861 else if lo == 6 then 0x2802 else if lo == 7 then 0x3823
    else if lo == 8 then 0xC9CC else if lo == 9 then 0xD9ED else if lo == 10 then 0xE98E else if lo == 11 then 0xF9AF
    else if lo == 12 then 0x8948 else if lo == 13 then 0x9969 else if lo == 14 then 0xA90A else 0xB92B
  }

  function Row5(lo: bv8): bv16 {
    if lo == 0 then 0x5AF5 else if lo == 1 then 0x4AD4 else if lo == 2 then 0x7AB7 else if lo == 3 then 0x6A96
    else if lo == 4 then 0x1A71 else if lo == 5 then 0x0A50 else if lo == 6 then 0x3A33 else if lo == 7 then 0x2A12
    else if lo == 8 then 0xDBFD else if lo == 9 then 0xCBDC else if lo == 10 then 0xFBBF else if lo == 11 then 0xEB9E
    else if lo == 12 then 0x9B79 else if lo == 13 then 0x8B58 else if lo == 14 then 0xBB3B else 0xAB1A
  }

  function Row6(lo: bv8): bv16 {
    if lo == 0 then 0x6CA6 else if lo == 1 then 0x7C87 else if lo == 2 then 0x4CE4 else if lo == 3 then 0x5CC5
    else if lo == 4 then 0x2C22 else if lo == 5 then 0x3C03 else if lo == 6 then 0x0C60 else if lo == 7 then 0x1C41
    else if lo == 8 then 0xEDAE else if lo == 9 then 0xFD8F else if lo == 10 then 0xCDEC else if lo == 11 then 0xDDCD
    else if lo == 12 then 0xAD2A else if lo == 13 then 0xBD0B else if lo == 14 then 0x8D68 else 0x9D49
  }

  function Row7(lo: bv8): bv16 {
    if lo == 0 then 0x7E97 else if lo == 1 then 0x6EB6 else if lo == 2 then 0x5ED5 else if lo == 3 then 0x4EF4
    else if lo == 4 then 0x3E13 else if lo == 5 then 0x2E32 else if lo == 6 then 0x1E51 else if lo == 7 then 0x0E70
    else if lo == 8 then 0xFF9F else if lo == 9 then 0xEFBE else if lo == 10 then 0xDFDD else if lo == 11 then 0xCFFC
    else if lo == 12 then 0xBF1B else if lo == 13 then 0xAF3A else if lo == 14 then 0x9F59 else 0x8F78
  }

  function Row8(lo: bv8): bv16 {
    if lo == 0 then 0x9188 else if lo == 1 then 0x81A9 else if lo == 2 then 0xB1CA else if lo == 3 then 0xA1EB
    else if lo == 4 then 0xD10C else if lo == 5 then 0xC12D else if lo == 6 then 0xF14E else if lo == 7 then 0xE16F
    else if lo == 8 then 0x1080 else if lo == 9 then 0x00A1 else if lo == 10 then 0x30C2 else if lo == 11 then 0x20E3
    else if lo == 12 then 0x5004 else if lo == 13 then 0x4025 else if lo == 14 then 0x7046 else 0x6067
  }

  function Row9(lo: bv8): bv16 {
    if lo == 0 then 0x83B9 else if lo == 1 then 0x9398 else if lo == 2 then 0xA3FB else if lo == 3 then 0xB3DA
    else if lo == 4 then 0xC33D else if lo == 5 then 0xD31C else if lo == 6 then 0xE37F else if lo == 7 then 0xF35E
    else if lo == 8 then 0x02B1 else if lo == 9 then 0x1290 else if lo == 10 then 0x22F3 else if lo == 11 then 0x32D2
    else if lo == 12 then 0x4235 else if lo == 13 then 0x5214 else if lo == 14 then 0x6277 else 0x7256
  }

  function RowA(lo: bv8): bv16 {
    if lo == 0 then 0xB5EA else if lo == 1 then 0xA5CB else if lo == 2 then 0x95A8 else if lo == 3 then 0x8589
    else if lo == 4 then 0xF56E else if lo == 5 then 0xE54F else if lo == 6 then 0xD52C else if lo == 7 then 0xC50D
    else if lo == 8 then 0x34E2 else if lo == 9 then 0x24C3 else if lo == 10 then 0x14A0 else if lo == 11 then 0x0481
    else if lo == 12 then 0x7466 else if lo == 13 then 0x6447 else if lo == 14 then 0x5424 else 0x4405
  }

  function RowB(lo: bv8): bv16 {
    if lo == 0 then 0xA7DB else if lo == 1 then 0xB7FA else if lo == 2 then 0x8799 else if lo == 3 then 0x97B8
    else if lo == 4 then 0xE75F else if lo == 5 then 0xF77E else if lo == 6 then 0xC71D else if lo == 7 then 0xD73C
    else if lo == 8 then 0x26D3 else if lo == 9 then 0x36F2 else if lo == 10 then 0x0691 else if lo == 11 then 0x16B0
    else if lo == 12 then 0x6657 else if lo == 13 then 0x7676 else if lo == 14 then 0x4615 else 0x5634
  }

  function RowC(lo: bv8): bv16 {
    if lo == 0 then 0xD94C else if lo == 1 then 0xC96D else if lo == 2 then 0xF90E else if lo == 3 then 0xE92F
    else if lo == 4 then 0x99C8 else if lo == 5 then 0x89E9 else if lo == 6 then 0xB98A else if lo == 7 then 0xA9AB
    else if lo == 8 then 0x5844 else if lo == 9 then 0x4865 else if lo == 10 then 0x7806 else if lo == 11 then 0x6827
    else if lo == 12 then 0x18C0 else if lo == 13 then 0x08E1 else if lo == 14 then 0x3882 else 0x28A3
  }

  function RowD(lo: bv8): bv16 {
    if lo == 0 then 0xCB7D else if lo == 1 then 0xDB5C else if lo == 2 then 0xEB3F else if lo == 3 then 0xFB1E
    else if lo == 4 then 0x8BF9 else if lo == 5 then 0x9BD8 else if lo == 6 then 0xABBB else if lo == 7 then 0xBB9A
    else if lo == 8 then 0x4A75 else if lo == 9 then 0x5A54 else if lo == 10 then 0x6A37 else if lo == 11 then 0x7A16
    else if lo == 12 then 0x0AF1 else if lo == 13 then 0x1AD0 else if lo == 14 then 0x2AB3 else 0x3A92
  }

  function RowE(lo: bv8): bv16 {
    if lo == 0 then 0xFD2E else if lo == 1 then 0xED0F else if lo == 2 then 0xDD6C else if lo == 3 then 0xCD4D
    else if lo == 4 then 0xBDAA else if lo == 5 then 0xAD8B else if lo == 6 then 0x9DE8 else if lo == 7 then 0x8DC9
    else if lo == 8 then 0x7C26 else if lo == 9 then 0x6C07 else if lo == 10 then 0x5C64 else if lo == 11 then 0x4C45
    else if lo == 12 then 0x3CA2 else if lo == 13 then 0x2C83 else if lo == 14 then 0x1CE0 else 0x0CC1
  }

  function RowF(lo: bv8): bv16 {
    if lo == 0 then 0xEF1F else if lo == 1 then 0xFF3E else if lo == 2 then 0xCF5D else if lo == 3 then 0xDF7C
    else if lo == 4 then 0xAF9B else if lo == 5 then 0xBFBA else if lo == 6 then 0x8FD9 else if lo == 7 then 0x9FF8
    else if lo == 8 then 0x6E17 else if lo == 9 then 0x7E36 else if lo == 10 then 0x4E55 else if lo == 11 then 0x5E74
    else if lo == 12 then 0x2E93 else if lo == 13 then 0x3EB2 else if lo == 14 then 0x0ED1 else 0x1EF0
  }

  /** The lookup table, one row of sixteen entries per high nibble. */
  function Table(i: bv8): bv16 {
    var hi, lo := i >> 4, i & 15;
    if hi == 0 then Row0(lo) else if hi == 1 then Row1(lo) else if hi == 2 then Row2(lo) else if hi == 3 then Row3(lo)
    else if hi == 4 then Row4(lo) else if hi == 5 then Row5(lo) else if hi == 6 then Row6(lo)
    else if hi == 7 then Row7(lo)
    else if hi == 8 then Row8(lo) else if hi == 9 then Row9(lo) else if hi == 10 then RowA(lo)
    else if hi == 11 then RowB(lo)
    else if hi == 12 then RowC(lo) else if hi == 13 then RowD(lo) else if hi == 14 then RowE(lo) else RowF(lo)
  }

  // ----- polynomials over GF(2): bit sequences, highest power first -----

  /** x^12 + x^5 + 1, the generator without its leading x^16, as sixteen bits. */
  const GEN: seq<bool> := [false, false, false, true, false, false, false, false,
                           false, false, true, false, false, false, false, true]

  function Xor(a: seq<bool>, b: seq<bool>): (r: seq<bool>)
    requires |a| == |b|
    ensures |r| == |a| && forall i :: 0 <= i < |r| ==> r[i] == (a[i] != b[i])
  {
    seq(|a|, i requires 0 <= i < |a| => a[i] != b[i])
  }

  function Zeros(n: nat): (r: seq<bool>)
    ensures |r| == n && forall i :: 0 <= i < n ==> !r[i]
  {
    seq(n, _ => false)
  }

  /** `b` times the generator's sixteen low bits. */
  function Times(b: bool): (r: seq<bool>)
    ensures |r| == 16 && forall i :: 0 <= i < 16 ==> r[i] == (b && GEN[i])
  {
    if b then GEN else Zeros(16)
  }

  // ----- long division -----

  /** One step: the leading bit is a bit of the quotient; that multiple of the generator is subtracted. */
  function Reduce(w: seq<bool>): (r: seq<bool>)
    requires |w| > 16
    ensures |r| == |w| - 1
  {
    Xor(w[1..17], Times(w[0])) + w[17..]
  }

  function Remainder(w: seq<bool>): (r: seq<bool>)
    requires |w| >= 16
    ensures |r| == 16
    decreases |w|
  {
    if |w| == 16 then w else Remainder(Reduce(w))
  }

  function Quotient(w: seq<bool>): (q: seq<bool>)
    requires |w| >= 16
    ensures |q| == |w| - 16
    decreases |w|
  {
    if |w| == 16 then [] else [w[0]] + Quotient(Reduce(w))
  }

  /** The product of `q` and the generator. */
  function Product(q: seq<bool>): (r: seq<bool>)
    ensures |r| == |q| + 16
  {
    if q == [] then Zeros(16)
    else Xor([q[0]] + Times(q[0]) + Zeros(|q| - 1), [false] + Product(q[1..]))
  }

  lemma DivisionBits(w: seq<bool>, p: seq<bool>, r: seq<bool>, n: nat, lead: seq<bool>)
    requires |w| == n + 17 == |p| + 1 && |r| == 16 && Reduce(w) == Xor(p, Zeros(n) + r)
    requires lead == [w[0]] + Times(w[0]) + Zeros(n)
    ensures w == Xor(Xor(lead, [false] + p), Zeros(n + 1) + r)
  {
    var z, z' := Zeros(n) + r, Zeros(n + 1) + r;
    var x := Xor(lead, [false] + p);
    forall i | 0 <= i < |w| ensures w[i] == (x[i] != z'[i]) {
      if i > 0 {
        assert z'[i] == z[i - 1];
        ReduceAt(w, i - 1);
        assert Reduce(w)[i - 1] == (p[i - 1] != z[i - 1]);
        assert lead[i] == (i <= 16 && w[0] && GEN[i - 1]);
      }
    }
  }

  lemma ProductCons(b: bool, q: seq<bool>)
    ensures Product([b] + q) == Xor([b] + Times(b) + Zeros(|q|), [false] + Product(q))
  {
    assert ([b] + q)[1..] == q;
  }

  lemma DivisionStep(w: seq<bool>, q: seq<bool>, r: seq<bool>, n: nat)
    requires |w| == n + 17 && |q| == n && |r| == 16 && Reduce(w) == Xor(Product(q), Zeros(n) + r)
    ensures w == Xor(Product([w[0]] + q), Zeros(n + 1) + r)
  {
    ProductCons(w[0], q);
    DivisionBits(w, Product(q), r, n, [w[0]] + Times(w[0]) + Zeros(n));
  }

  /** Division with remainder: w = q * generator + r, with r of degree below 16. */
  lemma {:induction false} Division(w: seq<bool>)
    requires |w| >= 16
    ensures w == Xor(Product(Quotient(w)), Zeros(|w| - 16) + Remainder(w))
    decreases |w|
  {
    if |w| > 16 {
      var w' := Reduce(w);
      Division(w');
      DivisionStep(w, Quotient(w'), Remainder(w'), |w| - 17);
    } else {
      assert Zeros(0) + w == w;
    }
  }

  // ----- one message bit at a time -----

  /** Multiplication of the register by x, modulo the generator. */
  function Shift(r: seq<bool>): (r': seq<bool>)
    requires |r| == 16
    ensures |r'| == 16
  {
    Xor(r[1..] + [false], Times(r[0]))
  }

  function BitStep(r: seq<bool>, b: bool): (r': seq<bool>)
    requires |r| == 16
    ensures |r'| == 16
  {
    Shift(r[0 := r[0] != b])
  }

  function Direct(r: seq<bool>, bits: seq<bool>): (r': seq<bool>)
    requires |r| == 16
    ensures |r'| == 16
    decreases |bits|
  {
    if bits == [] then r else Direct(BitStep(r, bits[0]), bits[1..])
  }

  /** `w` with `r` added to its first sixteen bits. */
  function Preset(w: seq<bool>, r: seq<bool>): (w': seq<bool>)
    requires |w| >= 16 && |r| == 16
    ensures |w'| == |w|
  {
    Xor(w[..16], r) + w[16..]
  }

  lemma ReduceAt(w: seq<bool>, i: nat)
    requires |w| > 16 && i < |w| - 1
    ensures Reduce(w)[i] == if i < 16 then w[i + 1] != (w[0] && GEN[i]) else w[i + 1]
  {
    var x := Xor(w[1..17], Times(w[0]));
    if i < 16 {
      assert Reduce(w)[i] == x[i] && w[1..17][i] == w[i + 1];
    } else {
      assert Reduce(w)[i] == w[17..][i - 16];
    }
  }

  lemma PresetAt(w: seq<bool>, r: seq<bool>, i: nat)
    requires |w| >= 16 && |r| == 16 && i < |w|
    ensures Preset(w, r)[i] == if i < 16 then w[i] != r[i] else w[i]
  {
    var x := Xor(w[..16], r);
    if i < 16 {
      assert Preset(w, r)[i] == x[i] && w[..16][i] == w[i];
    } else {
      assert Preset(w, r)[i] == w[16..][i - 16];
    }
  }

  lemma BitStepAt(r: seq<bool>, b: bool, i: nat)
    requires |r| == 16 && i < 16
    ensures BitStep(r, b)[i] == ((i < 15 && r[i + 1]) != ((r[0] != b) && GEN[i]))
  {
    var q := r[0 := r[0] != b];
    var x := q[1..] + [false];
    assert BitStep(r, b)[i] == (x[i] != Times(q[0])[i]);
    assert x[i] == (i < 15 && r[i + 1]);
  }

  /** One bit step is one step of the long division of the message followed by sixteen zeros. */
  lemma StepIsReduce(bits: seq<bool>, r: seq<bool>)
    requires bits != [] && |r| == 16
    ensures Reduce(Preset(bits + Zeros(16), r)) == Preset(bits[1..] + Zeros(16), BitStep(r, bits[0]))
  {
    var w := bits + Zeros(16);
    var p := Preset(w, r);
    var u := bits[1..] + Zeros(16);
    assert u == w[1..];
    var a, b := Reduce(p), Preset(u, BitStep(r, bits[0]));
    forall i | 0 <= i < |u| ensures a[i] == b[i] {
      ReduceAt(p, i);
      PresetAt(w, r, i + 1);
      PresetAt(w, r, 0);
      PresetAt(u, BitStep(r, bits[0]), i);
      if i < 16 { BitStepAt(r, bits[0], i); }
    }
  }

  /** The register after the message is the remainder of the message, shifted by sixteen places and preset. */
  lemma {:induction false} DirectIsRemainder(bits: seq<bool>, r: seq<bool>)
    requires |r| == 16
    ensures Direct(r, bits) == Remainder(Preset(bits + Zeros(16), r))
    decreases |bits|
  {
    if bits == [] {
      assert bits + Zeros(16) == Zeros(16);
      assert Preset(Zeros(16), r) == r;
    } else {
      StepIsReduce(bits, r);
      DirectIsRemainder(bits[1..], BitStep(r, bits[0]));
    }
  }

  // ----- bursts -----

  lemma ShiftInjective(a: seq<bool>, b: seq<bool>)
    requires |a| == |b| == 16 && Shift(a) == Shift(b)
    ensures a == b
  {
    assert Shift(a)[15] == a[0] && Shift(b)[15] == b[0];
    forall i | 1 <= i < 16 ensures a[i] == b[i] {
      assert Shift(a)[i - 1] == (a[i] != (a[0] && GEN[i - 1]));
      assert Shift(b)[i - 1] == (b[i] != (b[0] && GEN[i - 1]));
    }
  }

  lemma BitStepInjective(a: seq<bool>, b: seq<bool>, x: bool)
    requires |a| == |b| == 16 && BitStep(a, x) == BitStep(b, x)
    ensures a == b
  {
    var a', b' := a[0 := a[0] != x], b[0 := b[0] != x];
    ShiftInjective(a', b');
    assert a'[0] == b'[0];
    assert forall i :: 1 <= i < 16 ==> a[i] == a'[i] == b'[i] == b[i];
  }

  lemma {:induction false} DirectInjective(a: seq<bool>, b: seq<bool>, bits: seq<bool>)
    requires |a| == |b| == 16 && Direct(a, bits) == Direct(b, bits)
    ensures a == b
    decreases |bits|
  {
    if bits != [] {
      DirectInjective(BitStep(a, bits[0]), BitStep(b, bits[0]), bits[1..]);
      BitStepInjective(a, b, bits[0]);
    }
  }

  lemma {:induction false} DirectAppend(r: seq<bool>, a: seq<bool>, b: seq<bool>)
    requires |r| == 16
    ensures Direct(r, a + b) == Direct(Direct(r, a), b)
    decreases |a|
  {
    if a == [] {
      assert a + b == b;
    } else {
      assert (a + b)[1..] == a[1..] + b;
      DirectAppend(BitStep(r, a[0]), a[1..], b);
    }
  }

  function ShiftN(r: seq<bool>, n: nat): (r': seq<bool>)
    requires |r| == 16
    ensures |r'| == 16
    decreases n
  {
    if n == 0 then r else ShiftN(Shift(r), n - 1)
  }

  lemma {:induction false} ShiftNInjective(a: seq<bool>, b: seq<bool>, n: nat)
    requires |a| == |b| == 16 && ShiftN(a, n) == ShiftN(b, n)
    ensures a == b
    decreases n
  {
    if n > 0 {
      ShiftNInjective(Shift(a), Shift(b), n - 1);
      ShiftInjective(a, b);
    }
  }

  /** At most sixteen bits can be added to the register first and shifted in afterwards. */
  lemma {:induction false} DirectShort(r: seq<bool>, bits: seq<bool>)
    requires |r| == 16 && |bits| <= 16
    ensures Direct(r, bits) == ShiftN(Xor(r, bits + Zeros(16 - |bits|)), |bits|)
    decreases |bits|
  {
    if bits == [] {
      assert Xor(r, bits + Zeros(16)) == r;
    } else {
      ShortStep(r, bits);
      DirectShort(BitStep(r, bits[0]), bits[1..]);
    }
  }

  lemma ShortStep(r: seq<bool>, bits: seq<bool>)
    requires |r| == 16 && 0 < |bits| <= 16
    ensures Shift(Xor(r, bits + Zeros(16 - |bits|))) == Xor(BitStep(r, bits[0]), bits[1..] + Zeros(17 - |bits|))
  {
    var x, y := bits + Zeros(16 - |bits|), bits[1..] + Zeros(17 - |bits|);
    assert y == x[1..] + [false];
    var a, b := Shift(Xor(r, x)), Xor(BitStep(r, bits[0]), y);
    forall i | 0 <= i < 16 ensures a[i] == b[i] {
      assert a[i] == ((i < 15 && (r[i + 1] != x[i + 1])) != ((r[0] != x[0]) && GEN[i]));
      BitStepAt(r, bits[0], i);
    }
  }

  /** `a` and `b` are alike outside the sixteen bits from `k` on. */
  ghost predicate DifferWithin(a: seq<bool>, b: seq<bool>, k: nat) {
    |a| == |b| && forall i :: 0 <= i < |a| && !(k <= i < k + 16) ==> a[i] == b[i]
  }

  lemma WindowInjective(r: seq<bool>, u: seq<bool>, v: seq<bool>)
    requires |r| == 16 && |u| == |v| <= 16 && Direct(r, u) == Direct(r, v)
    ensures u == v
  {
    DirectShort(r, u);
    DirectShort(r, v);
    var x, y := u + Zeros(16 - |u|), v + Zeros(16 - |v|);
    ShiftNInjective(Xor(r, x), Xor(r, y), |u|);
    forall i | 0 <= i < |u| ensures u[i] == v[i] {
      assert Xor(r, x)[i] == (r[i] != x[i]) && Xor(r, y)[i] == (r[i] != y[i]);
    }
  }

  lemma PartsDetected(r: seq<bool>, p: seq<bool>, u: seq<bool>, v: seq<bool>, s: seq<bool>)
    requires |r| == 16 && |u| == |v| <= 16 && u != v
    ensures Direct(r, p + (u + s)) != Direct(r, p + (v + s))
  {
    DirectAppend(r, p, u + s);
    DirectAppend(r, p, v + s);
    var r' := Direct(r, p);
    DirectAppend(r', u, s);
    DirectAppend(r', v, s);
    if Direct(Direct(r', u), s) == Direct(Direct(r', v), s) {
      DirectInjective(Direct(r', u), Direct(r', v), s);
      WindowInjective(r', u, v);
    }
  }

  /** Two different messages that differ only within sixteen consecutive bits have different registers at the end. */
  lemma BurstDetected(r: seq<bool>, a: seq<bool>, b: seq<bool>, k: nat)
    requires |r| == 16 && DifferWithin(a, b, k) && a != b
    ensures Direct(r, a) != Direct(r, b)
  {
    var lo := if k < |a| then k else |a|;
    var hi := if k + 16 < |a| then k + 16 else |a|;
    var p, u, v, s := a[..lo], a[lo..hi], b[lo..hi], a[hi..];
    assert b[..lo] == p && b[hi..] == s;
    assert a == p + (u + s) && b == p + (v + s);
    PartsDetected(r, p, u, v, s);
  }

  // ----- machine words -----

  /** `r` are the bits of the word `x`, most significant first. */
  ghost predicate WordIs(x: bv16, r: seq<bool>) {
    && |r| == 16
    && r[0] == (x & 0x8000 != 0) && r[1] == (x & 0x4000 != 0) && r[2] == (x & 0x2000 != 0) && r[3] == (x & 0x1000 != 0)
    && r[4] == (x & 0x800 != 0) && r[5] == (x & 0x400 != 0) && r[6] == (x & 0x200 != 0) && r[7] == (x & 0x100 != 0)
    && r[8] == (x & 0x80 != 0) && r[9] == (x & 0x40 != 0) && r[10] == (x & 0x20 != 0) && r[11] == (x & 0x10 != 0)
    && r[12] == (x & 0x8 != 0) && r[13] == (x & 0x4 != 0) && r[14] == (x & 0x2 != 0) && r[15] == (x & 0x1 != 0)
  }

  ghost predicate ByteIs(b: bv8, r: seq<bool>) {
    && |r| == 8
    && r[0] == (b & 0x80 != 0) && r[1] == (b & 0x40 != 0) && r[2] == (b & 0x20 != 0) && r[3] == (b & 0x10 != 0)
    && r[4] == (b & 0x8 != 0) && r[5] == (b & 0x4 != 0) && r[6] == (b & 0x2 != 0) && r[7] == (b & 0x1 != 0)
  }

  /** The bits of a byte, most significant first. */
  function ByteBits(b: bv8): (r: seq<bool>)
    ensures |r| == 8
  {
    [b & 0x80 != 0, b & 0x40 != 0, b & 0x20 != 0, b & 0x10 != 0, b & 0x8 != 0, b & 0x4 != 0, b & 0x2 != 0, b & 0x1 != 0]
  }

  lemma ByteBitsAre(b: bv8)
    ensures ByteIs(b, ByteBits(b))
  {
  }

  function MsgBits(data: seq<bv8>): (r: seq<bool>)
    ensures |r| == 8 * |data|
  {
    if data == [] then [] else ByteBits(data[0]) + MsgBits(data[1..])
  }

  lemma XorMasks(x: bv16, y: bv16)
    ensures ((x ^ y) & 0x8000 != 0) == ((x & 0x8000 != 0) != (y & 0x8000 != 0))
    ensures ((x ^ y) & 0x4000 != 0) == ((x & 0x4000 != 0) != (y & 0x4000 != 0))
    ensures ((x ^ y) & 0x2000 != 0) == ((x & 0x2000 != 0) != (y & 0x2000 != 0))
    ensures ((x ^ y) & 0x1000 != 0) == ((x & 0x1000 != 0) != (y & 0x1000 != 0))
    ensures ((x ^ y) & 0x800 != 0) == ((x & 0x800 != 0) != (y & 0x800 != 0))
    ensures ((x ^ y) & 0x400 != 0) == ((x & 0x400 != 0) != (y & 0x400 != 0))
    ensures ((x ^ y) & 0x200 != 0) == ((x & 0x200 != 0) != (y & 0x200 != 0))
    ensures ((x ^ y) & 0x100 != 0) == ((x & 0x100 != 0) != (y & 0x100 != 0))
    ensures ((x ^ y) & 0x80 != 0) == ((x & 0x80 != 0) != (y & 0x80 != 0))
    ensures ((x ^ y) & 0x40 != 0) == ((x & 0x40 != 0) != (y & 0x40 != 0))
    ensures ((x ^ y) & 0x20 != 0) == ((x & 0x20 != 0) != (y & 0x20 != 0))
    ensures ((x ^ y) & 0x10 != 0) == ((x & 0x10 != 0) != (y & 0x10 != 0))
    ensures ((x ^ y) & 0x8 != 0) == ((x & 0x8 != 0) != (y & 0x8 != 0))
    ensures ((x ^ y) & 0x4 != 0) == ((x & 0x4 != 0) != (y & 0x4 != 0))
    ensures ((x ^ y) & 0x2 != 0) == ((x & 0x2 != 0) != (y & 0x2 != 0))
    ensures ((x ^ y) & 0x1 != 0) == ((x & 0x1 != 0) != (y & 0x1 != 0))
  {
  }

  /** Bit by bit, `z` is `x` plus `y`. */
  lemma SumIs(z: bv16, x: bv16, a: seq<bool>, y: bv16, b: seq<bool>)
    requires WordIs(x, a) && WordIs(y, b)
    requires (z & 0x8000 != 0) == ((x & 0x8000 != 0) != (y & 0x8000 != 0))
    requires (z & 0x4000 != 0) == ((x & 0x4000 != 0) != (y & 0x4000 != 0))
    requires (z & 0x2000 != 0) == ((x & 0x2000 != 0) != (y & 0x2000 != 0))
    requires (z & 0x1000 != 0) == ((x & 0x1000 != 0) != (y & 0x1000 != 0))
    requires (z & 0x800 != 0) == ((x & 0x800 != 0) != (y & 0x800 != 0))
    requires (z & 0x400 != 0) == ((x & 0x400 != 0) != (y & 0x400 != 0))
    requires (z & 0x200 != 0) == ((x & 0x200 != 0) != (y & 0x200 != 0))
    requires (z & 0x100 != 0) == ((x & 0x100 != 0) != (y & 0x100 != 0))
    requires (z & 0x80 != 0) == ((x & 0x80 != 0) != (y & 0x80 != 0))
    requires (z & 0x40 != 0) == ((x & 0x40 != 0) != (y & 0x40 != 0))
    requires (z & 0x20 != 0) == ((x & 0x20 != 0) != (y & 0x20 != 0))
    requires (z & 0x10 != 0) == ((x & 0x10 != 0) != (y & 0x10 != 0))
    requires (z & 0x8 != 0) == ((x & 0x8 != 0) != (y & 0x8 != 0))
    requires (z & 0x4 != 0) == ((x & 0x4 != 0) != (y & 0x4 != 0))
    requires (z & 0x2 != 0) == ((x & 0x2 != 0) != (y & 0x2 != 0))
    requires (z & 0x1 != 0) == ((x & 0x1 != 0) != (y & 0x1 != 0))
    ensures WordIs(z, Xor(a, b))
  {
  }

  lemma XorIs(x: bv16, a: seq<bool>, y: bv16, b: seq<bool>)
    requires WordIs(x, a) && WordIs(y, b)
    ensures WordIs(x ^ y, Xor(a, b))
  {
    XorMasks(x, y);
    SumIs(x ^ y, x, a, y, b);
  }

  lemma ShlMasks(x: bv16)
    ensures ((x << 1) & 0x8000 != 0) == (x & 0x4000 != 0)
    ensures ((x << 1) & 0x4000 != 0) == (x & 0x2000 != 0)
    ensures ((x << 1) & 0x2000 != 0) == (x & 0x1000 != 0)
    ensures ((x << 1) & 0x1000 != 0) == (x & 0x800 != 0)
    ensures ((x << 1) & 0x800 != 0) == (x & 0x400 != 0)
    ensures ((x << 1) & 0x400 != 0) == (x & 0x200 != 0)
    ensures ((x << 1) & 0x200 != 0) == (x & 0x100 != 0)
    ensures ((x << 1) & 0x100 != 0) == (x & 0x80 != 0)
    ensures ((x << 1) & 0x80 != 0) == (x & 0x40 != 0)
    ensures ((x << 1) & 0x40 != 0) == (x & 0x20 != 0)
    ensures ((x << 1) & 0x20 != 0) == (x & 0x10 != 0)
    ensures ((x << 1) & 0x10 != 0) == (x & 0x8 != 0)
    ensures ((x << 1) & 0x8 != 0) == (x & 0x4 != 0)
    ensures ((x << 1) & 0x4 != 0) == (x & 0x2 != 0)
    ensures ((x << 1) & 0x2 != 0) == (x & 0x1 != 0)
    ensures (x << 1) & 1 == 0
  {
  }

  lemma ShlIs(x: bv16, a: seq<bool>)
    requires WordIs(x, a)
    ensures WordIs(x << 1, a[1..] + [false])
  {
    ShlMasks(x);
  }

  lemma GenIs()
    ensures WordIs(0x1021, GEN)
  {
  }

  lemma SameEight(a: seq<bool>, b: seq<bool>)
    requires |a| == |b| == 8 && a[0] == b[0] && a[1] == b[1] && a[2] == b[2] && a[3] == b[3]
    requires a[4] == b[4] && a[5] == b[5] && a[6] == b[6] && a[7] == b[7]
    ensures a == b
  {
  }

  /** A word has only one sequence of bits. */
  lemma SameBits(x: bv16, a: seq<bool>, b: seq<bool>)
    requires WordIs(x, a) && WordIs(x, b)
    ensures a == b
  {
    SameEight(a[..8], b[..8]);
    SameEight(a[8..], b[8..]);
    assert a == a[..8] + a[8..] && b == b[..8] + b[8..];
  }

  function WordShift(x: bv16): bv16 { if x & 0x8000 != 0 then (x << 1) ^ 0x1021 else x << 1 }

  lemma WordShiftIs(x: bv16, a: seq<bool>)
    requires WordIs(x, a)
    ensures WordIs(WordShift(x), Shift(a))
  {
    ShlIs(x, a);
    var r := a[1..] + [false];
    if a[0] {
      GenIs();
      XorIs(x << 1, r, 0x1021, GEN);
    } else {
      assert Xor(r, Zeros(16)) == r;
    }
  }

  // ----- the table does eight steps at once -----

  function WordShift8(x: bv16): bv16 {
    WordShift(WordShift(WordShift(WordShift(WordShift(WordShift(WordShift(WordShift(x))))))))
  }

  lemma WordShift8Is(x: bv16, a: seq<bool>)
    requires WordIs(x, a)
    ensures WordIs(WordShift8(x), ShiftN(a, 8))
  {
    var x1 := WordShift(x); var a1 := Shift(a); WordShiftIs(x, a);
    var x2 := WordShift(x1); var a2 := Shift(a1); WordShiftIs(x1, a1);
    var x3 := WordShift(x2); var a3 := Shift(a2); WordShiftIs(x2, a2);
    var x4 := WordShift(x3); var a4 := Shift(a3); WordShiftIs(x3, a3);
    var x5 := WordShift(x4); var a5 := Shift(a4); WordShiftIs(x4, a4);
    var x6 := WordShift(x5); var a6 := Shift(a5); WordShiftIs(x5, a5);
    var x7 := WordShift(x6); var a7 := Shift(a6); WordShiftIs(x6, a6);
    WordShiftIs(x7, a7);
    assert ShiftN(a, 8) == ShiftN(a2, 6) && ShiftN(a2, 6) == ShiftN(a4, 4) && ShiftN(a4, 4) == ShiftN(a6, 2);
  }

  function Up(b: bv8): bv16 { (b as bv16) << 8 }

  /** An entry of the table is its index, shifted eight times. */
  lemma TableIsEightShifts(i: bv8)
    ensures Table(i) == WordShift8(Up(i))
  {
  }

  lemma LowByteMoves(x: bv16)
    requires x & 0xff00 == 0
    ensures WordShift8(x) == x << 8
  {
  }

  lemma ShiftLinear(a: seq<bool>, b: seq<bool>)
    requires |a| == |b| == 16
    ensures Shift(Xor(a, b)) == Xor(Shift(a), Shift(b))
  {
    var x, y := Shift(Xor(a, b)), Xor(Shift(a), Shift(b));
    forall i | 0 <= i < 16 ensures x[i] == y[i] {
      assert x[i] == ((i < 15 && (a[i + 1] != b[i + 1])) != ((a[0] != b[0]) && GEN[i]));
    }
  }

  lemma {:induction false} ShiftNLinear(a: seq<bool>, b: seq<bool>, n: nat)
    requires |a| == |b| == 16
    ensures ShiftN(Xor(a, b), n) == Xor(ShiftN(a, n), ShiftN(b, n))
    decreases n
  {
    if n > 0 {
      ShiftLinear(a, b);
      ShiftNLinear(Shift(a), Shift(b), n - 1);
    }
  }

  lemma UpMasks(b: bv8)
    ensures (Up(b) & 0x8000 != 0) == (b & 0x80 != 0)
    ensures (Up(b) & 0x4000 != 0) == (b & 0x40 != 0)
    ensures (Up(b) & 0x2000 != 0) == (b & 0x20 != 0)
    ensures (Up(b) & 0x1000 != 0) == (b & 0x10 != 0)
    ensures (Up(b) & 0x800 != 0) == (b & 0x8 != 0)
    ensures (Up(b) & 0x400 != 0) == (b & 0x4 != 0)
    ensures (Up(b) & 0x200 != 0) == (b & 0x2 != 0)
    ensures (Up(b) & 0x100 != 0) == (b & 0x1 != 0)
    ensures Up(b) & 0xff == 0
  {
  }

  lemma LowZero(x: bv16)
    requires x & 0xff == 0
    ensures x & 0x80 == 0
    ensures x & 0x40 == 0
    ensures x & 0x20 == 0
    ensures x & 0x10 == 0
    ensures x & 0x8 == 0
    ensures x & 0x4 == 0
    ensures x & 0x2 == 0
    ensures x & 0x1 == 0
  {
  }

  lemma UpIs(b: bv8)
    ensures WordIs(Up(b), ByteBits(b) + Zeros(8))
  {
    UpMasks(b);
    LowZero(Up(b));
    ByteBitsAre(b);
  }

  /** The index the loop looks up. */
  function Index(crc: bv16, b: bv8): bv8 { (((crc >> 8) ^ (b as bv16)) & 0xff) as bv8 }

  lemma IndexSplits(crc: bv16, b: bv8)
    ensures crc ^ Up(b) == Up(Index(crc, b)) ^ (crc & 0xff)
    ensures (crc & 0xff) & 0xff00 == 0 && (crc & 0xff) << 8 == crc << 8
  {
  }

  lemma XorCommutes(a: seq<bool>, b: seq<bool>)
    requires |a| == |b|
    ensures Xor(a, b) == Xor(b, a)
  {
  }

  lemma StepsFromParts(r: seq<bool>, b: seq<bool>, u: seq<bool>, l: seq<bool>)
    requires |r| == |u| == |l| == 16 && |b| == 8 && Xor(r, b + Zeros(8)) == Xor(u, l)
    ensures Direct(r, b) == Xor(ShiftN(l, 8), ShiftN(u, 8))
  {
    DirectShort(r, b);
    ShiftNLinear(u, l, 8);
    XorCommutes(ShiftN(u, 8), ShiftN(l, 8));
  }

  lemma TableIs(i: bv8, u: seq<bool>)
    requires WordIs(Up(i), u)
    ensures WordIs(Table(i), ShiftN(u, 8))
  {
    TableIsEightShifts(i);
    WordShift8Is(Up(i), u);
  }

  lemma LowMasks(x: bv16)
    ensures (x & 0xff) & 0x8000 == 0
    ensures (x & 0xff) & 0x4000 == 0
    ensures (x & 0xff) & 0x2000 == 0
    ensures (x & 0xff) & 0x1000 == 0
    ensures (x & 0xff) & 0x800 == 0
    ensures (x & 0xff) & 0x400 == 0
    ensures (x & 0xff) & 0x200 == 0
    ensures (x & 0xff) & 0x100 == 0
    ensures ((x & 0xff) & 0x80 != 0) == (x & 0x80 != 0)
    ensures ((x & 0xff) & 0x40 != 0) == (x & 0x40 != 0)
    ensures ((x & 0xff) & 0x20 != 0) == (x & 0x20 != 0)
    ensures ((x & 0xff) & 0x10 != 0) == (x & 0x10 != 0)
    ensures ((x & 0xff) & 0x8 != 0) == (x & 0x8 != 0)
    ensures ((x & 0xff) & 0x4 != 0) == (x & 0x4 != 0)
    ensures ((x & 0xff) & 0x2 != 0) == (x & 0x2 != 0)
    ensures ((x & 0xff) & 0x1 != 0) == (x & 0x1 != 0)
  {
  }

  lemma LowIs(crc: bv16, r: seq<bool>)
    requires WordIs(crc, r)
    ensures WordIs(crc & 0xff, Zeros(8) + r[8..])
  {
    LowMasks(crc);
  }

  lemma UpperIs(low: bv16, up: bv16, l: seq<bool>)
    requires WordIs(low, l) && low & 0xff00 == 0 && low << 8 == up
    ensures WordIs(up, ShiftN(l, 8))
  {
    LowByteMoves(low);
    WordShift8Is(low, l);
  }

  /** Register plus message byte is looked-up byte plus low byte. */
  lemma PartsAgree(crc: bv16, r: seq<bool>, ub: bv16, bb: seq<bool>, ui: bv16, u: seq<bool>, low: bv16, l: seq<bool>)
    requires WordIs(crc, r) && WordIs(ub, bb) && WordIs(ui, u) && WordIs(low, l) && crc ^ ub == ui ^ low
    ensures Xor(r, bb) == Xor(u, l)
  {
    XorIs(crc, r, ub, bb);
    XorIs(ui, u, low, l);
    SameBits(crc ^ ub, Xor(r, bb), Xor(u, l));
  }

  /** The looked-up entry and the register's low byte, moved up, make the register after eight bit steps. */
  lemma TurnIs(crc: bv16, b: bv8, r: seq<bool>, i: bv8, up: bv16, entry: bv16, u: seq<bool>, l: seq<bool>)
    requires WordIs(crc, r) && i == Index(crc, b) && u == ByteBits(i) + Zeros(8) && l == Zeros(8) + r[8..]
    requires WordIs(up, ShiftN(l, 8)) && WordIs(entry, ShiftN(u, 8)) && WordIs(crc & 0xff, l)
    ensures WordIs(up ^ entry, Direct(r, ByteBits(b)))
  {
    UpIs(b);
    UpIs(i);
    IndexSplits(crc, b);
    PartsAgree(crc, r, Up(b), ByteBits(b) + Zeros(8), Up(i), u, crc & 0xff, l);
    StepsFromParts(r, ByteBits(b), u, l);
    XorIs(up, ShiftN(l, 8), entry, ShiftN(u, 8));
  }

  /** One turn of the loop of `cpdlc_crc16` is eight bit steps. */
  method TableTurn(crc: bv16, b: bv8, ghost r: seq<bool>) returns (next: bv16, ghost r': seq<bool>)
    requires WordIs(crc, r)
    ensures |r'| == 16 && r' == Direct(r, ByteBits(b)) && WordIs(next, r')
  {
    var i := Index(crc, b);
    ghost var u, l := ByteBits(i) + Zeros(8), Zeros(8) + r[8..];
    var up, entry := crc << 8, Table(i);
    UpIs(i);
    TableIs(i, u);
    LowIs(crc, r);
    IndexSplits(crc, b);
    UpperIs(crc & 0xff, up, l);
    TurnIs(crc, b, r, i, up, entry, u, l);
    next, r' := up ^ entry, Direct(r, ByteBits(b));
  }

  // ----- the checksum -----

  const ONES: seq<bool> := [true, true, true, true, true, true, true, true,
                            true, true, true, true, true, true, true, true]

  lemma OnesIs()
    ensures WordIs(0xffff, ONES)
  {
  }

  lemma InvertTwice(x: bv16)
    ensures (x ^ 0xffff) ^ 0xffff == x
  {
  }

  /** `crc` is the checksum of `data`: inverted, it is the remainder that the message, shifted up by sixteen bits
      and with its first sixteen bits inverted, leaves on division by the generator. */
  ghost predicate IsChecksum(crc: bv16, data: seq<bv8>) {
    WordIs(crc ^ 0xffff, Remainder(Preset(MsgBits(data) + Zeros(16), ONES)))
  }

  lemma BitwiseEqual(x: bv8, y: bv8)
    requires (x & 0x80 != 0) == (y & 0x80 != 0) && (x & 0x40 != 0) == (y & 0x40 != 0)
    requires (x & 0x20 != 0) == (y & 0x20 != 0) && (x & 0x10 != 0) == (y & 0x10 != 0)
    requires (x & 8 != 0) == (y & 8 != 0) && (x & 4 != 0) == (y & 4 != 0)
    requires (x & 2 != 0) == (y & 2 != 0) && (x & 1 != 0) == (y & 1 != 0)
    ensures x == y
  {
  }

  lemma ByteBitsInjective(x: bv8, y: bv8, r: seq<bool>)
    requires ByteIs(x, r) && ByteIs(y, r)
    ensures x == y
  {
    BitwiseEqual(x, y);
  }

  lemma {:induction false} MsgBitsInjective(a: seq<bv8>, b: seq<bv8>)
    requires |a| == |b| && MsgBits(a) == MsgBits(b)
    ensures a == b
    decreases |a|
  {
    if a != [] {
      assert MsgBits(a)[..8] == ByteBits(a[0]) && MsgBits(b)[..8] == ByteBits(b[0]);
      assert MsgBits(a)[8..] == MsgBits(a[1..]) && MsgBits(b)[8..] == MsgBits(b[1..]);
      ByteBitsAre(a[0]);
      ByteBitsAre(b[0]);
      ByteBitsInjective(a[0], b[0], ByteBits(a[0]));
      MsgBitsInjective(a[1..], b[1..]);
    }
  }

  lemma RemaindersDiffer(a: seq<bv8>, b: seq<bv8>, k: nat)
    requires |a| == |b| && a != b && DifferWithin(MsgBits(a), MsgBits(b), k)
    ensures Remainder(Preset(MsgBits(a) + Zeros(16), ONES)) != Remainder(Preset(MsgBits(b) + Zeros(16), ONES))
  {
    if MsgBits(a) == MsgBits(b) { MsgBitsInjective(a, b); }
    BurstDetected(ONES, MsgBits(a), MsgBits(b), k);
    DirectIsRemainder(MsgBits(a), ONES);
    DirectIsRemainder(MsgBits(b), ONES);
  }

  /** Two different messages of one length whose bits differ only within sixteen consecutive places have different
      checksums. */
  lemma ChecksumDetectsBurst(a: seq<bv8>, b: seq<bv8>, k: nat, x: bv16, y: bv16)
    requires |a| == |b| && a != b && DifferWithin(MsgBits(a), MsgBits(b), k) && IsChecksum(x, a) && IsChecksum(y, b)
    ensures x != y
  {
    RemaindersDiffer(a, b, k);
    if x == y {
      SameBits(x ^ 0xffff, Remainder(Preset(MsgBits(a) + Zeros(16), ONES)),
               Remainder(Preset(MsgBits(b) + Zeros(16), ONES)));
    }
  }

  lemma {:induction false} MsgBitsSnoc(data: seq<bv8>, b: bv8)
    ensures MsgBits(data + [b]) == MsgBits(data) + ByteBits(b)
  {
    if data == [] {
      assert data + [b] == [b] && [b][1..] == [];
    } else {
      assert (data + [b])[1..] == data[1..] + [b];
      MsgBitsSnoc(data[1..], b);
    }
  }

  lemma OneByteMore(reg: seq<bool>, data: seq<bv8>, i: nat, r: seq<bool>, r': seq<bool>)
    requires |reg| == 16 == |r| && i < |data| && r == Direct(reg, MsgBits(data[..i]))
             && r' == Direct(r, ByteBits(data[i]))
    ensures r' == Direct(reg, MsgBits(data[..i + 1]))
  {
    var p, b := data[..i], data[i];
    assert data[..i + 1] == p + [b];
    MsgBitsSnoc(p, b);
    DirectAppend(reg, MsgBits(p), ByteBits(b));
  }

  /** The loop of `cpdlc_crc16`. */
  method TableLoop(start: bv16, data: seq<bv8>, ghost reg: seq<bool>) returns (crc: bv16)
    requires WordIs(start, reg)
    ensures WordIs(crc, Direct(reg, MsgBits(data)))
  {
    crc := start;
    ghost var r := reg;
    var i := 0;
    while i < |data|
      invariant 0 <= i <= |data| && WordIs(crc, r) && r == Direct(reg, MsgBits(data[..i]))
    {
      ghost var r';
      crc, r' := TableTurn(crc, data[i], r);
      OneByteMore(reg, data, i, r, r');
      r := r';
      i := i + 1;
    }
    assert data[..i] == data;
  }

  /** `cpdlc_crc16` */
  method Crc16(data: seq<bv8>) returns (crc: bv16)
    ensures IsChecksum(crc, data)
  {
    OnesIs();
    crc := TableLoop(0xffff, data, ONES);
    DirectIsRemainder(MsgBits(data), ONES);
    InvertTwice(crc);
    crc := crc ^ 0xffff;
  }
}
