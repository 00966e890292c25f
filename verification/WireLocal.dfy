/**
 What the decoder sees behind the end of a line. Number conversions skip white space, line ends included, so a line can
 read on into the next one; it does not if the text there does not go on with a number.
 */
module WireLocal {
  import opened Text
  import opened Codec

  /** As a Mach number the text is refused, like a blank one. */
  predicate Refused(s: string) { Thousandths(s).Good? && Thousandths(s).value < 100 }

  /** The text gives no integer, and no Mach number that would be accepted. */
  predicate Calm(s: string) { ScanNum(s) == NoNum && Refused(s) }

  // ----- a test on the text behind white space; proofs about readers do not look into the test -----

  type Test = string -> bool

  /** From `k` on, behind white space, the text passes the test, or there is none. */
  predicate Still(q: Test, s: string, k: nat)
    decreases |s| - k
  {
    if k >= |s| then true else if IsSpace(s[k]) then Still(q, s, k + 1) else q(s[k..])
  }

  function CalmTest(): Test { (r: string) => Calm(r) }

  /** From `k` on, behind white space, the text does not go on with a number. */
  predicate Quiet(s: string, k: nat) { Still(CalmTest(), s, k) }

  /** Mentioned where the meaning of a test is wanted. */
  predicate Asked(s: string) { true }

  /** The test accepts only calm texts. */
  ghost predicate Hushes(q: Test) {
    forall r: string {:trigger Asked(r)} :: Asked(r) && q(r) ==> Calm(r)
  }

  lemma {:induction false} StillTail(q: Test, s: string, k: nat, i: nat)
    requires k <= |s|
    ensures Still(q, s[k..], i) == Still(q, s, k + i)
    decreases |s| - i
  {
    if k + i < |s| {
      assert s[k..][i..] == s[k + i..];
      StillTail(q, s, k, i + 1);
    }
  }

  lemma {:induction false} StillIsQuiet(q: Test, s: string, k: nat)
    requires Hushes(q) && Still(q, s, k)
    ensures Quiet(s, k)
    decreases |s| - k
  {
    if k < |s| {
      if IsSpace(s[k]) { StillIsQuiet(q, s, k + 1); } else { assert Asked(s[k..]); }
    }
  }

  lemma StillScans(q: Test, s: string)
    requires Hushes(q) && Still(q, s, 0)
    ensures ScanNum(s) == NoNum && Refused(s)
  {
    StillIsQuiet(q, s, 0);
    QuietScans(s);
  }

  /** Two buffers that share the line ending at `n`, and are quiet behind it. */
  ghost predicate Twins(q: Test, s: string, s2: string, n: nat) {
    && Hushes(q) && n < |s| && n < |s2| && s[n] == '\n' && (forall i :: 0 <= i < n ==> s[i] != '\n')
    && (forall i :: 0 <= i <= n ==> s[i] == s2[i])
    && Still(q, s, n + 1) && Still(q, s2, n + 1)
  }

  lemma QuietTail(s: string, k: nat, i: nat)
    requires k <= |s|
    ensures Quiet(s[k..], i) == Quiet(s, k + i)
  {
    StillTail(CalmTest(), s, k, i);
  }

  lemma TwinsTail(q: Test, s: string, s2: string, n: nat, k: nat)
    requires Twins(q, s, s2, n) && k <= n
    ensures Twins(q, s[k..], s2[k..], n - k)
  {
    StillTail(q, s, k, n - k + 1);
    StillTail(q, s2, k, n - k + 1);
  }

  lemma TwinsPrefix(q: Test, s: string, s2: string, n: nat, k: nat)
    requires Twins(q, s, s2, n) && k <= n + 1
    ensures s[..k] == s2[..k]
  {
  }

  // ----- numbers -----

  lemma SpaceScans(s: string)
    requires s != "" && IsSpace(s[0])
    ensures ScanNum(s) == ScanNum(s[1..]) && Thousandths(s) == Thousandths(s[1..])
  {
    assert s[1..][SpaceLen(s[1..])..] == s[SpaceLen(s)..];
  }

  /** Quiet means just that: the text gives no number. */
  lemma {:induction false} QuietScans(s: string)
    ensures Quiet(s, 0) <==> Calm(s)
  {
    if s != "" && IsSpace(s[0]) {
      QuietTail(s, 1, 0);
      QuietScans(s[1..]);
      SpaceScans(s);
    } else {
      assert s[0..] == s;
    }
  }

  // ----- a quiet text stays quiet when it is cut -----

  function Unsigned(s: string): string { if s != "" && IsSign(s[0]) then s[1..] else s }

  /** A text that does not start with white space, taken apart. */
  lemma CalmIff(s: string)
    requires s != "" && !IsSpace(s[0])
    ensures ScanNum(s) == NoNum <==> DigitsLen(Unsigned(s)) == 0
    ensures Thousandths(s) == if s[0] == '-' then Negated(Decimal(Unsigned(s))) else Decimal(Unsigned(s))
  {
    assert s[SpaceLen(s)..] == s;
  }

  lemma MorePlaces(frac: string, k: nat)
    requires k < |frac| && k < 3 && forall i :: 0 <= i <= k ==> IsDigit(frac[i])
    ensures Value(frac[..k]) * PlaceValue(k) <= Value(frac[..k + 1]) * PlaceValue(k + 1)
  {
    var p := frac[..k + 1];
    assert p[..|p| - 1] == frac[..k];
  }

  lemma {:induction false} FractionGrows(frac: string, j: nat, f: nat)
    requires j <= f <= 3 && f <= |frac| && forall i :: 0 <= i < f ==> IsDigit(frac[i])
    ensures Value(frac[..j]) * PlaceValue(j) <= Value(frac[..f]) * PlaceValue(f)
    decreases f - j
  {
    if j < f {
      MorePlaces(frac, j);
      FractionGrows(frac, j + 1, f);
    }
  }

  /** A fraction of at most three places. */
  predicate Places(frac: string, f: nat) {
    0 < f <= 3 && f == DigitsLen(frac) && (f < |frac| ==> !IsAlnum(frac[f]))
  }

  lemma PointDecimal(s: string, frac: string, f: nat)
    requires s != "" && s[0] == '.' && frac == s[1..] && f == DigitsLen(frac)
    ensures f == 0 ==> Decimal(s) == Good(0)
    ensures f > 0 ==> Decimal(s) == if Places(frac, f) then Good(Value(frac[..f]) * PlaceValue(f)) else Undef
  {
    assert s[..0] == "";
    assert f < |frac| ==> frac[f..][0] == frac[f];
  }

  lemma {:induction false} DigitsCut(s: string, j: nat)
    requires j <= |s|
    ensures DigitsLen(s[..j]) == if DigitsLen(s) < j then DigitsLen(s) else j
  {
    if j > 0 && IsDigit(s[0]) {
      assert s[..j][1..] == s[1..][..j - 1];
      DigitsCut(s[1..], j - 1);
    }
  }

  lemma PlacesCut(frac: string, f: nat, j: nat)
    requires Places(frac, f) && 0 < j <= |frac|
    ensures var g := if f < j then f else j;
            Places(frac[..j], g) && frac[..j][..g] == frac[..g]
                && Value(frac[..g]) * PlaceValue(g) <= Value(frac[..f]) * PlaceValue(f)
  {
    DigitsCut(frac, j);
    FractionGrows(frac, if f < j then f else j, f);
  }

  lemma PointCut(s: string, p: string, frac: string, j: nat)
    requires s != "" && s[0] == '.' && frac == s[1..] && j <= |frac| && p == s[..j + 1] && Decimal(s).Good?
    ensures Decimal(p).Good? && Decimal(p).value <= Decimal(s).value
  {
    var f, q := DigitsLen(frac), frac[..j];
    assert p[0] == '.' && p[1..] == q;
    PointDecimal(s, frac, f);
    PointDecimal(p, q, DigitsLen(q));
    DigitsCut(frac, j);
    if f > 0 && j > 0 { PlacesCut(frac, f, j); }
  }

  /** A fraction below one loses at most places. */
  lemma DecimalCut(s: string, j: nat)
    requires DigitsLen(s) == 0 && Decimal(s).Good? && j <= |s|
    ensures DigitsLen(s[..j]) == 0 && Decimal(s[..j]).Good? && Decimal(s[..j]).value <= Decimal(s).value
  {
    DigitsCut(s, j);
    if j > 0 && s[0] == '.' {
      PointCut(s, s[..j], s[1..], j - 1);
    } else {
      PlainCut(s, s[..j], j);
    }
  }

  lemma PlainCut(s: string, p: string, j: nat)
    requires DigitsLen(s) == 0 && Decimal(s).Good? && j <= |s| && p == s[..j] && DigitsLen(p) == 0
             && (j == 0 || s[0] != '.')
    ensures Decimal(p) == Good(0)
  {
    PlainDecimal(p);
    if j > 0 { PlainDecimal(s); }
  }

  lemma PlainDecimal(s: string)
    requires DigitsLen(s) == 0 && (s == "" || s[0] != '.')
    ensures Decimal(s) == if InfOrNan(s) then Undef else Good(0)
  {
  }

  lemma CalmCut(s: string, j: nat)
    requires s != "" && !IsSpace(s[0]) && Calm(s) && 0 < j <= |s|
    ensures Calm(s[..j])
  {
    var p := s[..j];
    CalmIff(s);
    CalmIff(p);
    var i := if IsSign(s[0]) then j - 1 else j;
    assert Unsigned(p) == Unsigned(s)[..i];
    DecimalCut(Unsigned(s), i);
  }

  /** The test still passes when the text is cut. */
  ghost predicate Closed(q: Test) {
    forall s: string, j: nat :: s != "" && !IsSpace(s[0]) && q(s) && 0 < j <= |s| ==> q(s[..j])
  }

  lemma CalmIsClosed()
    ensures Closed(CalmTest())
  {
    forall s: string, j: nat | s != "" && !IsSpace(s[0]) && CalmTest()(s) && 0 < j <= |s| ensures CalmTest()(s[..j]) {
      CalmCut(s, j);
    }
  }

  lemma {:induction false} StillPrefix(q: Test, s: string, k: nat, j: nat)
    requires Closed(q) && Still(q, s, k) && j <= |s|
    ensures Still(q, s[..j], k)
    decreases |s| - k
  {
    if k < j {
      if IsSpace(s[k]) {
        StillPrefix(q, s, k + 1, j);
      } else {
        assert s[..j][k..] == s[k..][..j - k];
      }
    }
  }

  lemma QuietPrefix(s: string, k: nat, j: nat)
    requires Quiet(s, k) && j <= |s|
    ensures Quiet(s[..j], k)
  {
    CalmIsClosed();
    StillPrefix(CalmTest(), s, k, j);
  }

  /** Either the same white space comes before something within the line, or both buffers are quiet. */
  lemma {:induction false} SpaceTwins(q: Test, s: string, s2: string, n: nat)
    requires Twins(q, s, s2, n)
    ensures SpaceLen(s) == SpaceLen(s2) <= n || (Still(q, s, 0) && Still(q, s2, 0))
    decreases n
  {
    if IsSpace(s[0]) && n > 0 {
      TwinsTail(q, s, s2, n, 1);
      SpaceTwins(q, s[1..], s2[1..], n - 1);
      StillTail(q, s, 1, 0);
      StillTail(q, s2, 1, 0);
    }
  }

  lemma {:induction false} DigitsTwins(q: Test, s: string, s2: string, n: nat)
    requires Twins(q, s, s2, n)
    ensures DigitsLen(s) == DigitsLen(s2) <= n
    decreases n
  {
    if n > 0 {
      TwinsTail(q, s, s2, n, 1);
      DigitsTwins(q, s[1..], s2[1..], n - 1);
    }
  }

  lemma MagnitudeTwins(q: Test, neg: bool, s: string, s2: string, n: nat)
    requires Twins(q, s, s2, n)
    ensures Magnitude(neg, s) == Magnitude(neg, s2)
  {
    RunTwins(q, s, s2, n);
  }

  lemma ScanTwins(q: Test, s: string, s2: string, n: nat)
    requires Twins(q, s, s2, n)
    ensures ScanNum(s) == ScanNum(s2)
  {
    SpaceTwins(q, s, s2, n);
    if Still(q, s, 0) && Still(q, s2, 0) {
      StillScans(q, s);
      StillScans(q, s2);
    } else {
      var k := SpaceLen(s);
      TwinsTail(q, s, s2, n, k);
      var a, a2 := s[k..], s2[k..];
      if IsSign(a[0]) {
        TwinsTail(q, a, a2, n - k, 1);
        MagnitudeTwins(q, a[0] == '-', a[1..], a2[1..], n - k - 1);
      } else {
        MagnitudeTwins(q, false, a, a2, n - k);
      }
    }
  }

  // ----- arguments: `e` is the end of the segment, at or before the end of the line -----

  lemma ArgEndTwins(q: Test, s: string, s2: string, n: nat, e: nat)
    requires Twins(q, s, s2, n) && e <= n
    ensures ArgEnd(s, e) == ArgEnd(s2, e)
  {
  }

  lemma {:induction false} SpaceRunTwins(q: Test, s: string, s2: string, n: nat, e: nat)
    requires Twins(q, s, s2, n) && e <= n
    ensures SpaceRun(s, e) == SpaceRun(s2, e)
    decreases e
  {
    if e > 0 {
      TwinsTail(q, s, s2, n, 1);
      SpaceRunTwins(q, s[1..], s2[1..], n - 1, e - 1);
    }
  }

  lemma StartsAt(s: string, p: string, n: nat)
    ensures StartsWith(s, p) && n < |p| ==> n < |s| && s[n] == p[n]
  {
    if StartsWith(s, p) && n < |p| { assert s[..|p|][n] == s[n]; }
  }

  /** A word without line ends starts both buffers or neither. */
  lemma StartsTwins(q: Test, s: string, s2: string, n: nat, p: string)
    requires Twins(q, s, s2, n) && '\n' !in p
    ensures StartsWith(s, p) == StartsWith(s2, p)
  {
    if |p| <= n {
      TwinsPrefix(q, s, s2, n, |p|);
    } else {
      assert p[n] != '\n';
      StartsAt(s, p, n);
      StartsAt(s2, p, n);
    }
  }

  lemma FindTwins(q: Test, s: string, s2: string, n: nat, c: char, e: nat)
    requires Twins(q, s, s2, n) && e <= n
    ensures if Find(s, c) < e then Find(s2, c) == Find(s, c) else Find(s2, c) >= e
  {
  }

  lemma AltSame(s: string, s2: string, e: nat)
    requires AtArg(s, e) && AtArg(s2, e) && ArgEnd(s, e) == ArgEnd(s2, e) && s[..e] == s2[..e]
             && ScanNum(s) == ScanNum(s2)
    requires 2 < e ==> ScanNum(s[2..]) == ScanNum(s2[2..])
    ensures ParseAlt(s, e) == ParseAlt(s2, e)
  {
    var a := ArgEnd(s, e) - 1;
    assert s[a] == s[..e][a] && s2[a] == s2[..e][a] && s[0] == s[..e][0] && s2[0] == s2[..e][0];
    if 2 < e { assert s[1] == s[..e][1] && s2[1] == s2[..e][1]; }
  }

  lemma AltTwins(q: Test, s: string, s2: string, n: nat, e: nat)
    requires Twins(q, s, s2, n) && e <= n && AtArg(s, e)
    ensures AtArg(s2, e) && ParseAlt(s, e) == ParseAlt(s2, e)
  {
    ArgEndTwins(q, s, s2, n, e);
    TwinsPrefix(q, s, s2, n, e);
    ScanTwins(q, s, s2, n);
    if 2 < e {
      TwinsTail(q, s, s2, n, 2);
      ScanTwins(q, s[2..], s2[2..], n - 2);
    }
    AltSame(s, s2, e);
  }

  lemma DecimalSame(s: string, s2: string, i: nat, f: nat)
    requires i < |s| && i < |s2| && DigitsLen(s) == i == DigitsLen(s2) && s[..i] == s2[..i] && s[i] == s2[i]
    requires s[i] == '.' ==>
               var u, u2 := s[i + 1..], s2[i + 1..];
               f < |u| && f < |u2| && DigitsLen(u) == f == DigitsLen(u2) && u[..f] == u2[..f] && u[f] == u2[f]
    requires InfOrNan(s) == InfOrNan(s2)
    ensures Decimal(s) == Decimal(s2)
  {
  }

  lemma InfTwins(q: Test, s: string, s2: string, n: nat)
    requires Twins(q, s, s2, n)
    ensures InfOrNan(s) == InfOrNan(s2)
  {
    if n >= 2 { assert s[0] == s2[0] && s[1] == s2[1] && s[2] == s2[2]; }
  }

  /** The digits at the start, and the character behind them. */
  lemma RunTwins(q: Test, s: string, s2: string, n: nat)
    requires Twins(q, s, s2, n)
    ensures var d := DigitsLen(s); d == DigitsLen(s2) <= n && s[..d] == s2[..d] && s[d] == s2[d]
  {
    DigitsTwins(q, s, s2, n);
    TwinsPrefix(q, s, s2, n, DigitsLen(s));
  }

  lemma FractionTwins(q: Test, s: string, s2: string, n: nat, i: nat)
    requires Twins(q, s, s2, n) && i < n
    ensures var u, u2 := s[i + 1..], s2[i + 1..];
            var f := DigitsLen(u);
            f < |u| && f < |u2| && f == DigitsLen(u2) && u[..f] == u2[..f] && u[f] == u2[f]
  {
    TwinsTail(q, s, s2, n, i + 1);
    RunTwins(q, s[i + 1..], s2[i + 1..], n - i - 1);
  }

  lemma DecimalTwins(q: Test, s: string, s2: string, n: nat)
    requires Twins(q, s, s2, n)
    ensures Decimal(s) == Decimal(s2)
  {
    RunTwins(q, s, s2, n);
    InfTwins(q, s, s2, n);
    var i := DigitsLen(s);
    if s[i] == '.' {
      FractionTwins(q, s, s2, n, i);
      DecimalSame(s, s2, i, DigitsLen(s[i + 1..]));
    } else {
      DecimalSame(s, s2, i, 0);
    }
  }

  /** The same Mach number, or none that would be accepted. */
  ghost predicate SameMach(s: string, s2: string) { Thousandths(s) == Thousandths(s2) || (Refused(s) && Refused(s2)) }

  lemma MachSame(s: string, s2: string, k: nat, a: string, a2: string)
    requires k == SpaceLen(s) == SpaceLen(s2) && a == s[k..] && a2 == s2[k..] && a != "" && a2 != "" && a[0] == a2[0]
    requires Decimal(Unsigned(a)) == Decimal(Unsigned(a2))
    ensures Thousandths(s) == Thousandths(s2)
  {
  }

  lemma UnsignedTwins(q: Test, a: string, a2: string, n: nat)
    requires Twins(q, a, a2, n)
    ensures Decimal(Unsigned(a)) == Decimal(Unsigned(a2))
  {
    if IsSign(a[0]) {
      TwinsTail(q, a, a2, n, 1);
      DecimalTwins(q, a[1..], a2[1..], n - 1);
    } else {
      DecimalTwins(q, a, a2, n);
    }
  }

  lemma MachTwins(q: Test, s: string, s2: string, n: nat)
    requires Twins(q, s, s2, n)
    ensures SameMach(s, s2)
  {
    SpaceTwins(q, s, s2, n);
    if Still(q, s, 0) && Still(q, s2, 0) {
      StillScans(q, s);
      StillScans(q, s2);
    } else {
      var k := SpaceLen(s);
      TwinsTail(q, s, s2, n, k);
      UnsignedTwins(q, s[k..], s2[k..], n - k);
      MachSame(s, s2, k, s[k..], s2[k..]);
    }
  }

  lemma SpdSame(s: string, s2: string, e: nat)
    requires AtArg(s, e) && AtArg(s2, e) && s[0] == s2[0] && ScanNum(s) == ScanNum(s2)
    requires 1 < e ==> SameMach(s[1..], s2[1..])
    ensures ParseSpd(s, e) == ParseSpd(s2, e)
  {
  }

  lemma SpdTwins(q: Test, s: string, s2: string, n: nat, e: nat)
    requires Twins(q, s, s2, n) && e <= n && AtArg(s, e)
    ensures AtArg(s2, e) && ParseSpd(s, e) == ParseSpd(s2, e)
  {
    ScanTwins(q, s, s2, n);
    if 1 < e {
      TwinsTail(q, s, s2, n, 1);
      MachTwins(q, s[1..], s2[1..], n - 1);
    }
    SpdSame(s, s2, e);
  }

  /** The two characters from `a` on. */
  lemma SliceTwins(q: Test, s: string, s2: string, n: nat, a: nat)
    requires Twins(q, s, s2, n) && a <= n + 1
    ensures ScanNum(Slice(s, a, a + 2)) == ScanNum(Slice(s2, a, a + 2))
  {
    if a < n {
      assert Slice(s, a, a + 2) == [s[a], s[a + 1]] == Slice(s2, a, a + 2);
    } else {
      StillIsQuiet(q, s, n + 1);
      StillIsQuiet(q, s2, n + 1);
      QuietSlice(s, n, a);
      QuietSlice(s2, n, a);
    }
  }

  lemma QuietSlice(s: string, n: nat, a: nat)
    requires n < |s| && s[n] == '\n' && Quiet(s, n + 1) && n <= a <= n + 1
    ensures ScanNum(Slice(s, a, a + 2)) == NoNum
  {
    CalmIsClosed();
    StillSlice(CalmTest(), s, n, a);
    QuietScans(Slice(s, a, a + 2));
  }

  lemma StillSlice(q: Test, s: string, n: nat, a: nat)
    requires Closed(q) && n < |s| && s[n] == '\n' && Still(q, s, n + 1) && n <= a <= n + 1
    ensures Still(q, Slice(s, a, a + 2), 0)
  {
    assert Still(q, s, a);
    var j := if a + 2 < |s| then a + 2 else |s|;
    StillPrefix(q, s, a, j);
    StillTail(q, s[..j], a, 0);
    assert s[..j][a..] == Slice(s, a, a + 2);
  }

  lemma TimeSame(s: string, s2: string)
    requires StartsWith(s, "NOW") == StartsWith(s2, "NOW")
    requires ScanNum(Slice(s, 0, 2)) == ScanNum(Slice(s2, 0, 2)) && ScanNum(Slice(s, 2, 4)) == ScanNum(Slice(s2, 2, 4))
    ensures ParseTime(s) == ParseTime(s2)
  {
  }

  lemma ClockTwins(q: Test, s: string, s2: string, n: nat)
    requires Twins(q, s, s2, n) && n > 0
    ensures ScanNum(Slice(s, 0, 2)) == ScanNum(Slice(s2, 0, 2)) && ScanNum(Slice(s, 2, 4)) == ScanNum(Slice(s2, 2, 4))
  {
    SliceTwins(q, s, s2, n, 0);
    SliceTwins(q, s, s2, n, 2);
  }

  lemma TimeTwins(q: Test, s: string, s2: string, n: nat)
    requires Twins(q, s, s2, n) && n > 0
    ensures ParseTime(s) == ParseTime(s2)
  {
    StartsTwins(q, s, s2, n, "NOW");
    ClockTwins(q, s, s2, n);
    TimeSame(s, s2);
  }

  lemma PositionTwins(q: Test, s: string, s2: string, n: nat, e: nat)
    requires Twins(q, s, s2, n) && e <= n
    ensures ParsePosition(s, e) == ParsePosition(s2, e)
  {
    ArgEndTwins(q, s, s2, n, e);
    TwinsPrefix(q, s, s2, n, ArgEnd(s, e));
  }

  lemma DirTwins(q: Test, key: Key, s: string, s2: string, n: nat)
    requires Twins(q, s, s2, n) && n > 0
    ensures ParseDir(key, s) == ParseDir(key, s2)
  {
    assert s[0] == s2[0] && s[1] == s2[1];
  }

  lemma NumSame(k: Kind, s: string, s2: string)
    requires ScanNum(s) == ScanNum(s2)
    ensures ParseNum(k, s) == ParseNum(k, s2) && ParseDur(s) == ParseDur(s2)
  {
  }

  lemma NumTwins(q: Test, k: Kind, s: string, s2: string, n: nat)
    requires Twins(q, s, s2, n)
    ensures ParseNum(k, s) == ParseNum(k, s2) && ParseDur(s) == ParseDur(s2)
  {
    ScanTwins(q, s, s2, n);
    NumSame(k, s, s2);
  }

  lemma ToFromTwins(q: Test, s: string, s2: string, n: nat, e: nat)
    requires Twins(q, s, s2, n) && e <= n
    ensures ParseToFrom(s, e) == ParseToFrom(s2, e)
  {
    StartsTwins(q, s, s2, n, "TO");
    StartsTwins(q, s, s2, n, "FROM");
    ArgEndTwins(q, s, s2, n, e);
  }

  lemma DegreesTwins(q: Test, s: string, s2: string, n: nat, e: nat)
    requires Twins(q, s, s2, n) && e <= n && AtArg(s, e)
    ensures AtArg(s2, e) && ParseDegrees(s, e) == ParseDegrees(s2, e)
  {
    ScanTwins(q, s, s2, n);
    ArgEndTwins(q, s, s2, n, e);
  }

  lemma RestTwins(q: Test, s: string, s2: string, n: nat, e: nat)
    requires Twins(q, s, s2, n) && e <= n
    ensures ParseText(s, e) == ParseText(s2, e) && ParseRoute(s, e) == ParseRoute(s2, e)
  {
    TwinsPrefix(q, s, s2, n, e);
  }

  lemma AdvanceSame(k: Kind, s: string, s2: string, e: nat, a: nat, x: string, y: string)
    requires AtArg(s, e) && AtArg(s2, e) && ArgEnd(s, e) == a == ArgEnd(s2, e) && x == s[a..] && y == s2[a..]
    requires SpaceRun(x, e - a) == SpaceRun(y, e - a)
    ensures Advance(k, s, e) == Advance(k, s2, e)
  {
  }

  lemma AdvanceTwins(q: Test, k: Kind, s: string, s2: string, n: nat, e: nat)
    requires Twins(q, s, s2, n) && e <= n && AtArg(s, e)
    ensures AtArg(s2, e) && Advance(k, s, e) == Advance(k, s2, e)
  {
    ArgEndTwins(q, s, s2, n, e);
    var a := ArgEnd(s, e);
    var x, y := s[a..], s2[a..];
    TwinsTail(q, s, s2, n, a);
    SpaceRunTwins(q, x, y, n - a, e - a);
    AdvanceSame(k, s, s2, e, a, x, y);
  }

  lemma WordTwins(q: Test, key: Key, k: Kind, s: string, s2: string, n: nat, e: nat)
    requires Twins(q, s, s2, n) && e <= n && AtArg(s, e) && k in {KPos, KDir, KToFrom, KRoute, KIcao, KText, KAtis}
    ensures AtArg(s2, e) && ParseArg(key, k, s, e) == ParseArg(key, k, s2, e)
  {
    PositionTwins(q, s, s2, n, e);
    DirTwins(q, key, s, s2, n);
    ToFromTwins(q, s, s2, n, e);
    RestTwins(q, s, s2, n, e);
    ArgEndTwins(q, s, s2, n, e);
    TwinsPrefix(q, s, s2, n, ArgEnd(s, e));
  }

  lemma ArgTwins(q: Test, key: Key, k: Kind, s: string, s2: string, n: nat, e: nat)
    requires Twins(q, s, s2, n) && e <= n && AtArg(s, e)
    ensures AtArg(s2, e) && ParseArg(key, k, s, e) == ParseArg(key, k, s2, e)
  {
    if k == KAlt { AltTwins(q, s, s2, n, e); }
    else if k == KSpd { SpdTwins(q, s, s2, n, e); }
    else if k == KTime { TimeTwins(q, s, s2, n); }
    else if k == KDeg { DegreesTwins(q, s, s2, n, e); }
    else if k in {KPos, KDir, KToFrom, KRoute, KIcao, KText, KAtis} { WordTwins(q, key, k, s, s2, n, e); }
    else { NumTwins(q, k, s, s2, n); }
  }

  lemma ReadArgTwins(q: Test, key: Key, k: Kind, s: string, s2: string, n: nat, e: nat)
    requires Twins(q, s, s2, n) && e <= n
    ensures ReadArg(key, k, s, e) == ReadArg(key, k, s2, e)
  {
    if AtArg(s, e) {
      ArgTwins(q, key, k, s, s2, n, e);
      AdvanceTwins(q, k, s, s2, n, e);
    } else {
      assert e > 0 ==> s[0] == s2[0];
    }
  }

  // ----- segments -----

  ghost predicate LocalReader(q: Test, read: Reader) {
    forall key, k, s, s2, n: nat, e: nat :: e <= n && Twins(q, s, s2, n) ==> read(key, k, s, e) == read(key, k, s2, e)
  }

  lemma ReadArgIsLocal(q: Test)
    ensures LocalReader(q, ReadArg)
  {
    forall key, k, s, s2, n: nat, e: nat | e <= n && Twins(q, s, s2, n)
        ensures ReadArg(key, k, s, e) == ReadArg(key, k, s2, e) {
      ReadArgTwins(q, key, k, s, s2, n, e);
    }
  }

  lemma {:induction false} ArgsTwins(q: Test, read: Reader, key: Key, ks: seq<Kind>, s: string, s2: string, n: nat,
                                     e: nat)
    requires LocalReader(q, read) && Twins(q, s, s2, n) && e <= n
    ensures ParseArgs(read, key, ks, s, e) == ParseArgs(read, key, ks, s2, e)
    decreases |ks|
  {
    if ks != [] && e > 0 {
      var r := read(key, ks[0], s, e);
      assert r == read(key, ks[0], s2, e);
      if r.Good? && r.value.next <= e {
        TwinsTail(q, s, s2, n, r.value.next);
        ArgsTwins(q, read, key, ks[1..], s[r.value.next..], s2[r.value.next..], n - r.value.next, e - r.value.next);
      }
    }
  }

  lemma TailOf(read: Reader, table: Table, key: Key, s: string, e: nat, w: nat, args: Result<seq<Arg>>, x: Result<Seg>)
    requires e < |s| && key in table && IsSpace(s[0]) && w == SpaceRun(s, e)
    requires args == ParseArgs(read, key, table[key], s[w..], e - w)
    requires x == if args.Bad? then Bad else if args.Undef? then Undef else Good(Seg(key, args.value))
    ensures ParseTail(read, table, key, s, e) == x
  {
  }

  lemma TailTwins(q: Test, read: Reader, table: Table, key: Key, s: string, s2: string, n: nat, e: nat)
    requires LocalReader(q, read) && Twins(q, s, s2, n) && e <= n
    ensures ParseTail(read, table, key, s, e) == ParseTail(read, table, key, s2, e)
  {
    if key in table && IsSpace(s[0]) {
      SpaceRunTwins(q, s, s2, n, e);
      var w := SpaceRun(s, e);
      TwinsTail(q, s, s2, n, w);
      ArgsTwins(q, read, key, table[key], s[w..], s2[w..], n - w, e - w);
      var args := ParseArgs(read, key, table[key], s[w..], e - w);
      var x := if args.Bad? then Bad else if args.Undef? then Undef else Good(Seg(key, args.value));
      TailOf(read, table, key, s, e, w, args, x);
      TailOf(read, table, key, s2, e, w, args, x);
    }
  }

  ghost predicate LocalTail(q: Test, read: TailReader) {
    forall key, s, s2, n: nat, e: nat :: e <= n && Twins(q, s, s2, n) ==> read(key, s, e) == read(key, s2, e)
  }

  lemma ReadTailIsLocal(q: Test, table: Table)
    ensures LocalTail(q, ReadTail(table))
  {
    ReadArgIsLocal(q);
    forall key, s, s2, n: nat, e: nat | e <= n && Twins(q, s, s2, n)
        ensures ReadTail(table)(key, s, e) == ReadTail(table)(key, s2, e) {
      TailTwins(q, ReadArg, table, key, s, s2, n, e);
    }
  }

  ghost predicate AgreeOn(read: TailReader, u: string, u2: string, e: nat) {
    forall key :: read(key, u, e) == read(key, u2, e)
  }

  lemma TailAt(q: Test, read: TailReader, s: string, s2: string, n: nat, e: nat, d: nat)
    requires LocalTail(q, read) && Twins(q, s, s2, n) && d <= e <= n
    ensures AgreeOn(read, s[d..], s2[d..], e - d)
  {
    TwinsTail(q, s, s2, n, d);
  }

  ghost predicate BehindAlike(read: TailReader, s: string, s2: string, e: nat, d: nat)
    requires e < |s| && e < |s2|
  {
    d < e ==>
      && s[d] == s2[d] && AgreeOn(read, s[d..], s2[d..], e - d)
      && AgreeOn(read, s[d + 1..], s2[d + 1..], e - d - 1)
  }

  /** All that reading a segment behind its letters depends on. */
  ghost predicate TypedAlike(read: TailReader, s: string, s2: string, e: nat, u: string, d: nat) {
    && e < |s| && e < |s2| && ScanNum(s) == ScanNum(s2) && u == s[..e] == s2[..e] && DigitsLen(u) == d
    && BehindAlike(read, s, s2, e, d)
  }

  lemma TypedTwins(q: Test, read: TailReader, s: string, s2: string, n: nat, e: nat)
    requires LocalTail(q, read) && Twins(q, s, s2, n) && e <= n
    ensures TypedAlike(read, s, s2, e, s[..e], DigitsLen(s[..e]))
  {
    ScanTwins(q, s, s2, n);
    TwinsPrefix(q, s, s2, n, e);
    var d := DigitsLen(s[..e]);
    if d < e {
      TailAt(q, read, s, s2, n, e, d);
      TailAt(q, read, s, s2, n, e, d + 1);
    }
  }

  lemma TypedSame(read: TailReader, table: Table, isDl: bool, s: string, s2: string, e: nat, u: string, d: nat)
    requires 0 < e && TypedAlike(read, s, s2, e, u, d)
    ensures ParseTyped(read, table, isDl, s, e) == ParseTyped(read, table, isDl, s2, e)
  {
    var n := Atoi(s);
    assert n == Atoi(s2);
    var w := TypedBy(read, s, e, isDl, d, n);
    TypedBySame(read, isDl, s, s2, e, d, n);
    TypedValue(read, table, isDl, s, e, n, d, w);
    TypedValue(read, table, isDl, s2, e, n, d, w);
  }

  /** The letter behind the type number, and what the reader makes of the rest without it and with it as a subtype. */
  datatype Behind = AtEnd | Behind(c: char, plain: Result<Seg>, sub: Result<Seg>)

  ghost function TypedBy(read: TailReader, s: string, e: nat, isDl: bool, d: nat, n: int): Behind
    requires d <= e < |s|
  {
    if d == e || n < 0 then AtEnd
    else Behind(s[d], read(Key(isDl, n, NO_SUBTYPE), s[d..], e - d), read(Key(isDl, n, s[d]), s[d + 1..], e - d - 1))
  }

  lemma TypedBySame(read: TailReader, isDl: bool, s: string, s2: string, e: nat, d: nat, n: int)
    requires d <= e < |s| && e < |s2| && BehindAlike(read, s, s2, e, d)
    ensures TypedBy(read, s, e, isDl, d, n) == TypedBy(read, s2, e, isDl, d, n)
  {
  }

  lemma TypedValue(
      read: TailReader, table: Table, isDl: bool, s: string, e: nat, n: int, d: nat, w: Behind)
    requires 0 < e < |s| && n == Atoi(s) && d == DigitsLen(s[..e]) && w == TypedBy(read, s, e, isDl, d, n)
    ensures ParseTyped(read, table, isDl, s, e)
            == if n < 0 || n > (if isDl then MAX_DM else MAX_UM) then Bad
               else if w.AtEnd? then
                 var plain := Key(isDl, n, NO_SUBTYPE);
                 if plain in table && table[plain] == [] then Good(Seg(plain, [])) else Bad
               else if IsSpace(w.c) then w.plain
               else if !isDl || n != 67 || w.c < 'b' || w.c > 'i' then Bad else w.sub
  {
  }

  lemma SegOf(read: TailReader, table: Table, s: string, e: nat, dl: Result<Seg>, ul: Result<Seg>, x: Result<Seg>)
    requires 2 < e < |s| && dl == ParseTyped(read, table, true, s[2..], e - 2)
             && ul == ParseTyped(read, table, false, s[2..], e - 2)
    requires x == if s[..2] == "DM" then dl else if s[..2] == "UM" then ul else Bad
    ensures ParseSeg(read, table, s, e) == x
  {
  }

  lemma SegTwins(q: Test, read: TailReader, table: Table, s: string, s2: string, n: nat, e: nat)
    requires LocalTail(q, read) && Twins(q, s, s2, n) && e <= n
    ensures ParseSeg(read, table, s, e) == ParseSeg(read, table, s2, e)
  {
    if e > 2 {
      TwinsPrefix(q, s, s2, n, 2);
      TwinsTail(q, s, s2, n, 2);
      var v, v2 := s[2..], s2[2..];
      TypedTwins(q, read, v, v2, n - 2, e - 2);
      TypedSame(read, table, true, v, v2, e - 2, v[..e - 2], DigitsLen(v[..e - 2]));
      TypedSame(read, table, false, v, v2, e - 2, v[..e - 2], DigitsLen(v[..e - 2]));
      var dl, ul := ParseTyped(read, table, true, v, e - 2), ParseTyped(read, table, false, v, e - 2);
      var x := if s[..2] == "DM" then dl else if s[..2] == "UM" then ul else Bad;
      SegOf(read, table, s, e, dl, ul, x);
      SegOf(read, table, s2, e, dl, ul, x);
    }
  }

  // ----- headers and lines -----

  ghost predicate LocalSeg(q: Test, read: SegReader) {
    forall s, s2, n: nat, e: nat :: e <= n && Twins(q, s, s2, n) ==> read(s, e) == read(s2, e)
  }

  lemma ReadSegIsLocal(q: Test, table: Table)
    ensures LocalSeg(q, ReadSeg(table))
  {
    ReadTailIsLocal(q, table);
    forall s, s2, n: nat, e: nat | e <= n && Twins(q, s, s2, n) ensures ReadSeg(table)(s, e) == ReadSeg(table)(s2, e) {
      SegTwins(q, ReadTail(table), table, s, s2, n, e);
    }
  }

  lemma PktTwins(q: Test, v: string, v2: string, n: nat)
    requires Twins(q, v, v2, n)
    ensures ReadPkt(v) == ReadPkt(v2)
  {
    StartsTwins(q, v, v2, n, "CPDLC/");
    StartsTwins(q, v, v2, n, "PING/");
    StartsTwins(q, v, v2, n, "PONG/");
  }

  lemma NamedTwins(q: Test, read: SegReader, isDl: bool, d: Draft, name: string, v: string, v2: string, n: nat,
                   e: nat, logoff: bool)
    requires LocalSeg(q, read) && Twins(q, v, v2, n) && e <= n
    ensures ReadNamed(read, isDl, d, name, v, e, logoff) == ReadNamed(read, isDl, d, name, v2, e, logoff)
  {
    PktTwins(q, v, v2, n);
    ScanTwins(q, v, v2, n);
    TwinsPrefix(q, v, v2, n, e);
    NamedSame(read, isDl, d, name, v, v2, e, v[..e], logoff);
  }

  lemma NamedSame(read: SegReader, isDl: bool, d: Draft, name: string, v: string, v2: string, e: nat, u: string,
                  logoff: bool)
    requires e < |v| && e < |v2| && u == v[..e] == v2[..e] && read(v, e) == read(v2, e)
    requires ReadPkt(v) == ReadPkt(v2) && ScanNum(v) == ScanNum(v2)
    ensures ReadNamed(read, isDl, d, name, v, e, logoff) == ReadNamed(read, isDl, d, name, v2, e, logoff)
  {
  }

  lemma FieldOf(table: Table, isDl: bool, d: Draft, s: string, e: nat)
    requires e < |s|
    ensures ReadField(table, isDl, d, s, e)
            == ReadNamed(ReadSeg(table), isDl, d, s[..HeaderLen(s, e)], s[HeaderLen(s, e)..], e - HeaderLen(s, e),
                         StartsWith(s, "LOGOFF"))
  {
  }

  lemma FieldParts(q: Test, s: string, s2: string, n: nat, e: nat, h: nat)
    requires Twins(q, s, s2, n) && e <= n && h == HeaderLen(s, e)
    ensures h == HeaderLen(s2, e) && s[..h] == s2[..h] && Twins(q, s[h..], s2[h..], n - h)
    ensures StartsWith(s, "LOGOFF") == StartsWith(s2, "LOGOFF")
  {
    FindTwins(q, s, s2, n, '=', e);
    StartsTwins(q, s, s2, n, "LOGOFF");
    TwinsPrefix(q, s, s2, n, h);
    TwinsTail(q, s, s2, n, h);
  }

  lemma FieldTwins(q: Test, table: Table, isDl: bool, d: Draft, s: string, s2: string, n: nat, e: nat)
    requires LocalSeg(q, ReadSeg(table)) && Twins(q, s, s2, n) && e <= n
    ensures ReadField(table, isDl, d, s, e) == ReadField(table, isDl, d, s2, e)
  {
    var h, logoff := HeaderLen(s, e), StartsWith(s, "LOGOFF");
    FieldParts(q, s, s2, n, e, h);
    NamedTwins(q, ReadSeg(table), isDl, d, s[..h], s[h..], s2[h..], n - h, e - h, logoff);
    FieldOf(table, isDl, d, s, e);
    FieldOf(table, isDl, d, s2, e);
  }

  ghost predicate LocalField(q: Test, read: FieldReader) {
    forall d, s, s2, n: nat, e: nat :: e <= n && Twins(q, s, s2, n) ==> read(d, s, e) == read(d, s2, e)
  }

  lemma ReadFieldIsLocal(q: Test, table: Table, isDl: bool)
    ensures LocalField(q, ReadFieldOf(table, isDl))
  {
    ReadSegIsLocal(q, table);
    forall d, s, s2, n: nat, e: nat | e <= n && Twins(q, s, s2, n)
      ensures ReadFieldOf(table, isDl)(d, s, e) == ReadFieldOf(table, isDl)(d, s2, e)
    {
      FieldTwins(q, table, isDl, d, s, s2, n, e);
    }
  }

  lemma FieldsStop(read: FieldReader, d: Draft, s: string, t: nat, turn: Turn)
    requires 0 < t < |s| && turn == FieldTurn(read, d, s, t) && turn.Stop?
    ensures ReadFields(read, d, s, t) == turn.result
  {
  }

  lemma FieldsGo(read: FieldReader, d: Draft, s: string, t: nat, turn: Turn, s': string, t': nat, x: Result<Draft>)
    requires 0 < t < |s| && turn == FieldTurn(read, d, s, t) && turn.Go? && s' == s[turn.next..] && t' == t - turn.next
    requires ReadFields(read, turn.draft, s', t') == x
    ensures ReadFields(read, d, s, t) == x
  {
  }

  lemma TurnTwins(q: Test, read: FieldReader, d: Draft, s: string, s2: string, n: nat, t: nat)
    requires LocalField(q, read) && Twins(q, s, s2, n) && 0 < t <= n
    ensures FieldTurn(read, d, s, t) == FieldTurn(read, d, s2, t)
  {
    FindTwins(q, s, s2, n, '/', t);
    assert read(d, s, SepAt(s, t)) == read(d, s2, SepAt(s, t));
  }

  /** The headers up to `t`, which is the end of the line or the CR before it. */
  lemma {:induction false} FieldsTwins(q: Test, read: FieldReader, d: Draft, s: string, s2: string, n: nat, t: nat)
    requires LocalField(q, read) && Twins(q, s, s2, n) && t <= n
    ensures ReadFields(read, d, s, t) == ReadFields(read, d, s2, t)
    decreases t
  {
    if t > 0 {
      TurnTwins(q, read, d, s, s2, n, t);
      var turn := FieldTurn(read, d, s, t);
      if turn.Go? {
        var u, u2, t' := s[turn.next..], s2[turn.next..], t - turn.next;
        TwinsTail(q, s, s2, n, turn.next);
        FieldsTwins(q, read, turn.draft, u, u2, n - turn.next, t');
        var x := ReadFields(read, turn.draft, u, t');
        FieldsGo(read, d, s, t, turn, u, t', x);
        FieldsGo(read, d, s2, t, turn, u2, t', x);
      } else {
        FieldsStop(read, d, s, t, turn);
        FieldsStop(read, d, s2, t, turn);
      }
    }
  }

  lemma TwinsDecode(q: Test, table: Table, isDl: bool, s: string, s2: string, n: nat)
    requires Twins(q, s, s2, n)
    ensures Decode(table, isDl, s) == Decode(table, isDl, s2)
  {
    ReadFieldIsLocal(q, table, isDl);
    TwinsEol(q, s, s2, n);
    FieldsTwins(q, ReadFieldOf(table, isDl), START, s, s2, n, FindEol(s).at);
  }

  /** Two buffers with the same first line, which ends at `n`. */
  ghost predicate SameLine(s: string, s2: string, n: nat) {
    && n < |s| && n < |s2| && s[n] == '\n' && (forall i :: 0 <= i < n ==> s[i] != '\n')
    && (forall i :: 0 <= i <= n ==> s[i] == s2[i])
  }

  lemma CalmHushes()
    ensures Hushes(CalmTest())
  {
  }

  /** The decoder's verdict on a line, ended by LF or CR LF, does not depend on what follows, as long as that is
      quiet. */
  lemma LineIsLocal(table: Table, isDl: bool, s: string, s2: string, n: nat)
    requires SameLine(s, s2, n) && Quiet(s, n + 1) && Quiet(s2, n + 1)
    ensures Decode(table, isDl, s) == Decode(table, isDl, s2)
  {
    CalmHushes();
    TwinsDecode(CalmTest(), table, isDl, s, s2, n);
  }

  lemma TwinsEol(q: Test, s: string, s2: string, n: nat)
    requires Twins(q, s, s2, n)
    ensures FindEol(s) == FindEol(s2) == if n > 0 && s[n - 1] == '\r' then Eol(n - 1, 2) else Eol(n, 1)
  {
  }
}
