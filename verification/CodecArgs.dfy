/** Reading back printed arguments. */
module CodecArgs {
  import opened Options
  import opened Text
  import opened Codec
  import E = Escape
  import R = Route

  // ----- the arguments that survive -----

  predicate NameOk(n: string, cap: nat) { |n| < cap && E.CString(n) && E.AllSurvive(n) }

  predicate PosOk(p: Pos) {
    match p
    case Unset => false
    case Unknown(n) => n != "" && NameOk(n, 16) && ':' !in n
    case _ => NameOk(p.name, 8)
  }

  predicate AltOk(fl: bool, met: bool, alt: int) {
    if !fl then -1500 <= alt <= 100000
    else if met then 0 < alt <= 20000
    else 0 < alt <= 60000 && alt % 100 == 0
  }

  /** Text that is escaped into the big buffer: 7-bit, and it fits. */
  predicate LongOk(t: string) {
    t != "" && E.CString(t) && E.AllSurvive(t) && E.Fits(t, 0, 8192)
  }

  predicate RouteArgOk(r: R.Route) {
    R.RouteOk(r) && r.origRwy == "" && r.destRwy == "" && LongOk(R.Serialize(r)) && |R.Serialize(r)| < 8192
  }

  /** Four octal digits, leading zeros included. */
  predicate Squawk(n: int) {
    0 <= n <= 7777 && n % 10 <= 7 && n / 10 % 10 <= 7 && n / 100 % 10 <= 7
  }

  /** Which directions a message can give: an offset (DM15 to DM17, UM64 to UM66, UM152) is to the left or right; a hold
      (UM91) is not to either side. */
  predicate TakesDir(key: Key, d: Dir) {
    if (if key.isDl then 15 <= key.msgType <= 17 else 64 <= key.msgType <= 66 || key.msgType == 152)
    then d == Left || d == Right
    else d == Either ==> key.isDl || key.msgType != 91
  }

  predicate ArgOk(key: Key, k: Kind, a: Arg)
    requires Shaped(k, a)
  {
    match k
    case KAlt => AltOk(a.fl, a.met, a.alt)
    case KSpd => if a.mach then a.spd % 10 == 0 && 100 <= a.spd < 1_000_000_000 else a.spd < 0x1_0000_0000
    case KTime => (a.hrs == -1 && a.mins == 0) || (0 <= a.hrs <= 23 && 0 <= a.mins <= 59)
    case KDur => 0 <= a.hrs && 0 <= a.mins < 60 && a.hrs * 60 + a.mins < 0x8000_0000
    case KPos => PosOk(a.pos)
    case KDir => TakesDir(key, a.dir)
    case KVvi => 0 <= a.n <= 10000
    case KToFrom => true
    case KRoute => a.route.Some? && RouteArgOk(a.route.value)
    case KSquawk => Squawk(a.n)
    case KIcao => 0 < |a.id| < 8 && NoSpace(a.id) && '/' !in a.id
    case KDeg => a.deg <= 360
    case KText => LongOk(a.text)
    case KPersons => 0 <= a.n <= 1024
    case KTp4 => a.n == 0 || a.n == 1
    case KErr => 0 <= a.n <= 10
    case KVersion => 0 <= a.n < 0x1_0000_0000
    case KAtis => 'A' <= a.code <= 'Z'
  }

  // ----- the shape of printed arguments -----

  /** Printed text that stands between separators. */
  predicate Solid(t: string) { t != "" && NoSpace(t) && '/' !in t }

  predicate Graphic(c: char) { !IsSpace(c) && c != '/' }

  lemma SolidFrom(t: string)
    requires t != "" && forall i :: 0 <= i < |t| ==> Graphic(t[i])
    ensures Solid(t)
  {
  }

  lemma DecSolid(n: int)
    ensures Solid(DecInt(n))
  {
    var d := DecInt(n);
    assert forall i :: 0 <= i < |d| ==> IsDigit(d[i]) || d[i] == '-';
  }

  lemma SolidPlus(a: string, b: string)
    requires Solid(a) && (b == "" || Solid(b))
    ensures Solid(a + b)
  {
    var s := a + b;
    assert forall i :: 0 <= i < |s| ==> s[i] == if i < |a| then a[i] else b[i - |a|];
  }

  lemma PadSolid(n: int, width: nat)
    ensures Solid(PadInt(n, width))
  {
    if n >= 0 { PadDigits(n, width); }
    else { PadDigits(-n, if width == 0 then 0 else width - 1); }
    var d := PadInt(n, width);
    assert forall i :: 0 <= i < |d| ==> IsDigit(d[i]) || d[i] == '-';
  }

  lemma EscapedSolid(t: string)
    requires t != "" && E.CString(t)
    ensures Solid(E.Escaped(t))
  {
    E.EscapedIsSafe(t);
    var e := E.Escaped(t);
    assert forall i :: 0 <= i < |e| ==> E.IsSafe(e[i]) && Graphic(e[i]);
  }

  lemma LongEscaped(t: string)
    requires LongOk(t)
    ensures E.EscapedInto(t, 0, TEXT_CAP) == E.Escaped(t) && Solid(E.Escaped(t))
    ensures E.Unescaped(E.Escaped(t)) == Some(t)
  {
    E.FitsExactly(t, 0, TEXT_CAP);
    EscapedSolid(t);
    E.RoundTripIff(t);
  }

  lemma PosTextOk(p: Pos)
    requires PosOk(p)
    ensures 0 < |PosText(p)| <= 15 && E.CString(PosText(p)) && E.AllSurvive(PosText(p)) && LongOk(PosText(p))
    ensures Trunc(PosText(p), POS_CAP) == PosText(p)
  {
    var t := PosText(p);
    match p {
      case FixName(n) => Prefixed("FIX:", n);
      case Navaid(n) => Prefixed("NAV:", n);
      case Airport(n) => Prefixed("ARPT:", n);
      case Unknown(n) =>
    }
    E.EscapedIsSafe(t);
  }

  lemma Prefixed(p: string, n: string)
    requires (forall i :: 0 <= i < |p| ==> 0 < p[i] as int < 128) && E.CString(n) && E.AllSurvive(n)
    ensures E.CString(p + n) && E.AllSurvive(p + n)
  {
  }

  // ----- reading back -----

  /** `t` stands at the start of the rest of a segment that ends at `e`; behind it comes a blank, or the end. */
  predicate Stands(t: string, tail: string, e: nat) {
    && tail != "" && |t| <= e <= |t| + |tail|
    && (e == |t| ==> EndsSeg(tail)) && (e > |t| ==> tail[0] == ' ')
  }

  lemma ArgEndOf(t: string, tail: string, e: nat)
    requires NoSpace(t) && Stands(t, tail, e)
    ensures ArgEnd(t + tail, e) == |t|
  {
    var s := t + tail;
    assert forall i :: 0 <= i < |t| ==> s[i] == t[i];
    assert s[|t|] == tail[0];
  }

  predicate Stores(num: Num, n: int) { num.Num? && AsInt(num) == n && (0 <= n ==> AsUnsigned(num) == n) }

  predicate ScansAs(s: string, n: int) { Stores(ScanNum(s), n) }

  lemma SmallNum(num: Num, n: int)
    requires -TWO31 <= n < TWO31 && num == Text.Num(n < 0, if n < 0 then -n else n)
    ensures Stores(num, n)
  {
  }

  lemma DecScans(n: int, r: string)
    requires -TWO31 <= n < TWO31 && NotDigitFirst(r)
    ensures ScansAs(DecInt(n) + r, n)
  {
    ScanDecInt(n, r);
    SmallNum(Text.Num(n < 0, if n < 0 then -n else n), n);
  }

  /** `d` is the text of a number that is followed by `r`. */
  predicate NumText(d: string, v: int, r: string) {
    Solid(d) && IsDigit(d[|d| - 1]) && (IsDigit(d[0]) || d[0] == '-') && ScansAs(d + r, v)
  }

  lemma DecText(n: int, suffix: string, tail: string)
    requires -TWO31 <= n < TWO31 && NotDigitFirst(suffix) && NotDigitFirst(tail)
    ensures NumText(DecInt(n), n, suffix + tail)
  {
    DecSolid(n);
    assert suffix == "" ==> suffix + tail == tail;
    DecScans(n, suffix + tail);
  }

  /** Reading an altitude, from what its text looks like. */
  lemma ParseAltFrom(t: string, tail: string, e: nat, fl: bool, met: bool, v: int)
    requires NoSpace(t) && t != "" && Stands(t, tail, e)
    requires fl ==> |t| > 2 && t[0] == 'F' && t[1] == 'L' && ScansAs((t + tail)[2..], v)
    requires !fl ==> t[0] != 'F' && ScansAs(t + tail, v)
    requires t[|t| - 1] == 'M' <==> met
    requires AltOk(fl, met, if fl && !met then v * 100 else v)
    ensures ParseAlt(t + tail, e) == Good(Alt(fl, met, if fl && !met then v * 100 else v))
  {
    ArgEndOf(t, tail, e);
    var s := t + tail;
    assert s[0] == t[0] && s[|t| - 1] == t[|t| - 1] && (|t| > 1 ==> s[1] == t[1]);
  }

  lemma AltChars(p: string, d: string, suffix: string, tail: string, t: string, fl: bool, met: bool)
    requires p == (if fl then "FL" else "") && suffix == (if met then "M" else "") && t == p + d + suffix && d != ""
    ensures t[|t| - 1] == if met then 'M' else d[|d| - 1]
    ensures if fl then |t| > 2 && t[0] == 'F' && t[1] == 'L' && (t + tail)[2..] == d + (suffix + tail)
            else t[0] == d[0] && t + tail == d + (suffix + tail)
  {
    if fl { assert (t + tail)[2..] == d + (suffix + tail); } else { assert t + tail == d + (suffix + tail); }
  }

  lemma AltFrom(p: string, d: string, suffix: string, tail: string, e: nat, fl: bool, met: bool, v: int)
    requires p == (if fl then "FL" else "") && suffix == (if met then "M" else "")
    requires NumText(d, v, suffix + tail) && Solid(p + d + suffix) && Stands(p + d + suffix, tail, e)
    requires AltOk(fl, met, if fl && !met then v * 100 else v)
    ensures ParseAlt(p + d + suffix + tail, e) == Good(Alt(fl, met, if fl && !met then v * 100 else v))
  {
    AltChars(p, d, suffix, tail, p + d + suffix, fl, met);
    ParseAltFrom(p + d + suffix, tail, e, fl, met, v);
  }

  lemma ThreeSolid(p: string, d: string, suffix: string)
    requires (p == "" || Solid(p)) && Solid(d) && (suffix == "" || Solid(suffix))
    ensures Solid(p + d + suffix)
  {
    if p == "" { assert p + d == d; } else { SolidPlus(p, d); }
    SolidPlus(p + d, suffix);
  }

  lemma RoundExact(a: int)
    requires 0 <= a
    ensures a % 100 == 0 ==> RoundDiv(a, 100) == a / 100 && a / 100 * 100 == a
    ensures a % 10 == 0 ==> RoundDiv(a, 10) == a / 10 && a / 10 * 10 == a
  {
  }

  lemma AltBack(a: Arg, tail: string, e: nat)
    requires a.Alt? && AltOk(a.fl, a.met, a.alt) && Stands(AltText(a.fl, a.met, a.alt), tail, e)
    ensures Solid(AltText(a.fl, a.met, a.alt))
    ensures ParseAlt(AltText(a.fl, a.met, a.alt) + tail, e) == Good(a)
  {
    if a.fl && !a.met { RoundExact(a.alt); }
    var v := if a.fl && !a.met then RoundDiv(a.alt, 100) else a.alt;
    var p, suffix := if a.fl then "FL" else "", if a.met then "M" else "";
    DecText(v, suffix, tail);
    SolidFrom("FL");
    SolidFrom("M");
    ThreeSolid(p, DecInt(v), suffix);
    AltFrom(p, DecInt(v), suffix, tail, e, a.fl, a.met, v);
  }

  // ----- speeds -----

  function Pow10(k: nat): nat { if k == 0 then 1 else 10 * Pow10(k - 1) }

  lemma {:induction false} DecShort(n: nat, k: nat)
    requires k > 0 && n < Pow10(k)
    ensures |Dec(n)| <= k
  {
    if n >= 10 {
      assert k > 1;
      DecShort(n / 10, k - 1);
    }
  }

  predicate Digits(s: string) { forall i :: 0 <= i < |s| ==> IsDigit(s[i]) }

  lemma ThousandthsAt(s: string, i: nat, frac: string, after: string)
    requires DigitsLen(s) == i <= 6 && i < |s| && s[i] == '.' && s[i + 1..] == frac
    requires DigitsLen(frac) == 2 && after == frac[2..] && (after != "" ==> !IsAlnum(after[0]))
    ensures Decimal(s) == Good(Value(s[..i]) * 1000 + Value(frac[..2]) * 10)
  {
  }

  /** A number that starts with a digit or a point. */
  lemma UnsignedThousandths(s: string)
    requires s != "" && !IsSpace(s[0]) && !IsSign(s[0])
    ensures Thousandths(s) == Decimal(s)
  {
    assert s[SpaceLen(s)..] == s;
  }

  lemma WholeDigits(s: string, i: string)
    requires Digits(i) && |i| < |s| && s[..|i|] == i && s[|i|] == '.'
    ensures DigitsLen(s) == |i|
  {
    DigitsLenOf(i, s[|i|..]);
    assert s == i + s[|i|..];
  }

  lemma FractionDigits(f: string, tail: string)
    requires Digits(f) && |f| == 2 && tail != "" && !IsAlnum(tail[0])
    ensures DigitsLen(f + tail) == 2 && (f + tail)[..2] == f && (f + tail)[2..] == tail
  {
    DigitsLenOf(f, tail);
  }

  lemma ThousandthsOf(s: string, i: string, f: string, tail: string)
    requires Digits(i) && Digits(f) && |i| <= 6 && |f| == 2 && tail != "" && !IsAlnum(tail[0])
    requires |i| < |s| && s[..|i|] == i && s[|i|] == '.' && s[|i| + 1..] == f + tail
    ensures Thousandths(s) == Good(Value(i) * 1000 + Value(f) * 10)
  {
    WholeDigits(s, i);
    FractionDigits(f, tail);
    ThousandthsAt(s, |i|, f + tail, tail);
    assert s[0] == if i == "" then '.' else i[0];
    UnsignedThousandths(s);
  }

  lemma MachFrom(t: string, tail: string, e: nat, v: nat)
    requires t != "" && t[0] == 'M' && |t| > 1 && Stands(t, tail, e) && v >= 100
    requires Thousandths((t + tail)[1..]) == Good(v)
    ensures ParseSpd(t + tail, e) == Good(Spd(true, v))
  {
    assert (t + tail)[0] == 'M';
  }

  lemma MachWhole(n: nat) returns (i: string)
    requires n < 1_000_000
    ensures i == (if n < 1 then "" else Dec(n)) && Digits(i) && |i| <= 6 && Value(i) == n
  {
    i := if n == 0 then "" else Dec(n);
    assert Pow10(6) == 1_000_000 by { assert Pow10(3) == 1000; }
    DecShort(n, 6);
    ValueOfDec(n);
  }

  lemma MachHundredths(c: nat) returns (f: string)
    requires c < 1000 && c % 10 == 0
    ensures f == PadInt(RoundDiv(c, 10), 2) && Digits(f) && |f| == 2 && Value(f) * 10 == c
  {
    RoundExact(c);
    f := Pad(c / 10, 2);
    PadDigits(c / 10, 2);
    assert Pow10(2) == 100;
    DecShort(c / 10, 2);
  }

  lemma MachSolid(t: string, i: string, f: string)
    requires Digits(i) && Digits(f) && t != "" && t[0] == 'M' && t[1..] == i + "." + f
    ensures Solid(t)
  {
    forall k | 0 <= k < |t| ensures Graphic(t[k]) {
      if k > 0 { assert t[k] == t[1..][k - 1]; }
    }
    SolidFrom(t);
  }

  lemma MachSlices(s: string, i: string, f: string, tail: string)
    requires s == i + "." + f + tail
    ensures |i| < |s| && s[..|i|] == i && s[|i|] == '.' && s[|i| + 1..] == f + tail
  {
  }

  lemma MachJoin(t: string, i: string, f: string, tail: string)
    requires Digits(i) && Digits(f) && |i| <= 6 && |f| == 2 && tail != "" && !IsAlnum(tail[0])
    requires t != "" && t[1..] == i + "." + f
    ensures Thousandths((t + tail)[1..]) == Good(Value(i) * 1000 + Value(f) * 10)
  {
    var s := (t + tail)[1..];
    assert s == i + "." + f + tail;
    MachSlices(s, i, f, tail);
    ThousandthsOf(s, i, f, tail);
  }

  lemma MachSplit(t: string, i: string, f: string)
    requires t == "M" + i + "." + f
    ensures |t| > 1 && t[0] == 'M' && t[1..] == i + "." + f
  {
  }

  lemma MachText(spd: nat, t: string) returns (i: string, f: string)
    requires spd % 10 == 0 && 100 <= spd < 1_000_000_000 && t == SpdText(true, spd)
    ensures |t| > 1 && t[0] == 'M' && t[1..] == i + "." + f
    ensures Digits(i) && Digits(f) && |i| <= 6 && |f| == 2 && Value(i) * 1000 + Value(f) * 10 == spd
  {
    i := MachWhole(spd / 1000);
    f := MachHundredths(spd % 1000);
    MachSplit(t, i, f);
  }

  lemma MachReads(spd: nat, t: string, tail: string)
    requires spd % 10 == 0 && 100 <= spd < 1_000_000_000 && t == SpdText(true, spd) && tail != "" && !IsAlnum(tail[0])
    ensures Solid(t) && |t| > 1 && t[0] == 'M' && Thousandths((t + tail)[1..]) == Good(spd)
  {
    var i, f := MachText(spd, t);
    MachSolid(t, i, f);
    MachJoin(t, i, f, tail);
  }

  lemma MachBack(spd: nat, t: string, tail: string, e: nat)
    requires spd % 10 == 0 && 100 <= spd < 1_000_000_000 && t == SpdText(true, spd) && Stands(t, tail, e)
    ensures Solid(t) && ParseSpd(t + tail, e) == Good(Spd(true, spd))
  {
    MachReads(spd, t, tail);
    MachFrom(t, tail, e, spd);
  }

  lemma KnotsFrom(d: string, v: int, tail: string, e: nat)
    requires NumText(d, v, "" + tail) && Stands(d, tail, e)
    ensures ParseSpd(d + tail, e) == Good(Spd(false, v % TWO32))
  {
    assert "" + tail == tail;
    assert (d + tail)[0] == d[0];
  }

  lemma SignedMod(n: nat)
    requires n < TWO32
    ensures Signed(n) % TWO32 == n && -TWO31 <= Signed(n) < TWO31
  {
  }

  lemma KnotsBack(spd: nat, tail: string, e: nat)
    requires spd < TWO32 && Stands(DecInt(Signed(spd)), tail, e)
    ensures Solid(DecInt(Signed(spd))) && ParseSpd(DecInt(Signed(spd)) + tail, e) == Good(Spd(false, spd))
  {
    var v := Signed(spd);
    DecText(v, "", tail);
    KnotsFrom(DecInt(v), v, tail, e);
    SignedMod(spd);
  }

  // ----- times -----

  lemma TwoDigits(n: nat)
    requires n < 60
    ensures |Pad(n, 2)| == 2 && Solid(Pad(n, 2)) && ScanNum(Pad(n, 2)) == Text.Num(false, n)
    ensures IsDigit(Pad(n, 2)[0])
  {
    assert Pow10(2) == 100;
    DecShort(n, 2);
    PadDigits(n, 2);
    ScanDigits(Pad(n, 2), "");
    assert Pad(n, 2) + "" == Pad(n, 2);
    PadSolid(n, 2);
  }

  lemma ClockSlices(s: string, h: string, m: string, tail: string)
    requires |h| == 2 && |m| == 2 && h[0] != 'N' && s == h + m + tail
    ensures Slice(s, 0, 2) == h && Slice(s, 2, 4) == m && !StartsWith(s, "NOW")
  {
    assert s[0] == h[0];
  }

  lemma ClockFrom(s: string, hrs: nat, mins: nat)
    requires !StartsWith(s, "NOW") && ScanNum(Slice(s, 0, 2)) == Text.Num(false, hrs)
             && ScanNum(Slice(s, 2, 4)) == Text.Num(false, mins)
    requires hrs <= 23 && mins <= 59
    ensures ParseTime(s) == Good(Time(hrs, mins))
  {
    SmallInt(false, hrs);
    SmallInt(false, mins);
  }

  lemma ClockBack(h: string, m: string, hrs: nat, mins: nat, tail: string)
    requires |h| == 2 && |m| == 2 && ScanNum(h) == Text.Num(false, hrs) && ScanNum(m) == Text.Num(false, mins)
    requires hrs <= 23 && mins <= 59 && h[0] != 'N'
    ensures ParseTime(h + m + tail) == Good(Time(hrs, mins))
  {
    ClockSlices(h + m + tail, h, m, tail);
    ClockFrom(h + m + tail, hrs, mins);
  }

  lemma TimeBack(hrs: int, mins: int, tail: string)
    requires 0 <= hrs <= 23 && 0 <= mins <= 59
    ensures Solid(PadInt(hrs, 2) + PadInt(mins, 2))
    ensures ParseTime(PadInt(hrs, 2) + PadInt(mins, 2) + tail) == Good(Time(hrs, mins))
  {
    TwoDigits(hrs);
    TwoDigits(mins);
    SolidPlus(Pad(hrs, 2), Pad(mins, 2));
    ClockBack(Pad(hrs, 2), Pad(mins, 2), hrs, mins, tail);
  }

  lemma NowBack(tail: string)
    ensures Solid("NOW") && ParseTime("NOW" + tail) == Good(Time(-1, 0))
  {
    SolidFrom("NOW");
    assert ("NOW" + tail)[..3] == "NOW";
  }

  lemma DurBack(hrs: int, mins: int, tail: string)
    requires 0 <= hrs && 0 <= mins < 60 && hrs * 60 + mins < TWO31 && NotDigitFirst(tail)
    ensures Solid(DecInt(hrs * 60 + mins)) && ParseDur(DecInt(hrs * 60 + mins) + tail) == Good(Time(hrs, mins))
  {
    var v := hrs * 60 + mins;
    DecSolid(v);
    DecScans(v, tail);
    assert v / 60 == hrs && v % 60 == mins;
  }

  // ----- names, positions, texts -----

  lemma Stripped(p: string, n: string)
    ensures (p + n)[..|p|] == p && (p + n)[|p|..] == n && StartsWith(p + n, p)
  {
  }

  lemma ParsePosBack(p: Pos)
    requires PosOk(p)
    ensures ParsePos(PosText(p)) == Good(Position(p))
  {
    var t := PosText(p);
    match p
    case FixName(n) => Stripped("FIX:", n); assert t[3] == ':';
    case Navaid(n) => Stripped("NAV:", n); assert t[3] == ':' && t[0] == 'N';
    case Airport(n) => Stripped("ARPT:", n); assert t[4] == ':' && t[0] == 'A';
    case Unknown(n) =>
  }

  lemma TokenAt(t: string, tail: string, e: nat)
    requires NoSpace(t) && Stands(t, tail, e)
    ensures ArgEnd(t + tail, e) == |t| && (t + tail)[..|t|] == t
  {
    ArgEndOf(t, tail, e);
  }

  lemma PosBack(p: Pos, t: string, tail: string, e: nat)
    requires PosOk(p) && t == E.Escaped(PosText(p)) && Stands(t, tail, e)
    ensures Solid(t) && ParsePosition(t + tail, e) == Good(Position(p))
    ensures E.EscapedInto(Trunc(PosText(p), POS_CAP), 0, TEXT_CAP) == t
  {
    PosTextOk(p);
    LongEscaped(PosText(p));
    E.EscapedIsSafe(PosText(p));
    TokenAt(t, tail, e);
    ParsePosBack(p);
  }

  lemma TextBack(text: string, t: string, tail: string, e: nat)
    requires LongOk(text) && t == E.Escaped(text) && Stands(t, tail, e) && e == |t|
    ensures Solid(t) && ParseText(t + tail, e) == Good(FreeText(text))
    ensures E.EscapedInto(text, 0, TEXT_CAP) == t
  {
    LongEscaped(text);
    assert (t + tail)[..e] == t;
  }

  lemma RouteBack(r: R.Route, t: string, tail: string, e: nat)
    requires RouteArgOk(r) && t == E.Escaped(R.Serialize(r)) && Stands(t, tail, e) && e == |t|
    ensures Solid(t) && ParseRoute(t + tail, e) == Good(RouteArg(Some(r)))
    ensures E.EscapedInto(Trunc(R.Serialize(r), TEXT_CAP), 0, TEXT_CAP) == t
  {
    LongEscaped(R.Serialize(r));
    R.RoundTripIff(r);
    assert (t + tail)[..e] == t;
  }

  lemma DirBack(key: Key, d: Dir, tail: string)
    requires TakesDir(key, d) && tail != "" && (tail[0] == ' ' || EndsSeg(tail))
    ensures Solid(DirText(d)) && ParseDir(key, DirText(d) + tail) == Good(Direction(d))
  {
    var s := DirText(d) + tail;
    assert |DirText(d)| == 1 ==> s[1] == tail[0];
    SolidFrom(DirText(d));
  }

  lemma ToFromBack(to: bool, t: string, tail: string, e: nat)
    requires t == (if to then "TO" else "FROM") && Stands(t, tail, e)
    ensures Solid(t) && ParseToFrom(t + tail, e) == Good(ToFrom(to))
  {
    SolidFrom(t);
    TokenAt(t, tail, e);
    assert (t + tail)[0] == t[0];
  }

  lemma DegreesChars(d: string, tru: bool, suffix: string, tail: string, s: string)
    requires d != "" && IsDigit(d[|d| - 1]) && suffix == (if tru then "T" else "") && s == d + suffix + tail
    ensures s == d + (suffix + tail) && s[0] == d[0] && (s[|d + suffix| - 1] == 'T' <==> tru)
  {
  }

  lemma DegreesAt(s: string, e: nat, deg: nat, tru: bool)
    requires AtArg(s, e) && ScansAs(s, deg) && deg <= 360 && ArgEnd(s, e) > 0 && (s[ArgEnd(s, e) - 1] == 'T' <==> tru)
    ensures ParseDegrees(s, e) == Good(Degrees(deg, tru))
  {
  }

  lemma DegreesFrom(d: string, deg: nat, tru: bool, suffix: string, tail: string, e: nat)
    requires NumText(d, deg, suffix + tail) && deg <= 360 && suffix == (if tru then "T" else "")
    requires Solid(d + suffix) && Stands(d + suffix, tail, e)
    ensures ParseDegrees(d + suffix + tail, e) == Good(Degrees(deg, tru))
  {
    var s := d + suffix + tail;
    TokenAt(d + suffix, tail, e);
    DegreesChars(d, tru, suffix, tail, s);
    DegreesAt(s, e, deg, tru);
  }

  lemma DegreesBack(deg: nat, tru: bool, suffix: string, tail: string, e: nat)
    requires deg <= 360 && suffix == (if tru then "T" else "") && Stands(DecInt(Signed(deg)) + suffix, tail, e)
    ensures Solid(DecInt(Signed(deg)) + suffix)
    ensures ParseDegrees(DecInt(Signed(deg)) + suffix + tail, e) == Good(Degrees(deg, tru))
  {
    DecText(deg, suffix, tail);
    SolidFrom("T");
    SolidPlus(DecInt(deg), suffix);
    DegreesFrom(DecInt(deg), deg, tru, suffix, tail, e);
  }

  // ----- plain numbers -----

  lemma DigitsScan(n: int, d: string, tail: string)
    requires 0 <= n < 10000 && d != "" && (forall i :: 0 <= i < |d| ==> IsDigit(d[i])) && Value(d) == n
             && NotDigitFirst(tail)
    ensures ScansAs(d + tail, n)
  {
    ScanDigits(d, tail);
    SmallNum(Text.Num(false, n), n);
  }

  lemma SquawkScans(n: int, tail: string)
    requires 0 <= n < 10000 && NotDigitFirst(tail)
    ensures Solid(PadInt(n, 4)) && ScansAs(PadInt(n, 4) + tail, n)
  {
    PadSolid(n, 4);
    PadDigits(n, 4);
    DigitsScan(n, Pad(n, 4), tail);
  }

  lemma DashScans(tail: string)
    requires tail != "" && !IsDigit(tail[0])
    ensures Solid("-") && Atoi("-" + tail) == 0
  {
    SolidFrom("-");
    var s := "-" + tail;
    ScanSign(s);
    assert s[1..] == tail;
    assert DigitsLen(tail) == 0;
  }

  lemma WrapIsSigned(n: nat)
    requires n < TWO32
    ensures Wrap32(n) == Signed(n)
  {
  }

  lemma VersionBack(n: nat, tail: string)
    requires n < TWO32 && NotDigitFirst(tail)
    ensures Solid(DecInt(Wrap32(n))) && ScanNum(DecInt(Wrap32(n)) + tail).Num?
    ensures AsUnsigned(ScanNum(DecInt(Wrap32(n)) + tail)) == n
  {
    WrapIsSigned(n);
    DecSolid(Signed(n));
    ScanSigned(n, tail);
  }

  predicate IsNumber(k: Kind) { k in {KVvi, KSquawk, KPersons, KTp4, KErr, KVersion} }

  lemma SmallWrap(n: int)
    requires -TWO31 <= n < TWO31
    ensures Wrap32(n) == n
  {
  }

  /** Numbers printed as they are. */
  lemma SmallNumBack(k: Kind, n: int, tail: string)
    requires k in {KVvi, KPersons, KTp4, KErr} && 0 <= n < TWO31 && NotDigitFirst(tail)
    requires match k case KVvi => n <= 10000 case KPersons => 0 < n <= 1024 case KTp4 => n <= 1 case _ => n <= 10
    ensures Solid(DecInt(n)) && ParseNum(k, DecInt(n) + tail) == Good(Arg.Num(n))
  {
    DecSolid(n);
    DecScans(n, tail);
  }

  lemma NumBack(k: Kind, a: Arg, tail: string)
    requires IsNumber(k) && a.Num? && ArgOk(Key(true, 0, NO_SUBTYPE), k, a) && tail != "" && !IsDigit(tail[0])
    ensures Solid(ArgText(k, a)) && ParseNum(k, ArgText(k, a) + tail) == Good(a)
  {
    if k == KSquawk { SmallWrap(a.n); SquawkScans(a.n, tail); }
    else if k == KVersion { VersionBack(a.n, tail); }
    else if k == KPersons && a.n == 0 { DashScans(tail); }
    else { SmallWrap(a.n); SmallNumBack(k, a.n, tail); }
  }

  lemma PosArgBack(p: Pos, t: string, tail: string, e: nat)
    requires PosOk(p) && t == E.EscapedInto(Trunc(PosText(p), POS_CAP), 0, TEXT_CAP) && Stands(t, tail, e)
    ensures Solid(t) && ParsePosition(t + tail, e) == Good(Position(p))
  {
    PosTextOk(p);
    LongEscaped(PosText(p));
    PosBack(p, t, tail, e);
  }

  lemma TextArgBack(text: string, t: string, tail: string, e: nat)
    requires LongOk(text) && t == E.EscapedInto(text, 0, TEXT_CAP) && Stands(t, tail, e) && e == |t|
    ensures Solid(t) && ParseText(t + tail, e) == Good(FreeText(text))
  {
    LongEscaped(text);
    TextBack(text, t, tail, e);
  }

  lemma RouteArgBack(r: R.Route, t: string, tail: string, e: nat)
    requires RouteArgOk(r) && t == E.EscapedInto(Trunc(R.Serialize(r), TEXT_CAP), 0, TEXT_CAP)
    requires Stands(t, tail, e) && e == |t|
    ensures Solid(t) && ParseRoute(t + tail, e) == Good(RouteArg(Some(r)))
  {
    LongEscaped(R.Serialize(r));
    RouteBack(r, t, tail, e);
  }

  lemma QuantityBack(key: Key, k: Kind, a: Arg, t: string, tail: string, e: nat)
    requires k in {KAlt, KSpd, KTime, KDur} && Shaped(k, a) && ArgOk(key, k, a) && t == ArgText(k, a)
             && Stands(t, tail, e)
    ensures Solid(t) && !IsSpace((t + tail)[0]) && e > 0 && ParseArg(key, k, t + tail, e) == Good(a)
  {
    if k == KAlt { AltBack(a, tail, e); }
    else if k == KSpd { if a.mach { MachBack(a.spd, t, tail, e); } else { KnotsBack(a.spd, tail, e); } }
    else if k == KTime { if a.hrs < 0 { NowBack(tail); } else { TimeBack(a.hrs, a.mins, tail); } }
    else { DurBack(a.hrs, a.mins, tail); }
  }

  lemma FlagBack(key: Key, k: Kind, a: Arg, t: string, tail: string, e: nat)
    requires k in {KDir, KToFrom, KDeg, KAtis} && Shaped(k, a) && ArgOk(key, k, a) && t == ArgText(k, a)
             && Stands(t, tail, e)
    ensures Solid(t) && !IsSpace((t + tail)[0]) && e > 0 && ParseArg(key, k, t + tail, e) == Good(a)
  {
    if k == KDir { DirBack(key, a.dir, tail); }
    else if k == KToFrom { ToFromBack(a.to, t, tail, e); }
    else if k == KDeg { DegreesBack(a.deg, a.tru, if a.tru then "T" else "", tail, e); }
    else { SolidFrom(t); }
  }

  /** An argument that is printed and read again is the same argument. */
  lemma ArgBack(key: Key, k: Kind, a: Arg, t: string, tail: string, e: nat)
    requires Shaped(k, a) && ArgOk(key, k, a) && t == ArgText(k, a) && Stands(t, tail, e)
    requires TakesRest(k) ==> e == |t|
    ensures Solid(t) && !IsSpace((t + tail)[0]) && e > 0 && ParseArg(key, k, t + tail, e) == Good(a)
  {
    if k in {KAlt, KSpd, KTime, KDur} { QuantityBack(key, k, a, t, tail, e); }
    else if k in {KDir, KToFrom, KDeg, KAtis} { FlagBack(key, k, a, t, tail, e); }
    else if IsNumber(k) { NumBack(k, a, tail); }
    else if k == KPos { PosArgBack(a.pos, t, tail, e); }
    else if k == KRoute { RouteArgBack(a.route.value, t, tail, e); }
    else if k == KText { TextArgBack(a.text, t, tail, e); }
    else { TokenAt(t, tail, e); }
  }

  // ----- all arguments of a segment -----

  /** Free text and routes run to the end of the segment, so they come last. */
  predicate KindsOk(ks: seq<Kind>) { forall i :: 0 <= i < |ks| - 1 ==> ks[i] != KText && ks[i] != KRoute }

  predicate ArgsOk(key: Key, ks: seq<Kind>, args: seq<Arg>) {
    |ks| == |args| && KindsOk(ks) && forall i :: 0 <= i < |ks| ==> Shaped(ks[i], args[i]) && ArgOk(key, ks[i], args[i])
  }

  predicate EndsSeg(tail: string) { tail != "" && (tail[0] == '/' || tail[0] == '\n' || tail[0] == '\r') }

  /** Behind a token comes one blank and another token, or the end. */
  predicate StandsBefore(t: string, tail: string, e: nat) {
    Stands(t, tail, e) && (e > |t| ==> e > |t| + 1 && !IsSpace(tail[1]))
  }

  function NextAfter(t: string, e: nat): nat { if e == |t| then |t| else |t| + 1 }

  lemma AdvanceOver(k: Kind, t: string, tail: string, e: nat)
    requires Solid(t) && StandsBefore(t, tail, e) && (TakesRest(k) ==> e == |t|)
    ensures Advance(k, t + tail, e) == NextAfter(t, e)
  {
    var s := t + tail;
    if !TakesRest(k) {
      TokenAt(t, tail, e);
      var r := s[|t|..];
      assert r == tail;
      if e > |t| { assert SpaceRun(tail, e - |t|) == 1 + SpaceRun(tail[1..], e - |t| - 1); }
    }
  }

  predicate AllSolid(ts: seq<string>) { forall i :: 0 <= i < |ts| ==> Solid(ts[i]) }

  /** `read` gives back argument `a` wherever its text `t` stands. */
  ghost predicate ReadsBack(read: Reader, key: Key, k: Kind, t: string, a: Arg) {
    forall r: string, e: nat :: StandsBefore(t, r, e) && (TakesRest(k) ==> e == |t|) ==>
      read(key, k, t + r, e) == Good(Taken(a, NextAfter(t, e)))
  }

  lemma ParseArgsStep(read: Reader, key: Key, ks: seq<Kind>, a: Arg, rest: seq<Arg>, s: string, e: nat, n: nat)
    requires ks != [] && 0 < e <= |s| && n <= e && read(key, ks[0], s, e) == Good(Taken(a, n))
    requires ParseArgs(read, key, ks[1..], s[n..], e - n) == Good(rest)
    ensures ParseArgs(read, key, ks, s, e) == Good([a] + rest)
  {
  }

  lemma LastTokenBack(read: Reader, key: Key, ks: seq<Kind>, a: Arg, t: string, tail: string)
    requires |ks| == 1 && Solid(t) && EndsSeg(tail) && ReadsBack(read, key, ks[0], t, a)
    ensures ParseArgs(read, key, ks, t + tail, |t|) == Good([a])
  {
    assert ks[1..] == [];
    assert StandsBefore(t, tail, |t|);
    ParseArgsStep(read, key, ks, a, [], t + tail, |t|, |t|);
    assert [a] + [] == [a];
  }

  lemma NextTokenBack(read: Reader, key: Key, ks: seq<Kind>, a: Arg, rest: seq<Arg>, t: string, after: string, e: nat)
    requires |ks| > 1 && Solid(t) && !TakesRest(ks[0]) && ReadsBack(read, key, ks[0], t, a) && StandsBefore(t, after, e)
    requires |t| < e && ParseArgs(read, key, ks[1..], after[1..], e - |t| - 1) == Good(rest)
    ensures ParseArgs(read, key, ks, t + after, e) == Good([a] + rest)
  {
    assert (t + after)[|t| + 1..] == after[1..];
    ParseArgsStep(read, key, ks, a, rest, t + after, e, |t| + 1);
  }

  lemma BlankedSplit(ts: seq<string>, s: string)
    requires ts != [] && " " + s == Blanked(ts)
    ensures s == ts[0] + Blanked(ts[1..])
    ensures |ts| == 1 ==> s == ts[0]
    ensures |ts| > 1 ==> |s| > |ts[0]| && s[|ts[0]|] == ' ' && " " + s[|ts[0]| + 1..] == Blanked(ts[1..])
  {
    var more := Blanked(ts[1..]);
    BlankedHead(ts[0], more, s);
    if |ts| > 1 {
      assert more == " " + ts[1..][0] + Blanked(ts[1..][1..]);
      BlankNext(ts[0], more, s);
    }
  }

  lemma BlankedHead(t: string, more: string, s: string)
    requires " " + s == " " + t + more
    ensures s == t + more
  {
    assert (" " + s)[1..] == s && (" " + t + more)[1..] == t + more;
  }

  lemma BlankNext(t: string, more: string, s: string)
    requires s == t + more && more != "" && more[0] == ' '
    ensures |s| > |t| && s[|t|] == ' ' && " " + s[|t| + 1..] == more
  {
    assert s[|t|..] == more && s[|t| + 1..] == more[1..];
  }

  /** Tokens separated by single blanks are read one after the other. `s` is the text behind the first blank. */
  lemma {:induction false} TokensBack(read: Reader, key: Key, ks: seq<Kind>, args: seq<Arg>, ts: seq<string>,
                                      s: string, tail: string)
    requires |ks| == |args| == |ts| > 0 && AllSolid(ts) && KindsOk(ks) && EndsSeg(tail) && " " + s == Blanked(ts)
    requires forall i :: 0 <= i < |ks| ==> ReadsBack(read, key, ks[i], ts[i], args[i])
    ensures s != "" && !IsSpace(s[0]) && ParseArgs(read, key, ks, s + tail, |s|) == Good(args)
    decreases |ks|
  {
    BlankedSplit(ts, s);
    var t := ts[0];
    assert s[0] == t[0];
    if |ks| == 1 {
      LastTokenBack(read, key, ks, args[0], t, tail);
      assert args == [args[0]];
    } else {
      var s' := s[|t| + 1..];
      TokensBack(read, key, ks[1..], args[1..], ts[1..], s', tail);
      var after := s[|t|..] + tail;
      assert s + tail == t + after;
      assert after[1..] == s' + tail && after[0] == ' ' && after[1] == s'[0];
      NextTokenBack(read, key, ks, args[0], args[1..], t, after, |s|);
      assert args == [args[0]] + args[1..];
    }
  }

  lemma ReadArgAt(key: Key, k: Kind, a: Arg, t: string, r: string, e: nat)
    requires Shaped(k, a) && ArgOk(key, k, a) && t == ArgText(k, a) && StandsBefore(t, r, e)
             && (TakesRest(k) ==> e == |t|)
    ensures Solid(t) && ReadArg(key, k, t + r, e) == Good(Taken(a, NextAfter(t, e)))
  {
    ArgBack(key, k, a, t, r, e);
    AdvanceOver(k, t, r, e);
  }

  lemma ReadArgBack(key: Key, k: Kind, a: Arg, t: string)
    requires Shaped(k, a) && ArgOk(key, k, a) && t == ArgText(k, a)
    ensures Solid(t) && ReadsBack(ReadArg, key, k, t, a)
  {
    ReadArgAt(key, k, a, t, "/", |t|);
    forall r: string, e: nat | StandsBefore(t, r, e) && (TakesRest(k) ==> e == |t|)
      ensures ReadArg(key, k, t + r, e) == Good(Taken(a, NextAfter(t, e)))
    {
      ReadArgAt(key, k, a, t, r, e);
    }
  }

  /** All arguments of a segment, printed and read again. */
  lemma ArgsBack(key: Key, ks: seq<Kind>, args: seq<Arg>, ts: seq<string>, s: string, tail: string)
    requires ks != [] && ArgsOk(key, ks, args) && ts == ArgTexts(ks, args) && EndsSeg(tail) && " " + s == Blanked(ts)
    ensures AllSolid(ts) && s != "" && !IsSpace(s[0]) && ParseArgs(ReadArg, key, ks, s + tail, |s|) == Good(args)
  {
    forall i | 0 <= i < |ks| ensures Solid(ts[i]) && ReadsBack(ReadArg, key, ks[i], ts[i], args[i]) {
      ReadArgBack(key, ks[i], args[i], ts[i]);
    }
    TokensBack(ReadArg, key, ks, args, ts, s, tail);
  }
}
