/** What the reader accepts and what it refuses, by the text. */
module CodecReads {
  import opened Options
  import opened Text
  import opened Codec
  import opened CodecArgs
  import opened CodecRoundTrip
  import opened CodecWhole
  import E = Escape
  import Split

  // ----- numbers -----

  /** A text of digits that stands as an argument and whose number fits an `int`. */
  predicate NumberAt(d: string, tail: string, e: nat) {
    d != "" && Digits(d) && Value(d) < 0x8000_0000 && Stands(d, tail, e)
  }

  lemma DigitsSolid(d: string)
    requires d != "" && Digits(d)
    ensures Solid(d)
  {
    SolidFrom(d);
  }

  lemma NumberScans(d: string, tail: string)
    requires d != "" && Digits(d) && Value(d) < 0x8000_0000 && NotDigitFirst(tail)
    ensures ScansAs(d + tail, Value(d))
  {
    ScanDigits(d, tail);
    SmallNum(Text.Num(false, Value(d)), Value(d));
  }

  /** Which numbers a plain numeric argument takes. */
  predicate InRange(k: Kind, n: nat) {
    match k
    case KVvi => n <= 10000
    case KPersons => n <= 1024
    case KTp4 => n <= 1
    case KErr => n <= 10
    case KSquawk => Squawk(n)
    case _ => true
  }

  lemma NumAt(k: Kind, s: string, n: nat)
    requires k in {KVvi, KPersons, KTp4, KErr, KSquawk, KVersion} && ScansAs(s, n)
    ensures ParseNum(k, s) == if InRange(k, n) then Good(Arg.Num(n)) else Bad
  {
  }

  /** A numeric argument is read exactly if it is in range, and then as the number its digits write. */
  lemma NumberReads(key: Key, k: Kind, d: string, tail: string, e: nat)
    requires k in {KVvi, KPersons, KTp4, KErr, KSquawk, KVersion} && NumberAt(d, tail, e)
    ensures AtArg(d + tail, e)
    ensures ParseArg(key, k, d + tail, e) == if InRange(k, Value(d)) then Good(Arg.Num(Value(d))) else Bad
  {
    NumberScans(d, tail);
    NumAt(k, d + tail, Value(d));
    assert (d + tail)[0] == d[0];
  }

  predicate OctalDigit(c: char) { '0' <= c <= '7' }

  lemma FourDigits(d: string)
    requires |d| == 4 && Digits(d)
    ensures Value(d)
            == (d[0] as int - 48) * 1000 + (d[1] as int - 48) * 100 + (d[2] as int - 48) * 10 + (d[3] as int - 48)
  {
    var c, b, a := d[..3], d[..2], d[..1];
    assert c[..2] == b && b[..1] == a && a[..0] == "";
    assert Value(a) == d[0] as int - 48 && Value(b) == Value(a) * 10 + (d[1] as int - 48);
    assert Value(c) == Value(b) * 10 + (d[2] as int - 48);
  }

  /** Four digits are read as a squawk if and only if each of them is 0 to 7. */
  lemma SquawkReads(key: Key, d: string, tail: string, e: nat)
    requires |d| == 4 && Digits(d) && Stands(d, tail, e)
    ensures AtArg(d + tail, e)
    ensures ParseArg(key, KSquawk, d + tail, e)
            == if forall i :: 0 <= i < 4 ==> OctalDigit(d[i]) then Good(Arg.Num(Value(d))) else Bad
  {
    FourDigits(d);
    NumberReads(key, KSquawk, d, tail, e);
    assert (forall i :: 0 <= i < 4 ==> OctalDigit(d[i]))
           <==> OctalDigit(d[0]) && OctalDigit(d[1]) && OctalDigit(d[2]) && OctalDigit(d[3]);
    OctalIff(d[0] as int - 48, d[1] as int - 48, d[2] as int - 48, d[3] as int - 48);
  }

  lemma OctalIff(a: nat, b: nat, c: nat, d: nat)
    requires a < 10 && b < 10 && c < 10 && d < 10
    ensures Squawk(a * 1000 + b * 100 + c * 10 + d) <==> a < 8 && b < 8 && c < 8 && d < 8
  {
    var n := a * 1000 + b * 100 + c * 10 + d;
    assert n % 10 == d && n / 10 == a * 100 + b * 10 + c && n / 100 == a * 10 + b;
    assert n / 10 % 10 == c && n / 100 % 10 == b;
  }

  // ----- times -----

  lemma PairValue(d: string)
    requires |d| == 2 && Digits(d)
    ensures Value(d) < 100 && ScanNum(d) == Text.Num(false, Value(d))
  {
    ScanDigits(d, "");
    assert d + "" == d && d[..1][..0] == "";
    assert Value(d[..1]) == d[0] as int - 48;
  }

  /** A time of two digits each is read if and only if there is such a time. */
  lemma TimeReads(key: Key, h: string, m: string, tail: string, e: nat)
    requires |h| == 2 && |m| == 2 && Digits(h) && Digits(m) && Stands(h + m, tail, e)
    ensures AtArg(h + m + tail, e)
    ensures ParseArg(key, KTime, h + m + tail, e)
            == if Value(h) <= 23 && Value(m) <= 59 then Good(Time(Value(h), Value(m))) else Bad
  {
    PairValue(h);
    PairValue(m);
    SmallInt(false, Value(h));
    SmallInt(false, Value(m));
    ClockSlices(h + m + tail, h, m, tail);
    assert (h + m + tail)[0] == h[0];
  }

  // ----- altitudes and degrees -----

  /** What an altitude text means, if anything: feet or metres as they are, flight levels in hundreds of feet. */
  function AltitudeOf(fl: bool, met: bool, n: nat): Result<Arg> {
    if !fl then (if n <= 100000 then Good(Alt(false, met, n)) else Bad)
    else if met then (if 0 < n <= 20000 then Good(Alt(true, true, n)) else Bad)
    else if 0 < n <= 600 then Good(Alt(true, false, n * 100)) else Bad
  }

  lemma AltitudeParts(fl: bool, met: bool, d: string, tail: string, t: string, s: string)
    requires d != "" && Digits(d) && t == (if fl then "FL" else "") + d + (if met then "M" else "") && s == t + tail
    ensures Solid(t) && (t[|t| - 1] == 'M' <==> met) && (fl ==> s[..2] == "FL" && |t| > 2) && (!fl ==> IsDigit(s[0]))
    ensures (if fl then s[2..] else s) == d + ((if met then "M" else "") + tail)
  {
    SolidFrom(t);
    assert t[if fl then 2 else 0] == d[0] && (!met ==> t[|t| - 1] == d[|d| - 1]);
  }

  lemma AltAt(s: string, e: nat, fl: bool, met: bool, n: nat)
    requires AtArg(s, e) && ArgEnd(s, e) > 0 && (met <==> s[ArgEnd(s, e) - 1] == 'M') && n < 20_000_000
    requires (fl <==> 2 < e && s[0] == 'F' && s[1] == 'L') && ScansAs(if fl then s[2..] else s, n)
    ensures ParseAlt(s, e) == AltitudeOf(fl, met, n)
  {
  }

  /** The text `t` stands as an argument: where it ends, and its first and last characters in the buffer. */
  lemma TokenChars(t: string, tail: string, e: nat, s: string)
    requires Solid(t) && Stands(t, tail, e) && s == t + tail
    ensures AtArg(s, e) && ArgEnd(s, e) == |t| && s[|t| - 1] == t[|t| - 1] && s[0] == t[0] && (|t| > 1 ==> s[1] == t[1])
  {
    ArgEndOf(t, tail, e);
  }

  /** An altitude is read exactly if it is in range; a flight level up to twenty million. */
  lemma AltitudeReads(key: Key, fl: bool, met: bool, d: string, tail: string, e: nat, t: string)
    requires d != "" && Digits(d) && Value(d) < 20_000_000 && NotDigitFirst(tail)
    requires t == (if fl then "FL" else "") + d + (if met then "M" else "") && Stands(t, tail, e)
    ensures AtArg(t + tail, e) && ParseArg(key, KAlt, t + tail, e) == AltitudeOf(fl, met, Value(d))
  {
    var s := t + tail;
    AltitudeParts(fl, met, d, tail, t, s);
    NumberScans(d, (if met then "M" else "") + tail);
    AltitudeIn(key, fl, met, tail, e, t, s, if fl then s[2..] else s, Value(d));
  }

  lemma AltitudeIn(key: Key, fl: bool, met: bool, tail: string, e: nat, t: string, s: string, r: string, n: nat)
    requires Solid(t) && Stands(t, tail, e) && s == t + tail && (t[|t| - 1] == 'M' <==> met) && n < 20_000_000
    requires (fl ==> s[..2] == "FL" && |t| > 2) && (!fl ==> IsDigit(s[0]))
    requires r == (if fl then s[2..] else s) && ScansAs(r, n)
    ensures AtArg(s, e) && ParseArg(key, KAlt, s, e) == AltitudeOf(fl, met, n)
  {
    TokenChars(t, tail, e, s);
    assert fl ==> s[..2][0] == 'F' && s[..2][1] == 'L';
    AltAt(s, e, fl, met, n);
  }

  lemma DegAt(key: Key, s: string, e: nat, tru: bool, n: nat)
    requires AtArg(s, e) && ArgEnd(s, e) > 0 && (tru <==> s[ArgEnd(s, e) - 1] == 'T') && ScansAs(s, n)
    ensures ParseArg(key, KDeg, s, e) == if n <= 360 then Good(Degrees(n, tru)) else Bad
  {
  }

  lemma DegreesParts(tru: bool, d: string, tail: string, r: string, t: string, s: string)
    requires d != "" && Digits(d) && t == d + (if tru then "T" else "") && s == t + tail
    requires r == (if tru then "T" else "") + tail
    ensures Solid(t) && (t[|t| - 1] == 'T' <==> tru) && s == d + r
  {
    SolidFrom(t);
    assert !tru ==> t[|t| - 1] == d[|d| - 1];
  }

  /** So is a direction in degrees, with T for a true one. */
  lemma DegreesReads(key: Key, tru: bool, d: string, tail: string, e: nat, t: string)
    requires d != "" && Digits(d) && Value(d) < 0x8000_0000 && NotDigitFirst(tail)
    requires t == d + (if tru then "T" else "") && Stands(t, tail, e)
    ensures AtArg(t + tail, e)
    ensures ParseArg(key, KDeg, t + tail, e) == if Value(d) <= 360 then Good(Degrees(Value(d), tru)) else Bad
  {
    DegreesIn(key, tru, d, tail, e, t, t + tail, (if tru then "T" else "") + tail);
  }

  lemma DegreesIn(key: Key, tru: bool, d: string, tail: string, e: nat, t: string, s: string, r: string)
    requires d != "" && Digits(d) && Value(d) < 0x8000_0000 && NotDigitFirst(r)
    requires t == d + (if tru then "T" else "") && Stands(t, tail, e) && s == t + tail
    requires r == (if tru then "T" else "") + tail
    ensures AtArg(s, e) && ParseArg(key, KDeg, s, e) == if Value(d) <= 360 then Good(Degrees(Value(d), tru)) else Bad
  {
    DegreesParts(tru, d, tail, r, t, s);
    NumberScans(d, r);
    TokenChars(t, tail, e, s);
    DegAt(key, s, e, tru, Value(d));
  }

  // ----- letters -----

  /** Of single letters, exactly A to Z are ATIS codes. */
  lemma AtisReads(key: Key, c: char, tail: string, e: nat)
    requires !IsSpace(c) && 0 < e <= 1 + |tail|
    ensures ParseArg(key, KAtis, [c] + tail, e) == if 'A' <= c <= 'Z' then Good(Atis(c)) else Bad
  {
  }

  /** The letters of a direction. */
  function Letters(d: Dir): string {
    match d
    case Left => "L" case Right => "R" case Either => "-"
    case North => "N" case East => "E" case South => "S" case West => "W"
    case NE => "NE" case SE => "SE" case SW => "SW" case NW => "NW"
  }

  /** A direction is read exactly if the message can give it. */
  lemma DirReads(key: Key, d: Dir, tail: string, e: nat)
    requires Stands(Letters(d), tail, e)
    ensures AtArg(Letters(d) + tail, e)
    ensures ParseArg(key, KDir, Letters(d) + tail, e) == if TakesDir(key, d) then Good(Direction(d)) else Bad
  {
    var s := Letters(d) + tail;
    assert |Letters(d)| == 1 ==> s[1] == tail[0];
    assert s[0] == Letters(d)[0];
  }

  /** TO and FROM, whole, are read as such. */
  lemma ToFromReads(key: Key, to: bool, tail: string, e: nat, t: string)
    requires t == (if to then "TO" else "FROM") && Stands(t, tail, e)
    ensures AtArg(t + tail, e) && ParseArg(key, KToFrom, t + tail, e) == Good(ToFrom(to))
  {
    ToFromBack(to, t, tail, e);
    assert (t + tail)[0] == t[0];
  }

  /** What the type of a position means; a name without one has no type. */
  lemma PosMeans(n: string)
    requires |n| < 8 && ':' !in n
    ensures ParsePos("FIX:" + n) == Good(Position(FixName(n))) && ParsePos("NAV:" + n) == Good(Position(Navaid(n)))
    ensures ParsePos("ARPT:" + n) == Good(Position(Airport(n))) && ParsePos(n) == Good(Position(Unknown(n)))
  {
    PosKey("FIX:", n);
    PosKey("NAV:", n);
    PosKey("ARPT:", n);
  }

  lemma PosKey(p: string, n: string)
    requires |p| >= 4 && p[|p| - 1] == ':'
    ensures ':' in p + n && StartsWith(p + n, p) && (p + n)[|p|..] == n && (p + n)[0] == p[0]
    ensures (p + n)[..4] == p[..4]
  {
    assert (p + n)[|p| - 1] == ':';
  }

  // ----- durations and speeds -----

  /** A duration is a number of minutes. */
  lemma DurationReads(key: Key, d: string, tail: string, e: nat)
    requires NumberAt(d, tail, e)
    ensures AtArg(d + tail, e)
    ensures ParseArg(key, KDur, d + tail, e) == Good(Time(Value(d) / 60, Value(d) % 60))
  {
    NumberScans(d, tail);
    DurAt(key, d + tail, e, Value(d));
    assert (d + tail)[0] == d[0];
  }

  lemma DurAt(key: Key, s: string, e: nat, n: nat)
    requires ScansAs(s, n) && n < 0x8000_0000
    ensures AtArg(s, e) ==> ParseArg(key, KDur, s, e) == Good(Time(n / 60, n % 60))
  {
  }

  /** A speed that does not start with M is in knots. */
  lemma KnotsRead(key: Key, d: string, tail: string, e: nat)
    requires NumberAt(d, tail, e)
    ensures AtArg(d + tail, e) && ParseArg(key, KSpd, d + tail, e) == Good(Spd(false, Value(d)))
  {
    NumberScans(d, tail);
    assert (d + tail)[0] == d[0];
    KnotsAt(key, d + tail, e, Value(d));
  }

  lemma KnotsAt(key: Key, s: string, e: nat, n: nat)
    requires AtArg(s, e) && ScansAs(s, n) && IsDigit(s[0]) && n < 0x8000_0000
    ensures ParseArg(key, KSpd, s, e) == Good(Spd(false, n))
  {
  }

  // ----- Mach numbers -----

  lemma MachAt(key: Key, s: string, e: nat, r: string, v: nat)
    requires AtArg(s, e) && 1 < e && s[0] == 'M' && r == s[1..] && Thousandths(r) == Good(v)
    ensures ParseArg(key, KSpd, s, e) == if v >= 100 then Good(Spd(true, v)) else Bad
  {
  }

  lemma TwoPlacesIn(i: string, f: string, tail: string, e: nat, t: string, s: string)
    requires Digits(i) && Digits(f) && |i| <= 6 && |f| == 2 && t == "M" + i + "." + f && Stands(t, tail, e)
    requires s == t + tail
    ensures AtArg(s, e) && 1 < e && s[0] == 'M' && Thousandths(s[1..]) == Good(Value(i) * 1000 + Value(f) * 10)
  {
    MachSplit(t, i, f);
    MachSolid(t, i, f);
    MachJoin(t, i, f, tail);
    TokenChars(t, tail, e, s);
  }

  /** A Mach number with two places is read exactly if it is at least .10. */
  lemma TwoPlacesRead(key: Key, i: string, f: string, tail: string, e: nat, t: string, s: string, v: nat)
    requires Digits(i) && Digits(f) && |i| <= 6 && |f| == 2 && t == "M" + i + "." + f && Stands(t, tail, e)
    requires s == t + tail && v == Value(i) * 1000 + Value(f) * 10
    ensures AtArg(s, e) && ParseArg(key, KSpd, s, e) == if v >= 100 then Good(Spd(true, v)) else Bad
  {
    TwoPlacesIn(i, f, tail, e, t, s);
    MachAt(key, s, e, s[1..], v);
  }

  // ----- segments -----

  /** What the type number of a segment decides, whatever reads the rest: there are DM0 to DM80 and UM0 to UM198; a
      segment without arguments has to be one of those; and only DM67 has subtypes, b to i. */
  lemma TypeDecides(read: TailReader, table: Table, isDl: bool, n: nat, d: string, r: string, e: nat)
    requires n < 0x8000_0000 && d == Dec(n) && NotDigitFirst(r) && |d| <= e < |d| + |r|
    ensures var x := ParseTyped(read, table, isDl, d + r, e);
            if n > (if isDl then 80 else 198) then x == Bad
            else if e == |d| then
              var k := Key(isDl, n, NO_SUBTYPE); x == if k in table && table[k] == [] then Good(Seg(k, [])) else Bad
            else if IsSpace(r[0]) then x == read(Key(isDl, n, NO_SUBTYPE), r, e - |d|)
            else if isDl && n == 67 && 'b' <= r[0] <= 'i' then x == read(Key(isDl, n, r[0]), r[1..], e - |d| - 1)
            else x == Bad
  {
    TypeReads(n, d, r, e);
    assert (d + r)[|d|] == r[0] && (d + r)[|d| + 1..] == r[1..];
  }

  /** A segment whose type number is too high is refused, whatever the table says. */
  lemma TypeTooHigh(table: Table, isDl: bool, n: nat, d: string, r: string, e: nat)
    requires n < 0x8000_0000 && d == Dec(n) && NotDigitFirst(r) && |d| <= e < |d| + |r|
    requires n > if isDl then 80 else 198
    ensures ParseSeg(ReadTail(table), table, (if isDl then "DM" else "UM") + (d + r), e + 2) == Bad
  {
    TypeDecides(ReadTail(table), table, isDl, n, d, r, e);
    LettersBack(ReadTail(table), table, isDl, if isDl then "DM" else "UM", d + r, e, Bad);
  }

  /** A segment has to start with DM or UM. */
  lemma OtherLettersRefused(read: TailReader, table: Table, s: string, e: nat)
    requires e < |s| && !StartsWith(s, "DM") && !StartsWith(s, "UM")
    ensures ParseSeg(read, table, s, e) == Bad
  {
  }

  /** A sixth segment is refused. */
  lemma SixthSegmentRefused(table: Table, isDl: bool, d: Draft, v: string, tail: string)
    requires |d.segs| == 5 && tail != ""
    ensures ReadFieldOf(table, isDl)(d, "MSG=" + v + tail, |"MSG=" + v|) == Bad
  {
    FieldIs(table, isDl, d, "MSG=", v, tail);
    NotLogoff("MSG=" + v + tail);
  }

  // ----- time stamps -----

  lemma PairIs(b: string)
    requires Digits(b) && |b| == 2
    ensures Value(b) == (b[0] as int - 48) * 10 + (b[1] as int - 48)
  {
    var q := b[..1];
    assert b[..|b| - 1] == q && q[..|q| - 1] == "" && q[0] == b[0];
    assert Value(q) == b[0] as int - 48;
  }

  lemma ValueThen(a: string, b: string)
    requires Digits(a) && Digits(b) && |b| == 2
    ensures Digits(a + b) && Value(a + b) == Value(a) * 100 + Value(b)
  {
    var s := a + b;
    var p := s[..|s| - 1];
    var x, y := b[0] as int - 48, b[1] as int - 48;
    assert p == a + b[..1] && p[..|p| - 1] == a && b[..1][..0] == "";
    assert s[|s| - 1] == b[1] && p[|p| - 1] == b[0];
    PairIs(b);
    assert Value(p) == Value(a) * 10 + x && Value(s) == Value(p) * 10 + y;
  }

  lemma StampAt(d: Draft, v: string, h: nat, m: nat, x: nat)
    requires h < 100 && m < 100 && x < 100 && ScanNum(v) == Text.Num(false, (h * 100 + m) * 100 + x)
    ensures ReadStamp(d, v) == if h < 24 && m < 60 && x < 60 then Good(d) else Bad
  {
    var t := (h * 100 + m) * 100 + x;
    StampParts(h, m, x, t);
    SmallNum(Text.Num(false, t), t);
  }

  lemma StampParts(h: nat, m: nat, x: nat, t: nat)
    requires h < 100 && m < 100 && x < 100 && t == (h * 100 + m) * 100 + x
    ensures t % 100 == x && t / 100 % 100 == m && t / 10000 % 100 == h && t < 1_000_000
  {
    assert t / 100 == h * 100 + m && t / 10000 == h;
  }

  /** A time stamp of six digits is accepted if and only if it is a time of day. */
  lemma StampReads(table: Table, isDl: bool, d: Draft, h: string, m: string, x: string, v: string, tail: string)
    requires Digits(h) && Digits(m) && Digits(x) && |h| == |m| == |x| == 2 && v == h + m + x
    requires tail != "" && !IsDigit(tail[0])
    ensures ReadFieldOf(table, isDl)(d, "TS=" + v + tail, |"TS=" + v|)
            == if Value(h) < 24 && Value(m) < 60 && Value(x) < 60 then Good(d) else Bad
  {
    PairValue(h);
    PairValue(m);
    PairValue(x);
    ValueThen(h, m);
    ValueThen(h + m, x);
    ScanDigits(v, tail);
    StampAt(d, v + tail, Value(h), Value(m), Value(x));
    FieldIs(table, isDl, d, "TS=", v, tail);
    NotLogoff("TS=" + v + tail);
  }

  // ----- the header rules -----

  lemma ValidatesIff(table: Table, isDl: bool, m: Msg, d: Draft)
    requires Printable(table, isDl, m) && d == LastDraft(m)
    ensures Finish(d) == if HeadersOk(m) then Good(m) else Bad
  {
    LastHolds(table, isDl, m, d);
  }

  lemma Concludes(table: Table, isDl: bool, s: string, at: nat, d: Draft, r: Result<Msg>)
    requires FindEol(s) == Eol(at, 1) && ReadFields(ReadFieldOf(table, isDl), START, s, at) == Good(d) && Finish(d) == r
    ensures r.Bad? ==> Decode(table, isDl, s) == Malformed
    ensures r.Good? ==> Decode(table, isDl, s) == Got(r.value, at + 1)
  {
  }

  /** A printed message whose parts fit is read back if and only if it obeys the header rules; otherwise it is
      malformed. */
  lemma HeaderRulesIff(table: Table, isDl: bool, m: Msg, e: string, rest: string)
    requires Printable(table, isDl, m) && MsgShaped(table, m) && e == Encode(table, m)
    ensures Decode(table, isDl, e + rest) == if HeadersOk(m) then Got(m, |e|) else Malformed
  {
    FieldsShaped(table, m);
    var l := Line(table, Fields(m));
    NewlineLast(l, rest);
    LineIsOne(table, isDl, m, l);
    EolOf(l, rest);
    LineReads(table, isDl, m, l, e + rest, "\n" + rest);
    ValidatesIff(table, isDl, m, LastDraft(m));
    Concludes(table, isDl, e + rest, |l|, LastDraft(m), Finish(LastDraft(m)));
  }

  lemma {:induction false} Untouched(d: Draft, fs: seq<Field>)
    ensures (forall i :: 0 <= i < |fs| ==> !fs[i].FPkt?) ==> AbsorbAll(d, fs).pktSeen == d.pktSeen
    ensures (forall i :: 0 <= i < |fs| ==> !fs[i].FMin?) ==> AbsorbAll(d, fs).min == d.min
    decreases |fs|
  {
    if fs != [] { Untouched(Absorb(d, fs[0]), fs[1..]); }
  }

  /** A line of headers without a packet type, or without a MIN, is malformed. */
  lemma NeedsPktAndMin(table: Table, isDl: bool, fs: seq<Field>, l: string, s: string, rest: string)
    requires AllShaped(table, fs) && RunOk(table, isDl, START, fs) && PktFirst(fs)
    requires l == Line(table, fs) && s == l + ("\n" + rest)
    requires !fs[0].FPkt? || forall i :: 0 <= i < |fs| ==> !fs[i].FMin?
    ensures Decode(table, isDl, s) == Malformed
  {
    LineBack(table, isDl, fs, "\n" + rest);
    LineClean(table, isDl, fs);
    EolOf(l, rest);
    Untouched(START, fs);
    Concludes(table, isDl, s, |l|, AbsorbAll(START, fs), Finish(AbsorbAll(START, fs)));
  }

  // ----- the text of a message -----

  /** Texts, each after a slash. */
  function Slashes(ts: seq<string>): string {
    if ts == [] then "" else "/" + ts[0] + Slashes(ts[1..])
  }

  lemma {:induction false} SlashedIs(ts: seq<string>)
    requires ts != []
    ensures Slashed(ts) == ts[0] + Slashes(ts[1..])
    decreases |ts|
  {
    if |ts| > 1 { SlashedIs(ts[1..]); }
  }

  lemma {:induction false} SlashesAppend(a: seq<string>, b: seq<string>)
    ensures Slashes(a + b) == Slashes(a) + Slashes(b)
    decreases |a|
  {
    if a == [] {
      assert a + b == b;
    } else {
      assert (a + b)[1..] == a[1..] + b;
      SlashesAppend(a[1..], b);
    }
  }

  /** A header that is printed if `b` holds. */
  function After(b: bool, t: string): string { if b then "/" + t else "" }

  function Maybe(b: bool, t: string): seq<string> { if b then [t] else [] }

  lemma SlashesThen(ts: seq<string>, x: string, b: bool, t: string)
    requires x == Slashes(ts)
    ensures Slashes(ts + Maybe(b, t)) == x + After(b, t)
  {
    SlashesAppend(ts, Maybe(b, t));
    assert [t][1..] == [];
  }

  /** MIN and MRN are written as signed numbers. */
  function NumberText(n: nat): string
    requires n < 0x1_0000_0000
  {
    if n < 0x8000_0000 then Dec(n) else "-" + Dec(0x1_0000_0000 - n)
  }

  predicate Numbered(m: Msg) { m.min < 0x1_0000_0000 && m.mrn < 0x1_0000_0000 }

  /** The headers of a message behind the first, up to its segments. */
  function HeadText(m: Msg): string
    requires Numbered(m)
  {
    After(m.to != "", "TO=" + E.EscapedInto(m.to, 0, 32))
    + After(true, "MIN=" + NumberText(m.min)) + After(m.mrn != 0xffff_ffff, "MRN=" + NumberText(m.mrn))
    + After(m.logon.Some?, "LOGON=" + if m.logon.Some? then E.EscapedInto(m.logon.value, 0, 64) else "")
    + After(m.logoff, "LOGOFF") + After(m.opts != [], "OPTIONS=" + Split.Join(m.opts, ","))
    + After(m.from != "", "FROM=" + E.EscapedInto(m.from, 0, 32))
  }

  function PktText(p: Pkt): string { match p case Cpdlc => "CPDLC" case Ping => "PING" case Pong => "PONG" }

  /** A segment: direction, number, subtype, and the arguments after blanks. */
  function SegText(table: Table, s: Seg): string
    requires SegShaped(table, s)
  {
    "MSG=" + (if s.key.isDl then "DM" else "UM") + Dec(s.key.msgType)
    + (if s.key.subtype == 0 as char then "" else [s.key.subtype]) + Blanked(ArgTexts(table[s.key], s.args))
  }

  function SegTexts(table: Table, segs: seq<Seg>): (ts: seq<string>)
    requires forall i :: 0 <= i < |segs| ==> SegShaped(table, segs[i])
    ensures |ts| == |segs| && forall i :: 0 <= i < |ts| ==> ts[i] == SegText(table, segs[i])
  {
    seq(|segs|, i requires 0 <= i < |segs| => SegText(table, segs[i]))
  }

  lemma TextsAppend(table: Table, a: seq<Field>, b: seq<Field>)
    requires AllShaped(table, a) && AllShaped(table, b)
    ensures AllShaped(table, a + b) && Texts(table, a + b) == Texts(table, a) + Texts(table, b)
  {
    var x, y, c := Texts(table, a + b), Texts(table, a) + Texts(table, b), a + b;
    forall i | 0 <= i < |x| ensures x[i] == y[i] {
      if i < |a| { assert c[i] == a[i]; } else { assert c[i] == b[i - |a|]; }
    }
  }

  lemma TextsIf(table: Table, a: seq<Field>, b: bool, f: Field, ts: seq<string>, t: string)
    requires AllShaped(table, a) && ts == Texts(table, a) && (b ==> FieldShaped(table, f) && t == FieldText(table, f))
    ensures AllShaped(table, a + If(b, f)) && Texts(table, a + If(b, f)) == ts + Maybe(b, t)
  {
    TextsAppend(table, a, If(b, f));
    if b { assert Texts(table, [f]) == [t]; }
  }

  /** One more header: its text, and what it adds. */
  lemma Adds(table: Table, a: seq<Field>, b: bool, f: Field, t: string, x: string)
    requires AllShaped(table, a) && (b ==> FieldShaped(table, f) && t == FieldText(table, f))
    requires a != [] && x == Slashes(Texts(table, a)[1..])
    ensures AllShaped(table, a + If(b, f)) && Slashes(Texts(table, a + If(b, f))[1..]) == x + After(b, t)
  {
    var ts := Texts(table, a);
    TextsIf(table, a, b, f, ts, t);
    SlashesThen(ts[1..], x, b, t);
    assert (ts + Maybe(b, t))[1..] == ts[1..] + Maybe(b, t);
  }

  /** `t` is the text of `f`, if that is printed. */
  predicate Prints(table: Table, b: bool, f: Field, t: string) {
    b ==> FieldShaped(table, f) && FieldText(table, f) == t
  }

  lemma AddsTwo(table: Table, a: seq<Field>, b: bool, f: Field, t: string, c: bool, g: Field, u: string, x: string)
    requires AllShaped(table, a) && a != [] && x == Slashes(Texts(table, a)[1..])
    requires Prints(table, b, f, t) && Prints(table, c, g, u)
    ensures AllShaped(table, a + If(b, f) + If(c, g))
    ensures Slashes(Texts(table, a + If(b, f) + If(c, g))[1..]) == x + After(b, t) + After(c, u)
  {
    Adds(table, a, b, f, t, x);
    Adds(table, a + If(b, f), c, g, u, x + After(b, t));
  }

  lemma NumbersPrint(table: Table, m: Msg)
    requires Numbered(m)
    ensures Prints(table, true, FPkt(m.pkt), "PKT=" + PktText(m.pkt))
    ensures Prints(table, m.to != "", FTo(m.to), "TO=" + E.EscapedInto(m.to, 0, 32))
    ensures Prints(table, true, FMin(m.min), "MIN=" + NumberText(m.min))
    ensures Prints(table, m.mrn != 0xffff_ffff, FMrn(m.mrn), "MRN=" + NumberText(m.mrn))
  {
  }

  lemma FirstPrints(table: Table, f: Field, t: string)
    requires Prints(table, true, f, t)
    ensures AllShaped(table, [f]) && Texts(table, [f]) == [t] && Slashes(Texts(table, [f])[1..]) == ""
  {
  }

  lemma NumbersText(table: Table, m: Msg, a: seq<Field>, t: string, u: string, v: string)
    requires Numbered(m) && a == NumberFields(m)
    requires t == "TO=" + E.EscapedInto(m.to, 0, 32) && u == "MIN=" + NumberText(m.min)
    requires v == "MRN=" + NumberText(m.mrn)
    ensures AllShaped(table, a) && Texts(table, a)[0] == "PKT=" + PktText(m.pkt)
    ensures Slashes(Texts(table, a)[1..]) == After(m.to != "", t) + After(true, u) + After(m.mrn != 0xffff_ffff, v)
  {
    var p, f, g, h := FPkt(m.pkt), FTo(m.to), FMin(m.min), FMrn(m.mrn);
    NumbersPrint(table, m);
    FirstPrints(table, p, "PKT=" + PktText(m.pkt));
    AddsTwo(table, [p], m.to != "", f, t, true, g, u, "");
    assert "" + After(m.to != "", t) == After(m.to != "", t);
    var x := After(m.to != "", t) + After(true, u);
    Adds(table, [p] + If(m.to != "", f) + If(true, g), m.mrn != 0xffff_ffff, h, v, x);
    assert Texts(table, a)[0] == FieldText(table, p);
  }

  lemma LinksPrint(table: Table, m: Msg, v: string, t: string)
    requires v == (if m.logon.Some? then m.logon.value else "")
    requires t == "LOGON=" + if m.logon.Some? then E.EscapedInto(m.logon.value, 0, 64) else ""
    ensures Prints(table, m.logon.Some?, FLogon(v), t) && Prints(table, m.logoff, FLogoff, "LOGOFF")
    ensures Prints(table, m.opts != [], FOpts(m.opts), "OPTIONS=" + Split.Join(m.opts, ","))
    ensures Prints(table, m.from != "", FFrom(m.from), "FROM=" + E.EscapedInto(m.from, 0, 32))
  {
  }

  lemma LinksText(table: Table, m: Msg, a: seq<Field>, x: string, t: string, o: string, u: string)
    requires AllShaped(table, a) && a != [] && x == Slashes(Texts(table, a)[1..])
    requires t == "LOGON=" + if m.logon.Some? then E.EscapedInto(m.logon.value, 0, 64) else ""
    requires o == "OPTIONS=" + Split.Join(m.opts, ",") && u == "FROM=" + E.EscapedInto(m.from, 0, 32)
    ensures AllShaped(table, a + LinkFields(m))
    ensures Slashes(Texts(table, a + LinkFields(m))[1..])
            == x + After(m.logon.Some?, t) + After(m.logoff, "LOGOFF") + After(m.opts != [], o) + After(m.from != "", u)
  {
    var v := if m.logon.Some? then m.logon.value else "";
    var b, l := m.logon.Some?, FLogon(v);
    LinksPrint(table, m, v, t);
    AddsTwo(table, a, b, l, t, m.logoff, FLogoff, "LOGOFF", x);
    var a1, x1 := a + If(b, l) + If(m.logoff, FLogoff), x + After(b, t) + After(m.logoff, "LOGOFF");
    AddsTwo(table, a1, m.opts != [], FOpts(m.opts), o, m.from != "", FFrom(m.from), u, x1);
    var q, r := If(m.opts != [], FOpts(m.opts)), If(m.from != "", FFrom(m.from));
    Regrouped(a, LinkFields(m), If(b, l), If(m.logoff, FLogoff), q, r);
  }

  lemma Regrouped(a: seq<Field>, l: seq<Field>, p: seq<Field>, q: seq<Field>, r: seq<Field>, s: seq<Field>)
    requires l == p + q + r + s
    ensures a + l == a + p + q + r + s
  {
    assert a + (p + q + r + s) == a + (p + q + r) + s;
    assert a + (p + q + r) == a + (p + q) + r;
    assert a + (p + q) == a + p + q;
  }

  lemma SegTextsAre(table: Table, segs: seq<Seg>)
    requires forall i :: 0 <= i < |segs| ==> SegShaped(table, segs[i])
    ensures AllShaped(table, SegFields(segs)) && Texts(table, SegFields(segs)) == SegTexts(table, segs)
  {
    forall i | 0 <= i < |segs| ensures FieldText(table, FSeg(segs[i])) == SegText(table, segs[i]) {
      OneSegText(table, segs[i]);
    }
  }

  lemma OneSegText(table: Table, s: Seg)
    requires SegShaped(table, s)
    ensures FieldText(table, FSeg(s)) == SegText(table, s)
  {
    var d, u := if s.key.isDl then "DM" else "UM", if s.key.subtype == 0 as char then "" else [s.key.subtype];
    assert "MSG=" + (d + Dec(s.key.msgType) + u) == "MSG=" + d + Dec(s.key.msgType) + u;
  }

  lemma HeadsText(table: Table, m: Msg)
    requires Numbered(m)
    ensures AllShaped(table, HeadFields(m))
    ensures var ts := Texts(table, HeadFields(m));
            ts != [] && ts[0] == "PKT=" + PktText(m.pkt) && Slashes(ts[1..]) == HeadText(m)
  {
    var a := NumberFields(m);
    var t, u, v := "TO=" + E.EscapedInto(m.to, 0, 32), "MIN=" + NumberText(m.min), "MRN=" + NumberText(m.mrn);
    NumbersText(table, m, a, t, u, v);
    var x := After(m.to != "", t) + After(true, u) + After(m.mrn != 0xffff_ffff, v);
    var l := "LOGON=" + if m.logon.Some? then E.EscapedInto(m.logon.value, 0, 64) else "";
    LinksText(table, m, a, x, l, "OPTIONS=" + Split.Join(m.opts, ","), "FROM=" + E.EscapedInto(m.from, 0, 32));
    assert (a + LinkFields(m))[0] == a[0];
  }

  lemma LineOf(table: Table, a: seq<Field>, b: seq<Field>, ts: seq<string>, us: seq<string>, x: string, y: string)
    requires AllShaped(table, a) && AllShaped(table, b) && ts == Texts(table, a) && us == Texts(table, b) && ts != []
    requires x == Slashes(ts[1..]) && y == Slashes(us)
    ensures AllShaped(table, a + b) && Line(table, a + b) == ts[0] + (x + y)
  {
    TextsAppend(table, a, b);
    LineIsSlashed(table, a + b, ts + us);
    SlashedBoth(ts, us);
  }

  lemma SlashedBoth(ts: seq<string>, us: seq<string>)
    requires ts != []
    ensures Slashed(ts + us) == ts[0] + (Slashes(ts[1..]) + Slashes(us))
  {
    SlashedIs(ts + us);
    assert (ts + us)[1..] == ts[1..] + us;
    SlashesAppend(ts[1..], us);
  }

  /** The text of every message, header by header. */
  lemma WireText(table: Table, m: Msg)
    requires MsgShaped(table, m) && Numbered(m)
    ensures Encode(table, m) == "PKT=" + PktText(m.pkt) + HeadText(m) + Slashes(SegTexts(table, m.segs)) + "\n"
  {
    HeadsText(table, m);
    SegTextsAre(table, m.segs);
    var a, b := HeadFields(m), SegFields(m.segs);
    var x, y := HeadText(m), Slashes(SegTexts(table, m.segs));
    LineOf(table, a, b, Texts(table, a), Texts(table, b), x, y);
    EndOf(table, m, "PKT=" + PktText(m.pkt), x, y);
  }

  lemma EndOf(table: Table, m: Msg, p: string, x: string, y: string)
    requires MsgShaped(table, m) && AllShaped(table, Fields(m)) && Line(table, Fields(m)) == p + (x + y)
    ensures Encode(table, m) == p + x + y + "\n"
  {
    assert p + (x + y) == p + x + y;
  }
}
