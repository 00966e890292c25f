/** How far the reads of a byte stream matter to the wire decoder. */
module WireChunks {
  import opened Options
  import opened Text
  import opened Codec
  import opened CodecArgs
  import opened CodecRoundTrip
  import opened CodecWhole
  import opened Framing
  import opened WireLocal
  import W = WireFraming

  /** No line end is followed, behind white space, by a number. */
  predicate QuietEnds(s: string) { forall i :: 0 <= i < |s| && s[i] == '\n' ==> Quiet(s, i + 1) }

  predicate CrBeforeLf(s: string) { forall i :: 0 <= i < |s| && s[i] == '\r' ==> i + 1 < |s| && s[i + 1] == '\n' }

  /** No line end is followed, behind white space, by a number; and CR comes only before LF. */
  predicate QuietStream(s: string) { QuietEnds(s) && CrBeforeLf(s) }

  ghost predicate StillEnds(q: Test, s: string) { forall i :: 0 <= i < |s| && s[i] == '\n' ==> Still(q, s, i + 1) }

  lemma StillBehind(q: Test, s: string, k: nat, i: nat)
    requires StillEnds(q, s) && k + i < |s| && s[k + i] == '\n'
    ensures Still(q, s[k..], i + 1)
  {
    StillTail(q, s, k, i + 1);
  }

  lemma StillEndsTail(q: Test, s: string, u: string, k: nat)
    requires StillEnds(q, s) && k <= |s| && u == s[k..]
    ensures StillEnds(q, u)
  {
    forall i | 0 <= i < |u| && u[i] == '\n' ensures Still(q, u, i + 1) { StillBehind(q, s, k, i); }
  }

  lemma QuietEndsTail(s: string, u: string, k: nat)
    requires QuietEnds(s) && k <= |s| && u == s[k..]
    ensures QuietEnds(u)
  {
    assert StillEnds(CalmTest(), s);
    StillEndsTail(CalmTest(), s, u, k);
  }

  lemma QuietStreamTail(s: string, k: nat)
    requires QuietStream(s) && k <= |s|
    ensures QuietStream(s[k..])
  {
    QuietEndsTail(s, s[k..], k);
    CrTail(s, s[k..], k);
  }

  lemma CrTail(s: string, u: string, k: nat)
    requires CrBeforeLf(s) && k <= |s| && u == s[k..]
    ensures CrBeforeLf(u)
  {
    assert forall i :: 0 <= i < |u| ==> u[i] == s[k + i];
  }

  /** The first line of a prefix is the first line of the stream. */
  lemma PrefixLine(s: string, p: string, n: nat)
    requires p <= s && n < |p| && p[n] == '\n' && forall i :: 0 <= i < n ==> p[i] != '\n'
    ensures SameLine(p, s, n)
  {
  }

  lemma PrefixQuiet(s: string, p: string, n: nat)
    requires QuietEnds(s) && p <= s && n < |p| && p[n] == '\n'
    ensures Quiet(s, n + 1) && Quiet(p, n + 1)
  {
    assert s[n] == '\n' && p == s[..|p|];
    QuietPrefix(s, n + 1, |p|);
  }

  /** Where a read may end before the first LF there is no CR yet either. */
  lemma NoCrYet(s: string, j: nat)
    requires CrBeforeLf(s) && j <= |s| && MayCut(s[..j]) && '\n' !in s[..j]
    ensures '\r' !in s[..j]
  {
    forall i | 0 <= i < j ensures s[..j][i] != '\r' {
      assert s[..j][i] == s[i];
      assert i + 1 < j ==> s[..j][i + 1] == s[i + 1] && s[..j][i + 1] in s[..j];
    }
  }

  lemma LineFirm(table: Table, isDl: bool, s: string, p: string, n: nat)
    requires QuietEnds(s) && p <= s && n < |p| && p[n] == '\n' && forall i :: 0 <= i < n ==> p[i] != '\n'
    ensures W.WireDec(table, isDl)(p) == W.WireDec(table, isDl)(s)
  {
    PrefixLine(s, p, n);
    PrefixQuiet(s, p, n);
    LineIsLocal(table, isDl, p, s, n);
  }

  lemma QuietIsFirm(table: Table, isDl: bool, s: string, j: nat)
    requires QuietStream(s) && j <= |s| && MayCut(s[..j])
    ensures var dec := W.WireDec(table, isDl); dec(s[..j]) == Need || dec(s[..j]) == dec(s)
  {
    var p := s[..j];
    var n := Find(p, '\n');
    if n == |p| {
      NoCrYet(s, j);
      W.NoEolNeeds(table, isDl, p);
    } else {
      LineFirm(table, isDl, s, p, n);
    }
  }

  lemma {:induction false} QuietIsSturdy(table: Table, isDl: bool, s: string)
    requires QuietStream(s)
    ensures Sane(W.WireDec(table, isDl)) && Sturdy(W.WireDec(table, isDl), s)
    decreases |s|
  {
    var dec := W.WireDec(table, isDl);
    W.WireIsSane(table, isDl);
    forall j | 0 <= j <= |s| && MayCut(s[..j]) ensures dec(s[..j]) == Need || dec(s[..j]) == dec(s) {
      QuietIsFirm(table, isDl, s, j);
    }
    if dec(s).One? {
      QuietStreamTail(s, dec(s).len);
      QuietIsSturdy(table, isDl, s[dec(s).len..]);
    }
  }

  /** Chunking independence of the wire decoder: the messages taken off a quiet stream of lines that end in LF or CR
      LF, what is left of it and whether the session ends at a malformed line are the same however the bytes are cut
      into reads, as long as no read ends between CR and LF. */
  lemma QuietStreamsArriveAlike(table: Table, isDl: bool, chunks: seq<string>)
    requires QuietStream(Concat(chunks)) && Unparted(chunks)
    ensures Sane(W.WireDec(table, isDl))
    ensures Alike(Feed(W.WireDec(table, isDl), "", chunks), Drain(W.WireDec(table, isDl), Concat(chunks)))
  {
    QuietIsSturdy(table, isDl, Concat(chunks));
    ChunkingIrrelevant(W.WireDec(table, isDl), chunks);
  }

  // ----- the condition is exact: two lines that end in a blank number -----

  const ZERO := "MIN=" + DecInt(Signed(0))

  /** The message behind its first two headers. */
  function Begun(p: Pkt): Draft { START.(pktSeen := true, pkt := p, min := 0) }

  function TwoHeaders(p: Pkt): string { "PKT=" + PktName(p) + ("/" + (ZERO + "/")) }

  lemma ZeroTakes(table: Table, isDl: bool, d: Draft)
    ensures Takes(ReadFieldOf(table, isDl), d, ZERO, d.(min := 0), true) && Clean(ZERO) && ZERO != ""
  {
    NumberTakes(table, isDl, d, 0);
    FieldClean(table, FMin(0));
  }

  lemma HeadersTake(table: Table, isDl: bool, p: Pkt, t: string)
    requires t == "PKT=" + PktName(p)
    ensures TakesHeaders(ReadFieldOf(table, isDl), p, t)
  {
    PktTakes(table, isDl, START, p);
    FieldClean(table, FPkt(p));
    ZeroTakes(table, isDl, START.(pktSeen := true, pkt := p));
  }

  lemma LastOnLine(read: FieldReader, d: Draft, u: string, n: nat, r: Result<Draft>)
    requires 0 < n < |u| && SepAt(u, n) == n && read(d, u, n) == r
    ensures ReadFields(read, d, u, n) == r
  {
  }

  lemma TwoLeft(read: FieldReader, d1: Draft, d2: Draft, z: string, w: string, tail: string, v: string, e: nat,
                x: Result<Draft>)
    requires z != "" && Clean(z) && Takes(read, d1, z, d2, true) && w != "" && Clean(w) && tail != ""
    requires read(d2, w + tail, |w|) == x && v == z + ("/" + (w + tail)) && e == |z| + 1 + |w|
    ensures e < |v| && ReadFields(read, d1, v, e) == x
  {
    SepOf(w, tail, |w|);
    LastOnLine(read, d2, w + tail, |w|, x);
    NextLine(read, d1, z, d2, v, w + tail, e, |w|, x);
  }

  /** A line of three headers, `t`, `z` and `w`, the last of which decides; `v` is the line behind the first. */
  lemma ThreeHeaders(read: FieldReader, d: Draft, d1: Draft, d2: Draft, t: string, z: string, w: string, tail: string,
                     v: string, e: nat, s: string, n: nat, x: Result<Draft>)
    requires t != "" && Clean(t) && Takes(read, d, t, d1, true) && z != "" && Clean(z) && Takes(read, d1, z, d2, true)
    requires w != "" && Clean(w) && tail != "" && read(d2, w + tail, |w|) == x
    requires v == z + ("/" + (w + tail)) && e == |z| + 1 + |w| && s == t + ("/" + v) && n == |t| + 1 + e
    ensures ReadFields(read, d, s, n) == x
  {
    TwoLeft(read, d1, d2, z, w, tail, v, e, x);
    NextLine(read, d, t, d1, s, v, n, e, x);
  }

  /** The line of the first two headers and `w`. */
  function LineWith(p: Pkt, w: string): string { TwoHeaders(p) + w }

  lemma LineParts(p: Pkt, t: string, w: string, tail: string, s: string)
    requires t == "PKT=" + PktName(p) && s == LineWith(p, w) + tail
    ensures var v := ZERO + ("/" + (w + tail)); s == t + ("/" + v) && |LineWith(p, w)| == |t| + 1 + (|ZERO| + 1 + |w|)
  {
  }

  /** The reader takes the first two headers. */
  ghost predicate TakesHeaders(read: FieldReader, p: Pkt, t: string) {
    && Takes(read, START, t, START.(pktSeen := true, pkt := p), true)
    && Takes(read, START.(pktSeen := true, pkt := p), ZERO, Begun(p), true)
    && t != "" && Clean(t) && ZERO != "" && Clean(ZERO)
  }

  lemma LineReads(read: FieldReader, p: Pkt, t: string, w: string, tail: string, s: string, n: nat, x: Result<Draft>)
    requires t == "PKT=" + PktName(p) && TakesHeaders(read, p, t)
    requires w != "" && Clean(w) && tail != "" && s == LineWith(p, w) + tail && n == |LineWith(p, w)|
    requires read(Begun(p), w + tail, |w|) == x
    ensures ReadFields(read, START, s, n) == x
  {
    LineParts(p, t, w, tail, s);
    ThreeHeaders(read, START, START.(pktSeen := true, pkt := p), Begun(p), t, ZERO, w, tail,
                 ZERO + ("/" + (w + tail)), |ZERO| + 1 + |w|, s, n, x);
  }

  lemma FieldsRead(table: Table, isDl: bool, p: Pkt, w: string, tail: string, s: string, n: nat, x: Result<Draft>)
    requires w != "" && Clean(w) && tail != "" && s == LineWith(p, w) + tail && n == |LineWith(p, w)|
    requires ReadFieldOf(table, isDl)(Begun(p), w + tail, |w|) == x
    ensures ReadFields(ReadFieldOf(table, isDl), START, s, n) == x
  {
    var t := "PKT=" + PktName(p);
    HeadersTake(table, isDl, p, t);
    LineReads(ReadFieldOf(table, isDl), p, t, w, tail, s, n, x);
  }

  lemma LineIsOne(p: Pkt, w: string)
    requires Clean(w)
    ensures OneLine(LineWith(p, w))
  {
    HeadersClean(p);
    OneLinePlus(TwoHeaders(p), w);
  }

  /** The decoder's verdict on such a line, before the text `r`. */
  lemma LineDecides(table: Table, isDl: bool, p: Pkt, w: string, r: string, s: string, x: Result<Draft>)
    requires w != "" && Clean(w) && s == LineWith(p, w) + ("\n" + r)
    requires ReadFieldOf(table, isDl)(Begun(p), w + ("\n" + r), |w|) == x
    ensures var dec := W.WireDec(table, isDl);
            && (x.Bad? ==> dec(s) == Halt(true)) && (x.Undef? ==> dec(s) == Halt(false))
            && (x.Good? && Finish(x.value).Good? ==> dec(s) == One(Finish(x.value).value, |LineWith(p, w)| + 1))
  {
    LineIsOne(p, w);
    EolOf(LineWith(p, w), r);
    FieldsRead(table, isDl, p, w, "\n" + r, s, |LineWith(p, w)|, x);
    W.DecodedAs(table, isDl, s, x, |LineWith(p, w)|, 1);
  }

  lemma HeadersClean(p: Pkt)
    ensures OneLine(TwoHeaders(p))
  {
    FieldClean(map[], FMin(0));
    FieldClean(map[], FPkt(p));
  }

  lemma OneLinePlus(a: string, b: string)
    requires OneLine(a) && OneLine(b)
    ensures OneLine(a + b)
  {
  }

  // ----- a blank MRN -----

  const BLANK_MRN := LineWith(Pong, "MRN=")

  function PongOf(mrn: nat): Codec.Msg { Codec.Msg(Pong, 0, mrn, "", "", None, false, [], []) }

  lemma NamedMrn(read: SegReader, isDl: bool, d: Draft, v: string, n: nat, logoff: bool)
    requires n < |v|
    ensures ReadNamed(read, isDl, d, "MRN=", v, n, logoff)
            == if ScanNum(v).NoNum? then Bad else Good(d.(mrn := AsUnsigned(ScanNum(v))))
  {
  }

  lemma BlankMrnField(table: Table, isDl: bool, d: Draft, u: string, tail: string)
    requires tail != "" && u == "MRN=" + tail
    ensures ReadFieldOf(table, isDl)(d, u, 4)
            == if ScanNum(tail).NoNum? then Bad else Good(d.(mrn := AsUnsigned(ScanNum(tail))))
  {
    assert "MRN=" + "" == "MRN=" && "" + tail == tail;
    FieldIs(table, isDl, d, "MRN=", "", tail);
    NamedMrn(ReadSeg(table), isDl, d, tail, 0, StartsWith(u, "LOGOFF"));
  }

  lemma PongFinishes(mrn: nat)
    ensures Finish(Begun(Pong).(mrn := mrn)) == Good(PongOf(mrn))
  {
    CallsignHeld("", BLANK);
  }

  /** A blank MRN at the end of a line takes its number from what follows. */
  lemma BlankMrnDecodes(table: Table, isDl: bool, r: string, s: string)
    requires s == BLANK_MRN + ("\n" + r)
    ensures var num := ScanNum("\n" + r);
            W.WireDec(table, isDl)(s)
            == if num.NoNum? then Halt(true) else One(PongOf(AsUnsigned(num)), |BLANK_MRN| + 1)
  {
    var tail := "\n" + r;
    var num := ScanNum(tail);
    BlankMrnField(table, isDl, Begun(Pong), "MRN=" + tail, tail);
    if num.Num? { PongFinishes(AsUnsigned(num)); }
    LineDecides(table, isDl, Pong, "MRN=", r, s, ReadFieldOf(table, isDl)(Begun(Pong), "MRN=" + tail, 4));
  }

  // ----- a blank Mach number -----

  /** A row of the message table that takes a speed and nothing else, such as UM106. */
  predicate SpeedRow(table: Table, k: Key) { RowOk(table, k) && table[k] == [KSpd] }

  function MachField(k: Key): string { "MSG=" + (SegName(k) + " M ") }

  function BlankMach(k: Key): string { LineWith(Cpdlc, MachField(k)) }

  function SpeedOf(k: Key, v: nat): Seg { Seg(k, [Spd(true, v)]) }

  function MachMsg(k: Key, v: nat): Codec.Msg {
    Codec.Msg(Cpdlc, 0, INVALID_SEQ, "", "", None, false, [], [SpeedOf(k, v)])
  }

  /** What becomes of a segment with a Mach number of `v` thousandths. */
  function MachSeg(k: Key, v: Result<nat>): Result<Seg> {
    if v.Undef? then Undef else if v.Bad? || v.value < 100 then Bad else Good(SpeedOf(k, v.value))
  }

  lemma BlankMachArg(k: Key, s: string, tail: string)
    requires tail != "" && s == "M " + tail
    ensures var v := Thousandths(" " + tail);
            ReadArg(k, KSpd, s, 2)
            == if v.Undef? then Undef else if v.Bad? || v.value < 100 then Bad else Good(Taken(Spd(true, v.value), 2))
  {
    assert s[0] == 'M' && s[1] == ' ' && s[1..] == " " + tail;
    assert ArgEnd(s, 2) == 1;
    assert SpaceRun(s[1..], 1) == 1 + SpaceRun(s[1..][1..], 0);
  }

  /** A segment with one argument that reaches to its end. */
  lemma OneArg(read: Reader, table: Table, key: Key, k: Kind, s: string, u: string, e: nat, t: Result<Taken>,
               x: Result<Seg>)
    requires key in table && table[key] == [k] && 0 < e < |u| && s == " " + u && !IsSpace(u[0])
    requires t == read(key, k, u, e) && (t.Good? ==> t.value.next == e)
    requires x == if t.Undef? then Undef else if t.Bad? then Bad else Good(Seg(key, [t.value.arg]))
    ensures ParseTail(read, table, key, s, e + 1) == x
  {
    assert s[0] == ' ' && s[1..] == u;
    assert SpaceRun(s, e + 1) == 1 + SpaceRun(s[1..], e);
    assert [k][1..] == [];
    var args := ParseArgs(read, key, [k], u, e);
    assert t.Good? ==> [t.value.arg] + [] == [t.value.arg];
    TailOf(read, table, key, s, e + 1, 1, args, x);
  }

  lemma BlankMachTail(table: Table, k: Key, s: string, tail: string)
    requires SpeedRow(table, k) && tail != "" && s == " M " + tail
    ensures ReadTail(table)(k, s, 3) == MachSeg(k, Thousandths(" " + tail))
  {
    var u := "M " + tail;
    assert s == " " + u && u[0] == 'M';
    BlankMachArg(k, u, tail);
    OneArg(ReadArg, table, k, KSpd, s, u, 2, ReadArg(k, KSpd, u, 2), MachSeg(k, Thousandths(" " + tail)));
  }

  lemma BlankMachSeg(table: Table, k: Key, v: string, tail: string)
    requires SpeedRow(table, k) && EndsSeg(tail) && v == SegName(k) + " M "
    ensures ReadSeg(table)(v + tail, |v|) == MachSeg(k, Thousandths(" " + tail))
  {
    BlankMachTail(table, k, " M " + tail, tail);
    SegReads(ReadTail(table), table, k, MachSeg(k, Thousandths(" " + tail)), " M ", tail);
  }

  function FieldOfSeg(d: Draft, x: Result<Seg>): Result<Draft> {
    if x.Undef? then Undef else if x.Bad? then Bad else Good(d.(segs := [x.value]))
  }

  lemma NamedFirstSeg(read: SegReader, isDl: bool, d: Draft, v: string, tail: string)
    requires tail != "" && d.segs == []
    ensures ReadNamed(read, isDl, d, "MSG=", v + tail, |v|, false) == FieldOfSeg(d, read(v + tail, |v|))
  {
    var x := read(v + tail, |v|);
    if x.Good? { assert d.segs + [x.value] == [x.value]; }
  }

  lemma FirstSegField(table: Table, isDl: bool, d: Draft, v: string, tail: string, x: Result<Seg>)
    requires tail != "" && d.segs == [] && ReadSeg(table)(v + tail, |v|) == x
    ensures ReadFieldOf(table, isDl)(d, "MSG=" + v + tail, |"MSG=" + v|) == FieldOfSeg(d, x)
  {
    NamedFirstSeg(ReadSeg(table), isDl, d, v, tail);
    NamedField(table, isDl, d, "MSG=", v, tail, FieldOfSeg(d, x));
  }

  lemma MachClean(k: Key)
    requires k.subtype == NO_SUBTYPE || 'b' <= k.subtype <= 'i'
    ensures MachField(k) != "" && Clean(MachField(k))
  {
    SegNameClean(k);
    CleanPlus(SegName(k), " M ");
    CleanPlus("MSG=", SegName(k) + " M ");
  }

  lemma BlankMachField(table: Table, isDl: bool, k: Key, w: string, tail: string, x: Result<Seg>)
    requires SpeedRow(table, k) && EndsSeg(tail) && w == MachField(k) && x == MachSeg(k, Thousandths(" " + tail))
    ensures ReadFieldOf(table, isDl)(Begun(Cpdlc), w + tail, |w|) == FieldOfSeg(Begun(Cpdlc), x)
  {
    var v := SegName(k) + " M ";
    BlankMachSeg(table, k, v, tail);
    FirstSegField(table, isDl, Begun(Cpdlc), v, tail, x);
  }

  lemma MachFinishes(k: Key, v: nat)
    ensures Finish(Begun(Cpdlc).(segs := [SpeedOf(k, v)])) == Good(MachMsg(k, v))
  {
    CallsignHeld("", BLANK);
  }

  lemma MachDecides(table: Table, isDl: bool, k: Key, r: string, s: string, v: Result<nat>)
    requires SpeedRow(table, k) && s == BlankMach(k) + ("\n" + r)
    requires ReadFieldOf(table, isDl)(Begun(Cpdlc), MachField(k) + ("\n" + r), |MachField(k)|)
             == FieldOfSeg(Begun(Cpdlc), MachSeg(k, v))
    ensures W.WireDec(table, isDl)(s)
            == if v.Undef? then Halt(false)
               else if v.Bad? || v.value < 100 then Halt(true) else One(MachMsg(k, v.value), |BlankMach(k)| + 1)
  {
    var x := MachSeg(k, v);
    MachClean(k);
    if x.Good? { MachFinishes(k, v.value); }
    LineDecides(table, isDl, Cpdlc, MachField(k), r, s, FieldOfSeg(Begun(Cpdlc), x));
  }

  /** A blank Mach number at the end of a line takes its value from what follows. */
  lemma BlankMachDecodes(table: Table, isDl: bool, k: Key, r: string, s: string)
    requires SpeedRow(table, k) && s == BlankMach(k) + ("\n" + r)
    ensures var v := Thousandths(" " + ("\n" + r));
            W.WireDec(table, isDl)(s)
            == if v.Undef? then Halt(false)
               else if v.Bad? || v.value < 100 then Halt(true) else One(MachMsg(k, v.value), |BlankMach(k)| + 1)
  {
    var v := Thousandths(" " + ("\n" + r));
    BlankMachField(table, isDl, k, MachField(k), "\n" + r, MachSeg(k, v));
    MachDecides(table, isDl, k, r, s, v);
  }

  // ----- exactly which texts may follow a line -----

  /** What the decoder makes of a line does not depend on the text `r` behind it. */
  ghost predicate Unmoved(table: Table, isDl: bool, l: string, r: string) {
    W.WireDec(table, isDl)(l + ("\n" + r)) == W.WireDec(table, isDl)(l + "\n")
  }

  lemma LineThen(l: string, r: string)
    requires OneLine(l) && Quiet(r, 0)
    ensures var s := l + ("\n" + r); SameLine(s, l + "\n", |l|) && Quiet(s, |l| + 1)
  {
    var s := l + ("\n" + r);
    assert s[|l| + 1..] == r;
    QuietTail(s, |l| + 1, 0);
  }

  /** Behind a blank and a line end, the text is read as it would be alone. */
  lemma BlankScans(r: string)
    ensures ScanNum("\n" + r) == ScanNum(r) && Thousandths(" " + ("\n" + r)) == Thousandths(r)
  {
    var s, t := "\n" + r, " " + ("\n" + r);
    assert s[0] == '\n' && s[1..] == r && t[0] == ' ' && t[1..] == s;
    SpaceScans(s);
    SpaceScans(t);
  }

  lemma NothingScans()
    ensures ScanNum("") == NoNum && Thousandths("") == Good(0)
  {
  }

  lemma MrnBefore(table: Table, isDl: bool, r: string, s: string)
    requires s == BLANK_MRN + ("\n" + r)
    ensures W.WireDec(table, isDl)(s) == Halt(true) <==> ScanNum(r) == NoNum
  {
    BlankScans(r);
    BlankMrnDecodes(table, isDl, r, s);
  }

  lemma MachBefore(table: Table, isDl: bool, k: Key, r: string, s: string)
    requires SpeedRow(table, k) && s == BlankMach(k) + ("\n" + r)
    ensures W.WireDec(table, isDl)(s) == Halt(true) <==> Refused(r)
  {
    BlankScans(r);
    BlankMachDecodes(table, isDl, k, r, s);
    MachNeverBad(r);
  }

  lemma MachNeverBad(r: string)
    ensures !Thousandths(r).Bad?
  {
  }

  /** For a text that goes on with a number, a line that is malformed alone but not before that text. */
  lemma LoudLine(table: Table, isDl: bool, k: Key, r: string) returns (l: string)
    requires SpeedRow(table, k) && !Quiet(r, 0)
    ensures OneLine(l) && W.WireDec(table, isDl)(l + "\n") == Halt(true)
    ensures W.WireDec(table, isDl)(l + ("\n" + r)) != Halt(true)
  {
    QuietScans(r);
    NothingScans();
    assert "\n" + "" == "\n";
    if ScanNum(r) != NoNum {
      l := BLANK_MRN;
      LineIsOne(Pong, "MRN=");
      MrnBefore(table, isDl, r, l + ("\n" + r));
      MrnBefore(table, isDl, "", l + "\n");
    } else {
      l := BlankMach(k);
      MachClean(k);
      LineIsOne(Cpdlc, MachField(k));
      MachBefore(table, isDl, k, r, l + ("\n" + r));
      MachBefore(table, isDl, k, "", l + "\n");
    }
  }

  /** Exactly which texts may follow: no line whatever is read differently because of `r` if and only if `r` does
      not go on, behind white space, with an integer or an acceptable Mach number. */
  lemma QuietIff(table: Table, isDl: bool, k: Key, r: string)
    requires SpeedRow(table, k)
    ensures Quiet(r, 0) <==> forall l: string :: OneLine(l) ==> Unmoved(table, isDl, l, r)
  {
    if Quiet(r, 0) {
      forall l: string | OneLine(l) ensures Unmoved(table, isDl, l, r) { QuietUnmoved(table, isDl, l, r); }
    } else {
      var l := LoudLine(table, isDl, k, r);
      assert !Unmoved(table, isDl, l, r);
    }
  }

  lemma QuietUnmoved(table: Table, isDl: bool, l: string, r: string)
    requires OneLine(l) && Quiet(r, 0)
    ensures Unmoved(table, isDl, l, r)
  {
    LineThen(l, r);
    NoneBehind(l + "\n", |l| + 1);
    LineIsLocal(table, isDl, l + ("\n" + r), l + "\n", |l|);
    SameVerdict(table, isDl, l + ("\n" + r), l + "\n");
  }

  lemma SameVerdict(table: Table, isDl: bool, s: string, t: string)
    requires Decode(table, isDl, s) == Decode(table, isDl, t)
    ensures W.WireDec(table, isDl)(s) == W.WireDec(table, isDl)(t)
  {
  }

  lemma NoneBehind(s: string, k: nat)
    requires k >= |s|
    ensures Quiet(s, k)
  {
  }

  /** For each text that does go on with a number there is a stream whose cut matters: a line that ends in a blank
      number is malformed when it arrives alone, but takes its number from the text when that is already there. */
  lemma LoudTextsMatter(table: Table, isDl: bool, k: Key, r: string) returns (l: string)
    requires SpeedRow(table, k) && !Quiet(r, 0) && '\r' !in r
    ensures OneLine(l) && Sane(W.WireDec(table, isDl)) && !Independent(W.WireDec(table, isDl), l + ("\n" + r))
  {
    l := LoudLine(table, isDl, k, r);
    var a, s := l + "\n", l + ("\n" + r);
    assert s == a + r && s[..|a|] == a;
    W.WireNotIndependent(table, isDl, a, s);
  }

  lemma EightFive(t: string)
    requires t == "85\n"
    ensures DigitsLen(t) == 2 && Places(t, 2) && Value(t[..2]) == 85
  {
    var d := "85";
    assert t == d + "\n";
    DigitsLenOf(d, "\n");
    assert t[..2] == d && d[..1] == "8" && "8"[..0] == "";
    assert Value("8") == 8;
  }

  lemma PointEightFive(s: string)
    requires s == ".85\n"
    ensures Thousandths(s) == Good(850)
  {
    assert s[0] == '.' && s[1..] == "85\n";
    EightFive(s[1..]);
    PointDecimal(s, s[1..], 2);
    CalmIff(s);
  }

  /** The input: a blank Mach number, and .85 on the next line. */
  lemma BlankMachReadsOn(table: Table, isDl: bool, k: Key, r: string)
    requires SpeedRow(table, k) && r == ".85\n"
    ensures W.WireDec(table, isDl)(BlankMach(k) + "\n") == Halt(true)
    ensures W.WireDec(table, isDl)(BlankMach(k) + ("\n" + r)) == One(MachMsg(k, 850), |BlankMach(k)| + 1)
  {
    PointEightFive(r);
    BlankScans(r);
    BlankScans("");
    NothingScans();
    assert "\n" + "" == "\n";
    BlankMachDecodes(table, isDl, k, r, BlankMach(k) + ("\n" + r));
    BlankMachDecodes(table, isDl, k, "", BlankMach(k) + "\n");
  }
}
