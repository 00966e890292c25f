/** Decoding an encoded message gives back the message, whatever follows it in the buffer. */
module CodecRoundTrip {
  import opened Options
  import opened Text
  import opened Codec
  import opened CodecArgs
  import E = Escape
  import Split

  // ----- segments -----

  /** What the message table promises of a row. */
  predicate RowOk(table: Table, key: Key) {
    && key in table && KindsOk(table[key]) && key.msgType <= (if key.isDl then 80 else 198)
    && (key.subtype != NO_SUBTYPE ==> key.isDl && key.msgType == 67 && 'b' <= key.subtype <= 'i' && table[key] != [])
  }

  predicate SegOk(table: Table, seg: Seg) {
    RowOk(table, seg.key) && ArgsOk(seg.key, table[seg.key], seg.args)
  }

  lemma TailBack(read: Reader, table: Table, key: Key, args: seq<Arg>, s: string, tail: string)
    requires key in table && |s| > 1 && s[0] == ' ' && !IsSpace(s[1]) && tail != ""
    requires ParseArgs(read, key, table[key], s[1..] + tail, |s| - 1) == Good(args)
    ensures ParseTail(read, table, key, s + tail, |s|) == Good(Seg(key, args))
  {
    assert (s + tail)[1..] == s[1..] + tail && (s + tail)[0] == ' ' && (s + tail)[1] == s[1];
    assert SpaceRun(s + tail, |s|) == 1 + SpaceRun((s + tail)[1..], |s| - 1);
  }

  lemma TypeReads(n: nat, d: string, rest: string, e: nat)
    requires n < TWO31 && d == Dec(n) && NotDigitFirst(rest) && |d| <= e <= |d| + |rest|
    ensures var s := d + rest; Atoi(s) == n && DigitsLen(s[..e]) == |d| && s[|d|..] == rest
  {
    var s := d + rest;
    ScanDec(n, rest);
    SmallInt(false, n);
    var r := rest[..e - |d|];
    assert s[..e] == d + r;
    DigitsLenOf(d, r);
  }

  /** What reading the text `b` behind type and subtype has to give. */
  ghost predicate BodyReads(read: TailReader, table: Table, key: Key, x: Result<Seg>, b: string, tail: string) {
    && key in table && EndsSeg(tail)
    && if table[key] == [] then b == "" && x == Good(Seg(key, []))
       else b != "" && b[0] == ' ' && read(key, b + tail, |b|) == x
  }

  /** A segment behind its letters; `r` is what follows the type. */
  lemma PlainBack(read: TailReader, table: Table, key: Key, x: Result<Seg>, d: string, r: string, e: nat, b: string,
                  tail: string)
    requires BodyReads(read, table, key, x, b, tail) && d == Dec(key.msgType) && r == b + tail && e == |d| + |b|
    requires key.msgType <= (if key.isDl then MAX_DM else MAX_UM) && key.subtype == NO_SUBTYPE
    ensures ParseTyped(read, table, key.isDl, d + r, e) == x
  {
    assert r[0] == if b == "" then tail[0] else b[0];
    TypeReads(key.msgType, d, r, e);
    assert (d + r)[|d|] == r[0];
    assert key == Key(key.isDl, key.msgType, NO_SUBTYPE);
  }

  lemma SubtypeBack(read: TailReader, table: Table, key: Key, x: Result<Seg>, d: string, r: string, e: nat,
                    b: string, tail: string)
    requires BodyReads(read, table, key, x, b, tail) && d == Dec(key.msgType) && e == |d| + 1 + |b|
    requires r != "" && r[0] == key.subtype && r[1..] == b + tail
    requires key.isDl && key.msgType == 67 && 'b' <= key.subtype <= 'i' && table[key] != []
    ensures ParseTyped(read, table, true, d + r, e) == x
  {
    TypeReads(key.msgType, d, r, e);
    assert (d + r)[|d|] == key.subtype;
    assert (d + r)[|d| + 1..] == b + tail;
  }

  lemma LettersBack(read: TailReader, table: Table, isDl: bool, p: string, s: string, e: nat, x: Result<Seg>)
    requires 0 < e < |s| && ParseTyped(read, table, isDl, s, e) == x && p == (if isDl then "DM" else "UM")
    ensures ParseSeg(read, table, p + s, e + 2) == x
  {
    assert (p + s)[..2] == p && (p + s)[2..] == s;
  }

  lemma Regroup(p: string, d: string, u: string, b: string, tail: string, r: string)
    requires r == u + b + tail
    ensures p + d + u + b + tail == p + (d + r)
    ensures |p + d + u + b| == |p| + |d| + |u| + |b|
    ensures u == "" ==> r == b + tail
    ensures |u| == 1 ==> r[0] == u[0] && r[1..] == b + tail
  {
    if u == "" { assert u + b == b; }
  }

  lemma TypedReads(read: TailReader, table: Table, key: Key, x: Result<Seg>, d: string, u: string, r: string,
                   b: string, tail: string, e: nat)
    requires BodyReads(read, table, key, x, b, tail) && RowOk(table, key) && d == Dec(key.msgType)
    requires u == (if key.subtype == NO_SUBTYPE then "" else [key.subtype])
    requires u == "" ==> r == b + tail
    requires |u| == 1 ==> r != "" && r[0] == u[0] && r[1..] == b + tail
    requires e == |d| + |u| + |b|
    ensures ParseTyped(read, table, key.isDl, d + r, e) == x
  {
    if u == "" {
      PlainBack(read, table, key, x, d, r, e, b, tail);
    } else {
      SubtypeBack(read, table, key, x, d, r, e, b, tail);
    }
  }

  lemma NamedAt(read: TailReader, table: Table, isDl: bool, p: string, s: string, e: nat, s': string, e': nat,
                x: Result<Seg>)
    requires 0 < e < |s| && ParseTyped(read, table, isDl, s, e) == x && p == (if isDl then "DM" else "UM")
    requires s' == p + s && e' == e + 2
    ensures ParseSeg(read, table, s', e') == x
  {
    LettersBack(read, table, isDl, p, s, e, x);
  }

  lemma NameReads(read: TailReader, table: Table, isDl: bool, p: string, d: string, u: string, b: string,
                  tail: string, x: Result<Seg>)
    requires d != "" && tail != "" && p == (if isDl then "DM" else "UM")
    requires ParseTyped(read, table, isDl, d + (u + b + tail), |d| + |u| + |b|) == x
    ensures ParseSeg(read, table, p + d + u + b + tail, |p + d + u + b|) == x
  {
    Regroup(p, d, u, b, tail, u + b + tail);
    NamedAt(read, table, isDl, p, d + (u + b + tail), |d| + |u| + |b|, p + d + u + b + tail, |p + d + u + b|, x);
  }

  lemma PartsRead(read: TailReader, table: Table, key: Key, x: Result<Seg>, p: string, d: string, u: string,
                  b: string, tail: string)
    requires BodyReads(read, table, key, x, b, tail) && RowOk(table, key) && d == Dec(key.msgType)
    requires u == (if key.subtype == NO_SUBTYPE then "" else [key.subtype]) && p == (if key.isDl then "DM" else "UM")
    ensures ParseSeg(read, table, p + d + u + b + tail, |p + d + u + b|) == x
  {
    Regroup(p, d, u, b, tail, u + b + tail);
    TypedReads(read, table, key, x, d, u, u + b + tail, b, tail, |d| + |u| + |b|);
    NameReads(read, table, key.isDl, p, d, u, b, tail, x);
  }

  lemma SegReads(read: TailReader, table: Table, key: Key, x: Result<Seg>, b: string, tail: string)
    requires BodyReads(read, table, key, x, b, tail) && RowOk(table, key)
    ensures ParseSeg(read, table, SegName(key) + b + tail, |SegName(key) + b|) == x
  {
    PartsRead(read, table, key, x, if key.isDl then "DM" else "UM", Dec(key.msgType),
              if key.subtype == NO_SUBTYPE then "" else [key.subtype], b, tail);
  }

  lemma BlankFirst(ts: seq<string>)
    requires ts != []
    ensures Blanked(ts) != "" && Blanked(ts) == " " + Blanked(ts)[1..]
  {
  }

  lemma ArgsParse(key: Key, ks: seq<Kind>, args: seq<Arg>, ts: seq<string>, b: string, tail: string)
    requires ks != [] && ArgsOk(key, ks, args) && ts == ArgTexts(ks, args) && EndsSeg(tail) && b == Blanked(ts)
    ensures |b| > 1 && b[0] == ' ' && !IsSpace(b[1])
            && ParseArgs(ReadArg, key, ks, b[1..] + tail, |b| - 1) == Good(args)
  {
    BlankFirst(ts);
    ArgsBack(key, ks, args, ts, b[1..], tail);
  }

  lemma ArgsReads(table: Table, key: Key, ks: seq<Kind>, args: seq<Arg>, b: string, tail: string)
    requires key in table && ks == table[key] && ks != [] && ArgsOk(key, ks, args) && EndsSeg(tail)
    requires b == Blanked(ArgTexts(ks, args))
    ensures b != "" && b[0] == ' ' && ReadTail(table)(key, b + tail, |b|) == Good(Seg(key, args))
  {
    ArgsParse(key, ks, args, ArgTexts(ks, args), b, tail);
    TailBack(ReadArg, table, key, args, b, tail);
  }

  /** A segment that is printed and read again is the same segment. */
  lemma SegBack(table: Table, seg: Seg, b: string, tail: string)
    requires SegOk(table, seg) && EndsSeg(tail) && b == Blanked(ArgTexts(table[seg.key], seg.args))
    ensures ParseSeg(ReadTail(table), table, SegName(seg.key) + b + tail, |SegName(seg.key) + b|) == Good(seg)
  {
    var ks := table[seg.key];
    if ks != [] { ArgsReads(table, seg.key, ks, seg.args, b, tail); } else { assert seg.args == []; }
    SegReads(ReadTail(table), table, seg.key, Good(seg), b, tail);
  }

  // ----- fields -----

  predicate OptOk(o: string) { |o| < 12 && forall i :: 0 <= i < |o| ==> o[i] !in {',', '/', '\n', '\r'} }

  predicate FieldOk(table: Table, f: Field) {
    match f
    case FPkt(_) => true
    case FTo(n) => NameOk(n, 8)
    case FFrom(n) => NameOk(n, 8)
    case FMin(n) => n < 0x1_0000_0000
    case FMrn(n) => n < 0x1_0000_0000
    case FLogon(t) => E.CString(t) && E.AllSurvive(t) && E.Fits(t, 0, 64)
    case FLogoff => true
    case FOpts(os) => os != [] && |Split.Join(os, ",")| < 128 && forall i :: 0 <= i < |os| ==> OptOk(os[i])
    case FSeg(seg) => SegOk(table, seg)
  }

  /** What reading a printed field does to the message so far. */
  function Absorb(d: Draft, f: Field): Draft {
    match f
    case FPkt(p) => d.(pktSeen := true, pkt := p)
    case FTo(n) => d.(to := E.UnescapedInto(d.to, E.Escaped(n), 0))
    case FFrom(n) => d.(from := E.UnescapedInto(d.from, E.Escaped(n), 0))
    case FMin(n) => d.(min := n)
    case FMrn(n) => d.(mrn := n)
    case FLogon(t) => d.(logon := Some(t))
    case FLogoff => d.(logoff := true)
    case FOpts(os) => d.(opts := PutOpts(d.opts, os, 0), numOpts := d.numOpts + Min2(|os|, 4))
    case FSeg(seg) => d.(segs := d.segs + [seg])
  }

  lemma HeaderOf(name: string, v: string, tail: string)
    requires name != "" && name[|name| - 1] == '=' && '=' !in name[..|name| - 1] && tail != ""
    ensures var s := name + v + tail;
            HeaderLen(s, |name + v|) == |name| && s[..|name|] == name && s[|name|..] == v + tail
  {
    var a := name[..|name| - 1];
    var s := name + v + tail;
    assert s == a + ['='] + (v + tail);
    FindAfter(a, '=', v + tail);
  }

  /** Reading `name` + `v` before a separator, with the first letter telling it from LOGOFF. */
  lemma FieldIs(table: Table, isDl: bool, d: Draft, name: string, v: string, tail: string)
    requires name != "" && name[|name| - 1] == '=' && '=' !in name[..|name| - 1] && tail != ""
    ensures var s := name + v + tail;
            ReadFieldOf(table, isDl)(d, s, |name + v|)
            == ReadNamed(ReadSeg(table), isDl, d, name, v + tail, |v|, StartsWith(s, "LOGOFF"))
  {
    HeaderOf(name, v, tail);
  }

  lemma NotLogoff(s: string)
    requires s != "" && s[0] != 'L'
    ensures !StartsWith(s, "LOGOFF")
  {
  }

  /** A field whose name does not start like LOGOFF. */
  lemma NamedField(table: Table, isDl: bool, d: Draft, name: string, v: string, tail: string, r: Result<Draft>)
    requires |name| > 1 && name[0] != 'L' && name[|name| - 1] == '=' && '=' !in name[..|name| - 1] && tail != ""
    requires ReadNamed(ReadSeg(table), isDl, d, name, v + tail, |v|, false) == r
    ensures ReadFieldOf(table, isDl)(d, name + v + tail, |name + v|) == r
  {
    FieldIs(table, isDl, d, name, v, tail);
    NotLogoff(name + v + tail);
  }

  lemma PktBack(table: Table, isDl: bool, d: Draft, p: Pkt, tail: string)
    requires tail != "" && tail[0] == '/'
    ensures var t := "PKT=" + PktName(p);
            ReadFieldOf(table, isDl)(d, t + tail, |t|) == Good(Absorb(d, FPkt(p)))
  {
    FieldIs(table, isDl, d, "PKT=", PktName(p), tail);
    PktReads(p, tail);
  }

  lemma PktReads(p: Pkt, tail: string)
    requires tail != "" && tail[0] == '/'
    ensures ReadPkt(PktName(p) + tail) == Some(p)
  {
    var n := PktName(p);
    var v := n + tail;
    assert v[..|n| + 1] == n + "/";
    assert v[1] == n[1] && v[0] == n[0];
  }

  lemma NumberFieldBack(table: Table, isDl: bool, d: Draft, n: nat, tail: string)
    requires n < TWO32 && EndsSeg(tail)
    ensures var t := "MIN=" + DecInt(Signed(n)); ReadFieldOf(table, isDl)(d, t + tail, |t|) == Good(Absorb(d, FMin(n)))
    ensures var t := "MRN=" + DecInt(Signed(n)); ReadFieldOf(table, isDl)(d, t + tail, |t|) == Good(Absorb(d, FMrn(n)))
  {
    FieldIs(table, isDl, d, "MIN=", DecInt(Signed(n)), tail);
    FieldIs(table, isDl, d, "MRN=", DecInt(Signed(n)), tail);
    ScanSigned(n, tail);
  }

  lemma ShortEscaped(n: string, cap: nat)
    requires E.CString(n) && E.AllSurvive(n) && cap > 0 && E.Fits(n, 0, cap)
    ensures E.EscapedInto(n, 0, cap) == E.Escaped(n) && E.Unescaped(E.Escaped(n)) == Some(n)
  {
    E.FitsExactly(n, 0, cap);
    E.RoundTripIff(n);
  }

  lemma CallsignEscaped(n: string)
    requires NameOk(n, CALLSIGN_CAP)
    ensures E.EscapedInto(n, 0, 32) == E.Escaped(n) && |E.Escaped(n)| < 32
    ensures E.Unescaped(E.Escaped(n)) == Some(n)
  {
    E.EscapedIsSafe(n);
    ShortEscaped(n, 32);
  }

  lemma NamedTo(read: SegReader, isDl: bool, d: Draft, v: string, tail: string)
    requires tail != "" && |v| < 32
    ensures ReadNamed(read, isDl, d, "TO=", v + tail, |v|, false) == Good(d.(to := E.UnescapedInto(d.to, v, 0)))
  {
    assert (v + tail)[..|v|] == v;
  }

  lemma ToBack(table: Table, isDl: bool, d: Draft, n: string, tail: string)
    requires NameOk(n, CALLSIGN_CAP) && tail != ""
    ensures var t := "TO=" + E.EscapedInto(n, 0, 32);
            ReadFieldOf(table, isDl)(d, t + tail, |t|) == Good(Absorb(d, FTo(n)))
  {
    CallsignEscaped(n);
    NamedTo(ReadSeg(table), isDl, d, E.Escaped(n), tail);
    NamedField(table, isDl, d, "TO=", E.Escaped(n), tail, Good(Absorb(d, FTo(n))));
  }

  lemma NamedFrom(read: SegReader, isDl: bool, d: Draft, v: string, tail: string)
    requires tail != "" && |v| < 32
    ensures ReadNamed(read, isDl, d, "FROM=", v + tail, |v|, false) == Good(d.(from := E.UnescapedInto(d.from, v, 0)))
  {
    assert (v + tail)[..|v|] == v;
  }

  lemma FromBack(table: Table, isDl: bool, d: Draft, n: string, tail: string)
    requires NameOk(n, CALLSIGN_CAP) && tail != ""
    ensures var t := "FROM=" + E.EscapedInto(n, 0, 32);
            ReadFieldOf(table, isDl)(d, t + tail, |t|) == Good(Absorb(d, FFrom(n)))
  {
    CallsignEscaped(n);
    NamedFrom(ReadSeg(table), isDl, d, E.Escaped(n), tail);
    NamedField(table, isDl, d, "FROM=", E.Escaped(n), tail, Good(Absorb(d, FFrom(n))));
  }

  lemma LogonBack(table: Table, isDl: bool, d: Draft, data: string, tail: string)
    requires FieldOk(table, FLogon(data)) && tail != ""
    ensures var t := "LOGON=" + E.EscapedInto(data, 0, 64);
            ReadFieldOf(table, isDl)(d, t + tail, |t|) == Good(Absorb(d, FLogon(data)))
  {
    ShortEscaped(data, 64);
    var v := E.Escaped(data);
    FieldIs(table, isDl, d, "LOGON=", v, tail);
    assert (v + tail)[..|v|] == v;
  }

  lemma LogoffBack(table: Table, isDl: bool, d: Draft, tail: string)
    requires tail != ""
    ensures ReadFieldOf(table, isDl)(d, "LOGOFF" + tail, 6) == Good(Absorb(d, FLogoff))
  {
    var s := "LOGOFF" + tail;
    assert s[..6] == "LOGOFF";
    assert s[0] == 'L' && s[1] == 'O' && s[2] == 'G' && s[3] == 'O' && s[4] == 'F' && s[5] == 'F';
    assert HeaderLen(s, 6) == 0;
    assert s[..0] == "";
  }

  lemma {:induction false} PiecesOfJoin(os: seq<string>)
    requires os != [] && forall i :: 0 <= i < |os| ==> ',' !in os[i]
    ensures Split.Pieces(Split.Join(os, ","), ",") == os
  {
    if |os| == 1 {
      Split.FindNoChar(os[0], ',');
    } else {
      var rest := Split.Join(os[1..], ",");
      var s := os[0] + "," + rest;
      Split.FindChar(os[0], ',', rest);
      assert s[..|os[0]|] == os[0] && s[|os[0]| + 1..] == rest;
      PiecesOfJoin(os[1..]);
    }
  }

  lemma {:induction false} JoinShort(os: seq<string>)
    requires forall i :: 0 <= i < |os| ==> |os[i]| < OPT_CAP
    ensures |Split.Join(os, ",")| <= OPT_CAP * |os|
  {
    if |os| > 1 { JoinShort(os[1..]); }
  }

  lemma OptsRead(d: Draft, os: seq<string>, v: string)
    requires os != [] && (forall i :: 0 <= i < |os| ==> OptOk(os[i])) && v == Split.Join(os, ",") && |v| < 128
    ensures ReadOpts(d, Trunc(v, 128)) == Absorb(d, FOpts(os))
  {
    PiecesOfJoin(os);
    OptsTaken(d, os, v);
  }

  lemma OptsTaken(d: Draft, os: seq<string>, v: string)
    requires Split.Pieces(v, ",") == os
    ensures ReadOpts(d, v) == Absorb(d, FOpts(os))
  {
  }

  lemma NamedOpts(read: SegReader, isDl: bool, d: Draft, v: string, tail: string)
    requires tail != ""
    ensures ReadNamed(read, isDl, d, "OPTIONS=", v + tail, |v|, false) == Good(ReadOpts(d, Trunc(v, 128)))
  {
    assert (v + tail)[..|v|] == v;
  }

  lemma OptsBack(table: Table, isDl: bool, d: Draft, os: seq<string>, v: string, tail: string)
    requires FieldOk(table, FOpts(os)) && tail != "" && v == Split.Join(os, ",")
    ensures ReadFieldOf(table, isDl)(d, "OPTIONS=" + v + tail, |"OPTIONS=" + v|) == Good(Absorb(d, FOpts(os)))
  {
    OptsRead(d, os, v);
    NamedOpts(ReadSeg(table), isDl, d, v, tail);
    NamedField(table, isDl, d, "OPTIONS=", v, tail, Good(Absorb(d, FOpts(os))));
  }

  lemma NamedSeg(read: SegReader, isDl: bool, d: Draft, seg: Seg, v: string, tail: string)
    requires tail != "" && read(v + tail, |v|) == Good(seg) && |d.segs| < MAX_SEGS
             && (d.segs == [] || seg.key.isDl == isDl)
    ensures ReadNamed(read, isDl, d, "MSG=", v + tail, |v|, false) == Good(Absorb(d, FSeg(seg)))
  {
  }

  lemma SegFieldNamed(table: Table, isDl: bool, d: Draft, seg: Seg, v: string, tail: string)
    requires tail != "" && ReadSeg(table)(v + tail, |v|) == Good(seg) && |d.segs| < MAX_SEGS
             && (d.segs == [] || seg.key.isDl == isDl)
    ensures ReadFieldOf(table, isDl)(d, "MSG=" + v + tail, |"MSG=" + v|) == Good(Absorb(d, FSeg(seg)))
  {
    NamedSeg(ReadSeg(table), isDl, d, seg, v, tail);
    NamedField(table, isDl, d, "MSG=", v, tail, Good(Absorb(d, FSeg(seg))));
  }

  lemma SegFieldBack(table: Table, isDl: bool, d: Draft, seg: Seg, v: string, tail: string)
    requires SegOk(table, seg) && EndsSeg(tail) && |d.segs| < MAX_SEGS && (d.segs == [] || seg.key.isDl == isDl)
    requires v == SegName(seg.key) + Blanked(ArgTexts(table[seg.key], seg.args))
    ensures ReadFieldOf(table, isDl)(d, "MSG=" + v + tail, |"MSG=" + v|) == Good(Absorb(d, FSeg(seg)))
  {
    SegFieldReads(table, seg, v, tail);
    SegFieldNamed(table, isDl, d, seg, v, tail);
  }

  lemma SegFieldReads(table: Table, seg: Seg, v: string, tail: string)
    requires SegOk(table, seg) && EndsSeg(tail) && v == SegName(seg.key) + Blanked(ArgTexts(table[seg.key], seg.args))
    ensures ReadSeg(table)(v + tail, |v|) == Good(seg)
  {
    SegBack(table, seg, Blanked(ArgTexts(table[seg.key], seg.args)), tail);
  }

  /** The segment may be added to the message so far: room is left, and it is not the other direction's. */
  predicate MayAdd(isDl: bool, d: Draft, f: Field) {
    f.FSeg? ==> |d.segs| < 5 && (d.segs == [] || f.seg.key.isDl == isDl)
  }

  /** Wherever `t` stands, and before a slash if `more` is to follow, `read` takes `d` to `d'`. */
  ghost predicate Takes(read: FieldReader, d: Draft, t: string, d': Draft, more: bool) {
    forall tail: string :: EndsSeg(tail) && (more ==> tail[0] == '/') ==> read(d, t + tail, |t|) == Good(d')
  }

  lemma PktTakes(table: Table, isDl: bool, d: Draft, p: Pkt)
    ensures Takes(ReadFieldOf(table, isDl), d, "PKT=" + PktName(p), Absorb(d, FPkt(p)), true)
  {
    forall tail: string | EndsSeg(tail) && tail[0] == '/'
      ensures ReadFieldOf(table, isDl)(d, "PKT=" + PktName(p) + tail, |"PKT=" + PktName(p)|) == Good(Absorb(d, FPkt(p)))
    {
      PktBack(table, isDl, d, p, tail);
    }
  }

  lemma NumberTakes(table: Table, isDl: bool, d: Draft, n: nat)
    requires n < TWO32
    ensures Takes(ReadFieldOf(table, isDl), d, "MIN=" + DecInt(Signed(n)), Absorb(d, FMin(n)), false)
    ensures Takes(ReadFieldOf(table, isDl), d, "MRN=" + DecInt(Signed(n)), Absorb(d, FMrn(n)), false)
  {
    var a, b := "MIN=" + DecInt(Signed(n)), "MRN=" + DecInt(Signed(n));
    forall tail: string | EndsSeg(tail)
      ensures ReadFieldOf(table, isDl)(d, a + tail, |a|) == Good(Absorb(d, FMin(n)))
      ensures ReadFieldOf(table, isDl)(d, b + tail, |b|) == Good(Absorb(d, FMrn(n)))
    {
      NumberFieldBack(table, isDl, d, n, tail);
    }
  }

  lemma NameTakes(table: Table, isDl: bool, d: Draft, n: string)
    requires NameOk(n, CALLSIGN_CAP)
    ensures Takes(ReadFieldOf(table, isDl), d, "TO=" + E.EscapedInto(n, 0, 32), Absorb(d, FTo(n)), false)
    ensures Takes(ReadFieldOf(table, isDl), d, "FROM=" + E.EscapedInto(n, 0, 32), Absorb(d, FFrom(n)), false)
  {
    var a, b := "TO=" + E.EscapedInto(n, 0, 32), "FROM=" + E.EscapedInto(n, 0, 32);
    forall tail: string | EndsSeg(tail)
      ensures ReadFieldOf(table, isDl)(d, a + tail, |a|) == Good(Absorb(d, FTo(n)))
      ensures ReadFieldOf(table, isDl)(d, b + tail, |b|) == Good(Absorb(d, FFrom(n)))
    {
      ToBack(table, isDl, d, n, tail);
      FromBack(table, isDl, d, n, tail);
    }
  }

  lemma LogonTakes(table: Table, isDl: bool, d: Draft, data: string)
    requires FieldOk(table, FLogon(data))
    ensures Takes(ReadFieldOf(table, isDl), d, "LOGON=" + E.EscapedInto(data, 0, 64), Absorb(d, FLogon(data)), false)
  {
    var a := "LOGON=" + E.EscapedInto(data, 0, 64);
    forall tail: string | EndsSeg(tail)
        ensures ReadFieldOf(table, isDl)(d, a + tail, |a|) == Good(Absorb(d, FLogon(data))) {
      LogonBack(table, isDl, d, data, tail);
    }
  }

  lemma LogoffTakes(table: Table, isDl: bool, d: Draft)
    ensures Takes(ReadFieldOf(table, isDl), d, "LOGOFF", Absorb(d, FLogoff), false)
  {
    forall tail: string | EndsSeg(tail)
        ensures ReadFieldOf(table, isDl)(d, "LOGOFF" + tail, |"LOGOFF"|) == Good(Absorb(d, FLogoff)) {
      LogoffBack(table, isDl, d, tail);
    }
  }

  lemma OptsTakes(table: Table, isDl: bool, d: Draft, os: seq<string>)
    requires FieldOk(table, FOpts(os))
    ensures Takes(ReadFieldOf(table, isDl), d, "OPTIONS=" + Split.Join(os, ","), Absorb(d, FOpts(os)), false)
  {
    var a := "OPTIONS=" + Split.Join(os, ",");
    forall tail: string | EndsSeg(tail)
        ensures ReadFieldOf(table, isDl)(d, a + tail, |a|) == Good(Absorb(d, FOpts(os))) {
      OptsBack(table, isDl, d, os, Split.Join(os, ","), tail);
    }
  }

  lemma SegTakes(table: Table, isDl: bool, d: Draft, seg: Seg, v: string)
    requires SegOk(table, seg) && MayAdd(isDl, d, FSeg(seg))
    requires v == SegName(seg.key) + Blanked(ArgTexts(table[seg.key], seg.args))
    ensures Takes(ReadFieldOf(table, isDl), d, "MSG=" + v, Absorb(d, FSeg(seg)), false)
  {
    forall tail: string | EndsSeg(tail)
      ensures ReadFieldOf(table, isDl)(d, "MSG=" + v + tail, |"MSG=" + v|) == Good(Absorb(d, FSeg(seg)))
    {
      SegFieldBack(table, isDl, d, seg, v, tail);
    }
  }

  lemma HeadFieldTakes(table: Table, isDl: bool, d: Draft, f: Field, t: string)
    requires !f.FSeg? && FieldOk(table, f) && t == FieldText(table, f)
    ensures Takes(ReadFieldOf(table, isDl), d, t, Absorb(d, f), f.FPkt?)
  {
    match f
    case FPkt(p) => PktTakes(table, isDl, d, p);
    case FTo(n) => NameTakes(table, isDl, d, n);
    case FFrom(n) => NameTakes(table, isDl, d, n);
    case FMin(n) => NumberTakes(table, isDl, d, n);
    case FMrn(n) => NumberTakes(table, isDl, d, n);
    case FLogon(data) => LogonTakes(table, isDl, d, data);
    case FLogoff => LogoffTakes(table, isDl, d);
    case FOpts(os) => OptsTakes(table, isDl, d, os);
  }

  lemma SegText(table: Table, seg: Seg) returns (v: string)
    requires SegShaped(table, seg)
    ensures v == SegName(seg.key) + Blanked(ArgTexts(table[seg.key], seg.args))
            && FieldText(table, FSeg(seg)) == "MSG=" + v
  {
    v := SegName(seg.key) + Blanked(ArgTexts(table[seg.key], seg.args));
  }

  /** A field that is printed and read again has its own effect and no other. */
  lemma FieldTakes(table: Table, isDl: bool, d: Draft, f: Field, t: string)
    requires FieldShaped(table, f) && FieldOk(table, f) && t == FieldText(table, f) && MayAdd(isDl, d, f)
    ensures Takes(ReadFieldOf(table, isDl), d, t, Absorb(d, f), f.FPkt?)
  {
    if f.FSeg? {
      var v := SegText(table, f.seg);
      SegTakes(table, isDl, d, f.seg, v);
    } else {
      HeadFieldTakes(table, isDl, d, f, t);
    }
  }

  // ----- the text of a field holds no separator -----

  predicate Clean(t: string) { forall i :: 0 <= i < |t| ==> t[i] != '/' && t[i] != '\n' && t[i] != '\r' }

  lemma CleanPlus(a: string, b: string)
    requires Clean(a) && Clean(b)
    ensures Clean(a + b)
  {
  }

  lemma SolidClean(t: string)
    requires Solid(t)
    ensures Clean(t)
  {
  }

  lemma EscapedClean(t: string)
    requires E.CString(t)
    ensures Clean(E.Escaped(t))
  {
    E.EscapedIsSafe(t);
  }

  lemma {:induction false} BlankedClean(ts: seq<string>)
    requires AllSolid(ts)
    ensures Clean(Blanked(ts))
  {
    if ts != [] {
      BlankedClean(ts[1..]);
      SolidClean(ts[0]);
      CleanPlus(" " + ts[0], Blanked(ts[1..]));
    }
  }

  lemma {:induction false} JoinClean(os: seq<string>)
    requires forall i :: 0 <= i < |os| ==> OptOk(os[i])
    ensures Clean(Split.Join(os, ","))
  {
    if |os| > 1 {
      JoinClean(os[1..]);
      CleanPlus(os[0] + ",", Split.Join(os[1..], ","));
    }
  }

  lemma SegNameClean(key: Key)
    requires key.subtype == NO_SUBTYPE || 'b' <= key.subtype <= 'i'
    ensures Clean(SegName(key))
  {
    var d := Dec(key.msgType);
    assert Clean(d);
    CleanPlus(if key.isDl then "DM" else "UM", d);
    CleanPlus((if key.isDl then "DM" else "UM") + d, if key.subtype == NO_SUBTYPE then "" else [key.subtype]);
  }

  lemma SegTextClean(table: Table, seg: Seg)
    requires SegOk(table, seg)
    ensures Clean(SegName(seg.key) + Blanked(ArgTexts(table[seg.key], seg.args)))
  {
    var ts := ArgTexts(table[seg.key], seg.args);
    ArgsSolid(seg.key, table[seg.key], seg.args, ts);
    SegNameClean(seg.key);
    BlankedClean(ts);
    CleanPlus(SegName(seg.key), Blanked(ts));
  }

  lemma ArgsSolid(key: Key, ks: seq<Kind>, args: seq<Arg>, ts: seq<string>)
    requires ArgsOk(key, ks, args) && ts == ArgTexts(ks, args)
    ensures AllSolid(ts)
  {
    forall i | 0 <= i < |ts| ensures Solid(ts[i]) { ReadArgBack(key, ks[i], args[i], ts[i]); }
  }

  lemma KeyedClean(key: string, v: string)
    requires key != "" && Clean(key) && Clean(v)
    ensures key + v != "" && Clean(key + v)
  {
  }

  lemma CallsignClean(key: string, n: string)
    requires key != "" && Clean(key) && NameOk(n, CALLSIGN_CAP)
    ensures Clean(key + E.EscapedInto(n, 0, 32))
  {
    CallsignEscaped(n);
    EscapedClean(n);
    KeyedClean(key, E.Escaped(n));
  }

  lemma HeadFieldClean(table: Table, f: Field)
    requires !f.FSeg? && FieldOk(table, f)
    ensures FieldText(table, f) != "" && Clean(FieldText(table, f))
  {
    match f
    case FPkt(p) =>
    case FTo(n) => CallsignClean("TO=", n);
    case FFrom(n) => CallsignClean("FROM=", n);
    case FMin(n) => DecSolid(Signed(n)); KeyedClean("MIN=", DecInt(Signed(n)));
    case FMrn(n) => DecSolid(Signed(n)); KeyedClean("MRN=", DecInt(Signed(n)));
    case FLogon(data) => ShortEscaped(data, 64); EscapedClean(data); KeyedClean("LOGON=", E.Escaped(data));
    case FLogoff =>
    case FOpts(os) => JoinClean(os); KeyedClean("OPTIONS=", Split.Join(os, ","));
  }

  lemma FieldClean(table: Table, f: Field)
    requires FieldShaped(table, f) && FieldOk(table, f)
    ensures FieldText(table, f) != "" && Clean(FieldText(table, f))
  {
    if f.FSeg? {
      var v := SegText(table, f.seg);
      SegTextClean(table, f.seg);
      KeyedClean("MSG=", v);
    } else {
      HeadFieldClean(table, f);
    }
  }

  // ----- the loop over fields -----

  function Slashed(ts: seq<string>): string {
    if ts == [] then "" else if |ts| == 1 then ts[0] else ts[0] + "/" + Slashed(ts[1..])
  }

  lemma SepOf(t: string, tail: string, end: nat)
    requires Clean(t) && tail != "" && |t| <= end < |t + tail| && (tail[0] == '/' || end == |t|)
    ensures SepAt(t + tail, end) == |t|
  {
    var s := t + tail;
    assert forall i :: 0 <= i < |t| ==> s[i] == t[i];
    assert s[|t|] == tail[0];
  }

  lemma LastField(read: FieldReader, d: Draft, t: string, d': Draft, tail: string)
    requires t != "" && Clean(t) && EndsSeg(tail) && Takes(read, d, t, d', false)
    ensures ReadFields(read, d, t + tail, |t|) == Good(d')
  {
    SepOf(t, tail, |t|);
  }

  lemma NextSep(t: string, u: string, s: string, e: nat)
    requires Clean(t) && e < |s| && u == t + ("/" + s)
    ensures SepAt(u, |t| + 1 + e) == |t| && u[|t| + 1..] == s
  {
    SepOf(t, "/" + s, |t| + 1 + e);
  }

  lemma TakesHere(read: FieldReader, d: Draft, t: string, d': Draft, u: string, s: string)
    requires Takes(read, d, t, d', true) && u == t + ("/" + s)
    ensures read(d, u, |t|) == Good(d')
  {
    assert EndsSeg("/" + s);
  }

  lemma NextField(read: FieldReader, d: Draft, t: string, d': Draft, u: string, s: string, e: nat)
    requires t != "" && e < |s| && |t| + 1 + e < |u| && SepAt(u, |t| + 1 + e) == |t| && u[|t| + 1..] == s
    requires read(d, u, |t|) == Good(d')
    ensures ReadFields(read, d, u, |t| + 1 + e) == ReadFields(read, d', s, e)
  {
  }

  lemma NextLine(read: FieldReader, d: Draft, t: string, d': Draft, u: string, s: string, n: nat, e: nat,
                 r: Result<Draft>)
    requires t != "" && Clean(t) && Takes(read, d, t, d', true) && u == t + ("/" + s) && e < |s| && n == |t| + 1 + e
    requires ReadFields(read, d', s, e) == r
    ensures ReadFields(read, d, u, n) == r
  {
    NextSep(t, u, s, e);
    TakesHere(read, d, t, d', u, s);
    NextField(read, d, t, d', u, s, e);
  }

  lemma LineSplit(ts: seq<string>, l: string, l': string, tail: string)
    requires |ts| > 1 && l == Slashed(ts) && l' == Slashed(ts[1..])
    ensures l + tail == ts[0] + ("/" + (l' + tail)) && |l| == |ts[0]| + 1 + |l'|
  {
  }

  ghost predicate AllTake(read: FieldReader, ds: seq<Draft>, ts: seq<string>) {
    |ds| == |ts| + 1 && forall i :: 0 <= i < |ts| ==> Takes(read, ds[i], ts[i], ds[i + 1], i + 1 < |ts|)
  }

  lemma AllTakeTail(read: FieldReader, ds: seq<Draft>, ts: seq<string>)
    requires AllTake(read, ds, ts) && ts != []
    ensures Takes(read, ds[0], ts[0], ds[1], |ts| > 1) && AllTake(read, ds[1..], ts[1..])
  {
    assert Takes(read, ds[0], ts[0], ds[0 + 1], 0 + 1 < |ts|);
    var ds', ts' := ds[1..], ts[1..];
    forall i | 0 <= i < |ts'| ensures Takes(read, ds'[i], ts'[i], ds'[i + 1], i + 1 < |ts'|) {
      assert Takes(read, ds[i + 1], ts[i + 1], ds[i + 1 + 1], i + 1 + 1 < |ts|);
    }
  }

  /** The loop over the fields of a line goes through the drafts `ds`. */
  lemma {:induction false} FieldsBack(read: FieldReader, ts: seq<string>, ds: seq<Draft>, l: string, tail: string)
    requires ts != [] && AllTake(read, ds, ts) && EndsSeg(tail)
             && forall i :: 0 <= i < |ts| ==> ts[i] != "" && Clean(ts[i])
    requires l == Slashed(ts)
    ensures ReadFields(read, ds[0], l + tail, |l|) == Good(ds[|ts|])
    decreases |ts|
  {
    AllTakeTail(read, ds, ts);
    if |ts| == 1 {
      LastField(read, ds[0], ts[0], ds[1], tail);
    } else {
      var l' := Slashed(ts[1..]);
      FieldsBack(read, ts[1..], ds[1..], l', tail);
      LineSplit(ts, l, l', tail);
      NextLine(read, ds[0], ts[0], ds[1], l + tail, l' + tail, |l|, |l'|, Good(ds[|ts|]));
    }
  }
}
