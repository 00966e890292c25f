/** The whole-message round trip. */
module CodecWhole {
  import opened Options
  import opened Text
  import opened Codec
  import opened CodecArgs
  import opened CodecRoundTrip
  import E = Escape

  /** Messages whose parts can be printed without loss: names are 7-bit and short, numbers fit 32 bits, at most four
      options and five segments. */
  predicate PartsFit(table: Table, m: Msg) {
    && NameOk(m.to, 8) && NameOk(m.from, 8) && m.min <= 0xffff_ffff && m.mrn <= 0xffff_ffff
    && (m.logon.Some? ==> FieldOk(table, FLogon(m.logon.value)))
    && |m.opts| <= 4 && (forall i :: 0 <= i < |m.opts| ==> OptOk(m.opts[i]))
    && |m.segs| <= 5 && (forall i :: 0 <= i < |m.segs| ==> SegOk(table, m.segs[i]))
  }

  /** Such messages that also obey the header rules of the format. */
  predicate PartsOk(table: Table, m: Msg) { PartsFit(table, m) && HeadersOk(m) }

  /** All segments but the first are of the reader's direction. */
  predicate Directed(isDl: bool, segs: seq<Seg>) { forall i :: 1 <= i < |segs| ==> segs[i].key.isDl == isDl }

  predicate Printable(table: Table, isDl: bool, m: Msg) { PartsFit(table, m) && Directed(isDl, m.segs) }

  predicate MsgOk(table: Table, isDl: bool, m: Msg) { PartsOk(table, m) && Directed(isDl, m.segs) }

  /** There is a MIN. LOGON and LOGOFF exclude each other and need a sender; other CPDLC messages have segments,
      PING and PONG none, and PING no MRN. */
  predicate HeadersOk(m: Msg) {
    && m.min != 0xffff_ffff
    && (m.logon.Some? || m.logoff ==> !(m.logon.Some? && m.logoff) && m.from != "")
    && (m.logon.None? && !m.logoff ==>
          if m.pkt == Cpdlc then m.segs != [] else m.segs == [] && (m.pkt == Ping ==> m.mrn == 0xffff_ffff))
  }

  // ----- the drafts a line leads through -----

  function AbsorbAll(d: Draft, fs: seq<Field>): Draft
    decreases |fs|
  {
    if fs == [] then d else AbsorbAll(Absorb(d, fs[0]), fs[1..])
  }

  function Drafts(d: Draft, fs: seq<Field>): (ds: seq<Draft>)
    ensures |ds| == |fs| + 1 && ds[0] == d && ds[|fs|] == AbsorbAll(d, fs)
    decreases |fs|
  {
    if fs == [] then [d] else [d] + Drafts(Absorb(d, fs[0]), fs[1..])
  }

  /** Every field is fit to be read back where it stands. */
  predicate RunOk(table: Table, isDl: bool, d: Draft, fs: seq<Field>)
    decreases |fs|
  {
    fs == [] || (FieldShaped(table, fs[0]) && FieldOk(table, fs[0]) && MayAdd(isDl, d, fs[0])
                 && RunOk(table, isDl, Absorb(d, fs[0]), fs[1..]))
  }

  lemma {:induction false} RunOkAppend(table: Table, isDl: bool, d: Draft, a: seq<Field>, b: seq<Field>)
    requires RunOk(table, isDl, d, a) && RunOk(table, isDl, AbsorbAll(d, a), b)
    ensures RunOk(table, isDl, d, a + b) && AbsorbAll(d, a + b) == AbsorbAll(AbsorbAll(d, a), b)
    decreases |a|
  {
    if a == [] {
      assert a + b == b;
    } else {
      assert (a + b)[1..] == a[1..] + b;
      RunOkAppend(table, isDl, Absorb(d, a[0]), a[1..], b);
    }
  }

  function Texts(table: Table, fs: seq<Field>): (ts: seq<string>)
    requires AllShaped(table, fs)
    ensures |ts| == |fs| && forall i :: 0 <= i < |ts| ==> ts[i] == FieldText(table, fs[i])
  {
    seq(|fs|, i requires 0 <= i < |fs| => FieldText(table, fs[i]))
  }

  lemma {:induction false} LineIsSlashed(table: Table, fs: seq<Field>, ts: seq<string>)
    requires AllShaped(table, fs) && ts == Texts(table, fs)
    ensures Line(table, fs) == Slashed(ts)
    decreases |fs|
  {
    if |fs| > 1 {
      assert ts[1..] == Texts(table, fs[1..]);
      LineIsSlashed(table, fs[1..], ts[1..]);
    }
  }

  lemma {:induction false} RunTakes(table: Table, isDl: bool, d: Draft, fs: seq<Field>, i: nat)
    requires RunOk(table, isDl, d, fs) && AllShaped(table, fs) && i < |fs|
    ensures Takes(ReadFieldOf(table, isDl), Drafts(d, fs)[i], FieldText(table, fs[i]), Drafts(d, fs)[i + 1],
                  fs[i].FPkt?)
    ensures FieldText(table, fs[i]) != "" && Clean(FieldText(table, fs[i]))
    decreases |fs|
  {
    if i == 0 {
      FieldTakes(table, isDl, d, fs[0], FieldText(table, fs[0]));
      FieldClean(table, fs[0]);
    } else {
      RunTakes(table, isDl, Absorb(d, fs[0]), fs[1..], i - 1);
    }
  }

  predicate PktFirst(fs: seq<Field>) { |fs| > 1 && forall i :: 1 <= i < |fs| ==> !fs[i].FPkt? }

  /** Reading a printed line gives the last of its drafts. */
  lemma LineBack(table: Table, isDl: bool, fs: seq<Field>, tail: string)
    requires AllShaped(table, fs) && RunOk(table, isDl, START, fs) && PktFirst(fs) && EndsSeg(tail)
    ensures var l := Line(table, fs);
            ReadFields(ReadFieldOf(table, isDl), START, l + tail, |l|) == Good(AbsorbAll(START, fs))
  {
    var ts, ds := Texts(table, fs), Drafts(START, fs);
    LineIsSlashed(table, fs, ts);
    forall i | 0 <= i < |ts|
      ensures Takes(ReadFieldOf(table, isDl), ds[i], ts[i], ds[i + 1], i + 1 < |ts|) && ts[i] != "" && Clean(ts[i])
    {
      RunTakes(table, isDl, START, fs, i);
    }
    FieldsBack(ReadFieldOf(table, isDl), ts, ds, Slashed(ts), tail);
  }

  lemma {:induction false} SlashedClean(ts: seq<string>, i: nat)
    requires (forall k :: 0 <= k < |ts| ==> Clean(ts[k])) && i < |Slashed(ts)|
    ensures Slashed(ts)[i] != '\n' && Slashed(ts)[i] != '\r'
    decreases |ts|
  {
    if |ts| > 1 && i > |ts[0]| { SlashedClean(ts[1..], i - |ts[0]| - 1); }
  }

  /** A text without line ends. */
  predicate OneLine(l: string) { forall i :: 0 <= i < |l| ==> l[i] != '\n' && l[i] != '\r' }

  lemma LineClean(table: Table, isDl: bool, fs: seq<Field>)
    requires AllShaped(table, fs) && RunOk(table, isDl, START, fs)
    ensures OneLine(Line(table, fs))
  {
    var ts := Texts(table, fs);
    LineIsSlashed(table, fs, ts);
    forall i | 0 <= i < |ts| ensures Clean(ts[i]) { RunTakes(table, isDl, START, fs, i); }
    forall i | 0 <= i < |Slashed(ts)| ensures Slashed(ts)[i] != '\n' && Slashed(ts)[i] != '\r' { SlashedClean(ts, i); }
  }

  // ----- where the fields of a message lead -----

  lemma RunIf(table: Table, isDl: bool, d: Draft, b: bool, f: Field)
    requires b ==> !f.FSeg? && FieldOk(table, f)
    ensures RunOk(table, isDl, d, If(b, f)) && AbsorbAll(d, If(b, f)) == if b then Absorb(d, f) else d
  {
    if b { assert If(b, f)[1..] == []; }
  }

  /** One more field, printed if `b` holds. */
  lemma RunThen(table: Table, isDl: bool, d: Draft, fs: seq<Field>, x: Draft, b: bool, f: Field, y: Draft)
    requires RunOk(table, isDl, d, fs) && AbsorbAll(d, fs) == x && (b ==> !f.FSeg? && FieldOk(table, f))
    requires y == if b then Absorb(x, f) else x
    ensures RunOk(table, isDl, d, fs + If(b, f)) && AbsorbAll(d, fs + If(b, f)) == y
  {
    RunIf(table, isDl, x, b, f);
    RunOkAppend(table, isDl, d, fs, If(b, f));
  }

  lemma NumberFieldsRun(table: Table, isDl: bool, m: Msg, d1: Draft)
    requires NameOk(m.to, CALLSIGN_CAP) && m.min <= INVALID_SEQ && m.mrn <= INVALID_SEQ
    requires d1 == START.(pktSeen := true, pkt := m.pkt, min := m.min, mrn := m.mrn,
                          to := if m.to == "" then BLANK else E.UnescapedInto(BLANK, E.Escaped(m.to), 0))
    ensures RunOk(table, isDl, START, NumberFields(m)) && AbsorbAll(START, NumberFields(m)) == d1
  {
    var a, b, c, e := [FPkt(m.pkt)], If(m.to != "", FTo(m.to)), [FMin(m.min)], If(m.mrn != INVALID_SEQ, FMrn(m.mrn));
    RunIf(table, isDl, START, true, FPkt(m.pkt));
    var x := START.(pktSeen := true, pkt := m.pkt);
    RunIf(table, isDl, x, m.to != "", FTo(m.to));
    RunOkAppend(table, isDl, START, a, b);
    var y := x.(to := if m.to == "" then BLANK else E.UnescapedInto(BLANK, E.Escaped(m.to), 0));
    RunIf(table, isDl, y, true, FMin(m.min));
    RunOkAppend(table, isDl, START, a + b, c);
    RunIf(table, isDl, y.(min := m.min), m.mrn != INVALID_SEQ, FMrn(m.mrn));
    RunOkAppend(table, isDl, START, a + b + c, e);
  }

  lemma OtherFieldsRun(table: Table, isDl: bool, m: Msg, d: Draft, a: seq<Field>, x: Draft, d1: Draft)
    requires NameOk(m.from, CALLSIGN_CAP) && |m.opts| <= MAX_OPTS
             && (forall i :: 0 <= i < |m.opts| ==> OptOk(m.opts[i]))
    requires RunOk(table, isDl, d, a) && AbsorbAll(d, a) == x
    requires x.from == BLANK && !x.logoff && x.opts == ["", "", "", ""] && x.numOpts == 0
    requires d1 == x.(logoff := m.logoff, numOpts := |m.opts|, opts := PutOpts(["", "", "", ""], m.opts, 0),
                      from := if m.from == "" then BLANK else E.UnescapedInto(BLANK, E.Escaped(m.from), 0))
    ensures var fs := a + If(m.logoff, FLogoff) + If(m.opts != [], FOpts(m.opts)) + If(m.from != "", FFrom(m.from));
            RunOk(table, isDl, d, fs) && AbsorbAll(d, fs) == d1
  {
    var y := x.(logoff := m.logoff);
    RunThen(table, isDl, d, a, x, m.logoff, FLogoff, y);
    var z := y.(opts := PutOpts(["", "", "", ""], m.opts, 0), numOpts := |m.opts|);
    JoinShort(m.opts);
    var b := a + If(m.logoff, FLogoff);
    RunThen(table, isDl, d, b, y, m.opts != [], FOpts(m.opts), z);
    RunThen(table, isDl, d, b + If(m.opts != [], FOpts(m.opts)), z, m.from != "", FFrom(m.from), d1);
  }

  lemma LinkFieldsRun(table: Table, isDl: bool, m: Msg, d: Draft, d1: Draft)
    requires NameOk(m.from, CALLSIGN_CAP) && (m.logon.Some? ==> FieldOk(table, FLogon(m.logon.value)))
    requires |m.opts| <= MAX_OPTS && (forall i :: 0 <= i < |m.opts| ==> OptOk(m.opts[i]))
    requires d.from == BLANK && d.logon == None && !d.logoff && d.opts == ["", "", "", ""] && d.numOpts == 0
    requires d1 == d.(logon := m.logon, logoff := m.logoff, numOpts := |m.opts|,
                      opts := PutOpts(["", "", "", ""], m.opts, 0),
                      from := if m.from == "" then BLANK else E.UnescapedInto(BLANK, E.Escaped(m.from), 0))
    ensures RunOk(table, isDl, d, LinkFields(m)) && AbsorbAll(d, LinkFields(m)) == d1
  {
    var a := if m.logon.Some? then [FLogon(m.logon.value)] else [];
    var x := d.(logon := m.logon);
    if m.logon.Some? { RunIf(table, isDl, d, true, FLogon(m.logon.value)); }
    OtherFieldsRun(table, isDl, m, d, a, x, d1);
  }

  lemma {:induction false} SegFieldsRun(table: Table, isDl: bool, d: Draft, segs: seq<Seg>)
    requires |d.segs| + |segs| <= MAX_SEGS && (forall i :: 0 <= i < |segs| ==> SegOk(table, segs[i]))
    requires forall i :: 0 <= i < |segs| ==> (i == 0 && d.segs == []) || segs[i].key.isDl == isDl
    ensures RunOk(table, isDl, d, SegFields(segs)) && AbsorbAll(d, SegFields(segs)) == d.(segs := d.segs + segs)
    decreases |segs|
  {
    if segs == [] {
      assert d.segs + segs == d.segs;
    } else {
      var fs := SegFields(segs);
      assert fs[1..] == SegFields(segs[1..]);
      assert SegShaped(table, segs[0]) by { assert SegOk(table, segs[0]); }
      SegFieldsRun(table, isDl, Absorb(d, fs[0]), segs[1..]);
      assert d.segs + [segs[0]] + segs[1..] == d.segs + segs;
    }
  }

  /** The draft that stands at the end of a printed message. */
  function LastDraft(m: Msg): Draft {
    Draft(true, m.pkt, m.min, m.mrn,
          if m.to == "" then BLANK else E.UnescapedInto(BLANK, E.Escaped(m.to), 0),
          if m.from == "" then BLANK else E.UnescapedInto(BLANK, E.Escaped(m.from), 0),
          m.logon, m.logoff, PutOpts(["", "", "", ""], m.opts, 0), |m.opts|, m.segs)
  }

  lemma HeadFieldsRun(table: Table, isDl: bool, m: Msg, d: Draft)
    requires Printable(table, isDl, m) && d == LastDraft(m).(segs := [])
    ensures RunOk(table, isDl, START, HeadFields(m)) && AbsorbAll(START, HeadFields(m)) == d
  {
    var d1 := START.(pktSeen := true, pkt := m.pkt, min := m.min, mrn := m.mrn, to := d.to);
    NumberFieldsRun(table, isDl, m, d1);
    LinkFieldsRun(table, isDl, m, d1, d);
    RunOkAppend(table, isDl, START, NumberFields(m), LinkFields(m));
  }

  lemma FieldsRun(table: Table, isDl: bool, m: Msg)
    requires Printable(table, isDl, m)
    ensures RunOk(table, isDl, START, Fields(m)) && AbsorbAll(START, Fields(m)) == LastDraft(m)
  {
    var d := LastDraft(m).(segs := []);
    HeadFieldsRun(table, isDl, m, d);
    SegFieldsRun(table, isDl, d, m.segs);
    RunOkAppend(table, isDl, START, HeadFields(m), SegFields(m.segs));
    assert d.segs + m.segs == m.segs;
  }

  // ----- what the last draft holds -----

  lemma CallsignHeld(n: string, b: seq<char>)
    requires NameOk(n, CALLSIGN_CAP) && b == if n == "" then BLANK else E.UnescapedInto(BLANK, E.Escaped(n), 0)
    ensures E.CStr(b) == n
  {
    if n == "" {
      E.CStrIs(BLANK, "");
    } else {
      CallsignEscaped(n);
      E.EscapedNoNul(n);
      E.UnescapedIntoHolds(BLANK, E.Escaped(n), 0);
      assert BLANK[..0] + Trunc(n, 8) == n;
    }
  }

  lemma {:induction false} OptsHeld(slots: Slots, os: seq<string>, i: nat)
    requires i <= |os| <= MAX_OPTS && (forall k :: 0 <= k < |os| ==> |os[k]| < OPT_CAP) && slots[..i] == os[..i]
    ensures PutOpts(slots, os, i)[..|os|] == os
    decreases |os| - i
  {
    if i < |os| {
      var slots' := slots[i := os[i]];
      assert slots'[..i + 1] == slots[..i] + [os[i]] && os[..i + 1] == os[..i] + [os[i]];
      OptsHeld(slots', os, i + 1);
    } else {
      assert slots[..|os|] == os[..i] == os;
    }
  }

  lemma LastHolds(table: Table, isDl: bool, m: Msg, d: Draft)
    requires Printable(table, isDl, m) && d == LastDraft(m)
    ensures E.CStr(d.to) == m.to && E.CStr(d.from) == m.from && d.opts[..d.numOpts] == m.opts
  {
    CallsignHeld(m.to, d.to);
    CallsignHeld(m.from, d.from);
    OptsHeld(["", "", "", ""], m.opts, 0);
  }

  lemma FinishLast(table: Table, isDl: bool, m: Msg, d: Draft)
    requires MsgOk(table, isDl, m) && d == LastDraft(m)
    ensures Finish(d) == Good(m)
  {
    LastHolds(table, isDl, m, d);
  }

  lemma EolOf(l: string, rest: string)
    requires OneLine(l)
    ensures FindEol(l + ("\n" + rest)) == Eol(|l|, 1)
  {
    var s := l + ("\n" + rest);
    assert forall i :: 0 <= i < |l| ==> s[i] == l[i];
    assert s[|l|] == '\n';
  }

  lemma PktFirstAppend(a: seq<Field>, b: seq<Field>)
    requires PktFirst(a) && forall i :: 0 <= i < |b| ==> !b[i].FPkt?
    ensures PktFirst(a + b)
  {
  }

  lemma PktComesFirst(m: Msg)
    ensures PktFirst(Fields(m))
  {
    PktFirstAppend(NumberFields(m), LinkFields(m));
    PktFirstAppend(HeadFields(m), SegFields(m.segs));
  }

  lemma DecodeFrom(table: Table, isDl: bool, s: string, at: nat, len: nat, d: Draft, m: Msg)
    requires FindEol(s) == Eol(at, len) && ReadFields(ReadFieldOf(table, isDl), START, s, at) == Good(d)
             && Finish(d) == Good(m)
    ensures Decode(table, isDl, s) == Got(m, at + len)
  {
  }

  lemma LineReads(table: Table, isDl: bool, m: Msg, l: string, s: string, tail: string)
    requires Printable(table, isDl, m) && AllShaped(table, Fields(m)) && l == Line(table, Fields(m)) && EndsSeg(tail)
             && s == l + tail
    ensures ReadFields(ReadFieldOf(table, isDl), START, s, |l|) == Good(LastDraft(m))
  {
    FieldsRun(table, isDl, m);
    PktComesFirst(m);
    LineBack(table, isDl, Fields(m), tail);
  }

  lemma DraftReads(table: Table, isDl: bool, m: Msg, l: string, s: string, tail: string) returns (d: Draft)
    requires MsgOk(table, isDl, m) && AllShaped(table, Fields(m)) && l == Line(table, Fields(m)) && EndsSeg(tail)
             && s == l + tail
    ensures ReadFields(ReadFieldOf(table, isDl), START, s, |l|) == Good(d) && Finish(d) == Good(m)
  {
    d := LastDraft(m);
    LineReads(table, isDl, m, l, s, tail);
    FinishLast(table, isDl, m, d);
  }

  /** A printed line is read as its message, whatever ends it. */
  lemma LineDecodes(table: Table, isDl: bool, m: Msg, l: string, s: string, tail: string, len: nat)
    requires MsgOk(table, isDl, m) && AllShaped(table, Fields(m)) && l == Line(table, Fields(m))
    requires s == l + tail && EndsSeg(tail) && FindEol(s) == Eol(|l|, len)
    ensures Decode(table, isDl, s) == Got(m, |l| + len)
  {
    var d := DraftReads(table, isDl, m, l, s, tail);
    DecodeFrom(table, isDl, s, |l|, len, d, m);
  }

  lemma LineIsOne(table: Table, isDl: bool, m: Msg, l: string)
    requires Printable(table, isDl, m) && AllShaped(table, Fields(m)) && l == Line(table, Fields(m))
    ensures OneLine(l)
  {
    FieldsRun(table, isDl, m);
    LineClean(table, isDl, Fields(m));
  }

  lemma NewlineLast(l: string, rest: string)
    ensures l + "\n" + rest == l + ("\n" + rest)
  {
  }

  lemma LineLf(table: Table, isDl: bool, m: Msg, l: string, s: string, rest: string)
    requires MsgOk(table, isDl, m) && AllShaped(table, Fields(m)) && l == Line(table, Fields(m))
             && s == l + ("\n" + rest)
    ensures Decode(table, isDl, s) == Got(m, |l| + 1)
  {
    LineIsOne(table, isDl, m, l);
    EolOf(l, rest);
    LineDecodes(table, isDl, m, l, s, "\n" + rest, 1);
  }

  /** The decoder, given an encoded message `e` and whatever follows it in the buffer, returns that message and consumes
      exactly its encoding. */
  lemma RoundTrip(table: Table, isDl: bool, m: Msg, e: string, rest: string)
    requires MsgOk(table, isDl, m) && MsgShaped(table, m) && e == Encode(table, m)
    ensures Decode(table, isDl, e + rest) == Got(m, |e|)
  {
    FieldsShaped(table, m);
    var l := Line(table, Fields(m));
    NewlineLast(l, rest);
    LineLf(table, isDl, m, l, e + rest, rest);
  }

  lemma CrLfEol(l: string, rest: string, s: string)
    requires OneLine(l) && s == l + ("\r\n" + rest)
    ensures FindEol(s) == Eol(|l|, 2)
  {
    assert forall i :: 0 <= i < |l| ==> s[i] == l[i];
    assert s[|l|] == '\r' && s[|l| + 1] == '\n';
  }

  lemma LoneCrEol(l: string, s: string)
    requires OneLine(l) && s == l + "\r"
    ensures FindEol(s) == Eol(|l|, 1)
  {
    assert forall i :: 0 <= i < |l| ==> s[i] == l[i];
    assert s[|l|] == '\r';
  }

  /** A printed line that ends in CR LF is taken with both. */
  lemma LineCrLf(table: Table, isDl: bool, m: Msg, l: string, s: string, rest: string)
    requires MsgOk(table, isDl, m) && AllShaped(table, Fields(m)) && l == Line(table, Fields(m))
             && s == l + ("\r\n" + rest)
    ensures Decode(table, isDl, s) == Got(m, |l| + 2)
  {
    LineIsOne(table, isDl, m, l);
    CrLfEol(l, rest, s);
    LineDecodes(table, isDl, m, l, s, "\r\n" + rest, 2);
  }

  /** If only the CR has arrived, it is taken alone. */
  lemma LineCr(table: Table, isDl: bool, m: Msg, l: string, s: string)
    requires MsgOk(table, isDl, m) && AllShaped(table, Fields(m)) && l == Line(table, Fields(m)) && s == l + "\r"
    ensures Decode(table, isDl, s) == Got(m, |l| + 1)
  {
    LineIsOne(table, isDl, m, l);
    LoneCrEol(l, s);
    LineDecodes(table, isDl, m, l, s, "\r", 1);
  }
}
