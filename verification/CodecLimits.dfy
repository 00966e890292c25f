/** What the wire format does not check or does not keep: each with the exact condition. */
module CodecLimits {
  import opened Options
  import opened Text
  import opened Codec
  import opened CodecArgs
  import opened CodecRoundTrip
  import opened CodecWhole
  import E = Escape
  import L = WireLocal

  // ----- the direction of the first segment -----

  ghost predicate KeepsDirection(read: FieldReader, isDl: bool) {
    forall d: Draft, s, e :: Directed(isDl, d.segs) && read(d, s, e).Good? ==> Directed(isDl, read(d, s, e).value.segs)
  }

  lemma NamedDirected(read: SegReader, isDl: bool, d: Draft, name: string, v: string, n: nat, logoff: bool)
    requires n < |v| && Directed(isDl, d.segs)
    ensures var r := ReadNamed(read, isDl, d, name, v, n, logoff); r.Good? ==> Directed(isDl, r.value.segs)
  {
  }

  lemma FieldDirected(table: Table, isDl: bool)
    ensures KeepsDirection(ReadFieldOf(table, isDl), isDl)
  {
    forall d: Draft, s, e | Directed(isDl, d.segs) && ReadFieldOf(table, isDl)(d, s, e).Good?
      ensures Directed(isDl, ReadFieldOf(table, isDl)(d, s, e).value.segs)
    {
      var h := HeaderLen(s, e);
      NamedDirected(ReadSeg(table), isDl, d, s[..h], s[h..], e - h, StartsWith(s, "LOGOFF"));
    }
  }

  lemma TurnDirected(read: FieldReader, isDl: bool, d: Draft, s: string, t: nat, turn: Turn)
    requires KeepsDirection(read, isDl) && Directed(isDl, d.segs) && 0 < t < |s| && turn == FieldTurn(read, d, s, t)
    ensures turn.Go? ==> Directed(isDl, turn.draft.segs)
    ensures turn.Stop? && turn.result.Good? ==> Directed(isDl, turn.result.value.segs)
  {
  }

  lemma {:induction false} FieldsDirected(read: FieldReader, isDl: bool, d: Draft, s: string, t: nat)
    requires KeepsDirection(read, isDl) && Directed(isDl, d.segs) && t < |s|
    ensures var r := ReadFields(read, d, s, t); r.Good? ==> Directed(isDl, r.value.segs)
    decreases t
  {
    if t > 0 {
      var turn := FieldTurn(read, d, s, t);
      TurnDirected(read, isDl, d, s, t, turn);
      if turn.Go? {
        var u, t' := s[turn.next..], t - turn.next;
        FieldsDirected(read, isDl, turn.draft, u, t');
        L.FieldsGo(read, d, s, t, turn, u, t', ReadFields(read, turn.draft, u, t'));
      } else {
        L.FieldsStop(read, d, s, t, turn);
      }
    }
  }

  /** Whatever is decoded, all its segments but the first are of the reader's direction. */
  lemma DecodedDirected(table: Table, isDl: bool, s: string)
    ensures var r := Decode(table, isDl, s); r.Got? ==> Directed(isDl, r.msg.segs)
  {
    var eol := FindEol(s);
    if eol.Eol? {
      FieldDirected(table, isDl);
      FieldsDirected(ReadFieldOf(table, isDl), isDl, START, s, eol.at);
    }
  }

  /** Exactly when a printed message passes the reader's check of direction: when its segments behind the first are
      of the reader's direction. The first one does not matter. */
  lemma DirectionIff(table: Table, isDl: bool, m: Msg, e: string, rest: string)
    requires PartsOk(table, m) && MsgShaped(table, m) && e == Encode(table, m)
    ensures Decode(table, isDl, e + rest) == Got(m, |e|) <==> Directed(isDl, m.segs)
  {
    if Directed(isDl, m.segs) {
      RoundTrip(table, isDl, m, e, rest);
    } else {
      DecodedDirected(table, isDl, e + rest);
    }
  }

  function LoneSeg(k: Key): Msg { Msg(Cpdlc, 0, INVALID_SEQ, "", "", None, false, [], [Seg(k, [])]) }

  /** The input: one segment without arguments, such as UM0 or DM0, at a reader of the other direction. */
  lemma OtherDirectionAccepted(table: Table, k: Key, e: string)
    requires RowOk(table, k) && table[k] == [] && MsgShaped(table, LoneSeg(k)) && e == Encode(table, LoneSeg(k))
    ensures Decode(table, !k.isDl, e + "") == Got(LoneSeg(k), |e|)
  {
    DirectionIff(table, !k.isDl, LoneSeg(k), e, "");
  }

  // ----- positions of an unknown type -----

  predicate HasType(t: string, p: string) { StartsWith(t, p + ":") }

  /** A position is never refused for its type: with a type the reader does not know it is accepted and left unset. */
  lemma PositionUnsetIff(t: string)
    ensures !ParsePos(t).Bad?
    ensures ParsePos(t) == Good(Position(Unset))
            <==> (':' in t && !HasType(t, "FIX") && !HasType(t, "NAV") && !HasType(t, "ARPT")
                  && !HasType(t, "LATLON") && !HasType(t, "PBD"))
  {
    assert "FIX" + ":" == "FIX:" && "NAV" + ":" == "NAV:" && "ARPT" + ":" == "ARPT:";
    assert "LATLON" + ":" == "LATLON:" && "PBD" + ":" == "PBD:";
  }

  lemma UnknownTypeAccepted()
    ensures ParsePos("VOR:ABC") == Good(Position(Unset))
  {
    var t := "VOR:ABC";
    assert t[3] == ':';
    assert t[..4][0] == 'V' && t[..5][0] == 'V' && t[..7][0] == 'V';
  }

  // ----- options -----

  /** Each OPTIONS header counts for at most four. */
  function OptCount(fs: seq<Field>): nat
    decreases |fs|
  {
    if fs == [] then 0 else (if fs[0].FOpts? then Min2(|fs[0].opts|, 4) else 0) + OptCount(fs[1..])
  }

  lemma {:induction false} OptsAdd(d: Draft, fs: seq<Field>)
    ensures AbsorbAll(d, fs).numOpts == d.numOpts + OptCount(fs)
    decreases |fs|
  {
    if fs != [] { OptsAdd(Absorb(d, fs[0]), fs[1..]); }
  }

  lemma ConcludesAs(table: Table, isDl: bool, s: string, at: nat, d: Draft)
    requires FindEol(s) == Eol(at, 1) && ReadFields(ReadFieldOf(table, isDl), START, s, at) == Good(d)
    ensures Decode(table, isDl, s) == Unspecified <==> d.pktSeen && Validates(d) && d.numOpts > MAX_OPTS
  {
  }

  /** Exactly when the options of a line overrun their four slots: the line would be a valid message, and its
      OPTIONS headers, each counted for at most four, together name more than four. */
  lemma OptionsOverrunIff(table: Table, isDl: bool, fs: seq<Field>, l: string, s: string, rest: string)
    requires AllShaped(table, fs) && RunOk(table, isDl, START, fs) && PktFirst(fs) && l == Line(table, fs)
             && s == l + ("\n" + rest)
    ensures Decode(table, isDl, s) == Unspecified
            <==> var d := AbsorbAll(START, fs); d.pktSeen && Validates(d) && OptCount(fs) > 4
  {
    LineBack(table, isDl, fs, "\n" + rest);
    LineClean(table, isDl, fs);
    EolOf(l, rest);
    OptsAdd(START, fs);
    ConcludesAs(table, isDl, s, |l|, AbsorbAll(START, fs));
  }

  const FIVE_OPTIONS := [FPkt(Ping), FMin(1), FOpts(["A", "B", "C"]), FOpts(["D", "E"])]

  lemma FiveOptions(d: Draft)
    requires d == AbsorbAll(START, FIVE_OPTIONS)
    ensures d.pktSeen && Validates(d) && OptCount(FIVE_OPTIONS) == 5
  {
    var a, b, c, e := FIVE_OPTIONS, FIVE_OPTIONS[1..], FIVE_OPTIONS[2..], FIVE_OPTIONS[3..];
    assert b[1..] == c && c[1..] == e && e[1..] == [];
  }

  lemma FiveRun(table: Table, isDl: bool)
    ensures AllShaped(table, FIVE_OPTIONS) && RunOk(table, isDl, START, FIVE_OPTIONS) && PktFirst(FIVE_OPTIONS)
  {
    var b, c, e := FIVE_OPTIONS[1..], FIVE_OPTIONS[2..], FIVE_OPTIONS[3..];
    assert b[1..] == c && c[1..] == e && e[1..] == [];
  }

  /** The input: two headers with three and two options. */
  lemma FiveOptionsOverrun(table: Table, isDl: bool, rest: string)
    ensures AllShaped(table, FIVE_OPTIONS)
            && Decode(table, isDl, Line(table, FIVE_OPTIONS) + ("\n" + rest)) == Unspecified
  {
    FiveRun(table, isDl);
    FiveOptions(AbsorbAll(START, FIVE_OPTIONS));
    var l := Line(table, FIVE_OPTIONS);
    OptionsOverrunIff(table, isDl, FIVE_OPTIONS, l, l + ("\n" + rest), rest);
  }

  // ----- logon data -----

  /** Exactly which logon data leaves its buffer unwritten: one with a percent sign that does not start an escape. */
  lemma LogonUndefinedIff(table: Table, isDl: bool, d: Draft, v: string, tail: string)
    requires tail != ""
    ensures var t := "LOGON=" + v; ReadFieldOf(table, isDl)(d, t + tail, |t|) == Undef <==> !E.WellEscaped(v)
  {
    FieldIs(table, isDl, d, "LOGON=", v, tail);
    NamedLogon(ReadSeg(table), isDl, d, v, tail, StartsWith("LOGON=" + v + tail, "LOGOFF"));
    E.UnescapedIff(v);
  }

  lemma NamedLogon(read: SegReader, isDl: bool, d: Draft, v: string, tail: string, logoff: bool)
    requires tail != ""
    ensures ReadNamed(read, isDl, d, "LOGON=", v + tail, |v|, logoff) == Undef <==> E.Unescaped(v).None?
  {
    assert (v + tail)[..|v|] == v;
  }

  lemma BadLogonEscape()
    ensures !E.WellEscaped("%4")
  {
    assert "%4"[0] == '%';
  }

  // ----- free text -----

  lemma EmptyTextTail(read: Reader, table: Table, key: Key, s: string, tail: string)
    requires key in table && table[key] == [KText] && tail != "" && s == " " + tail
    ensures ParseTail(read, table, key, s, 1) == Bad
  {
    assert s[0] == ' ' && s[1..] == tail;
    assert SpaceRun(s, 1) == 1 + SpaceRun(s[1..], 0);
  }

  lemma EmptyTextRefused(table: Table, key: Key, b: string, tail: string)
    requires RowOk(table, key) && table[key] == [KText] && EndsSeg(tail) && b == " "
    ensures ParseSeg(ReadTail(table), table, SegName(key) + b + tail, |SegName(key) + b|) == Bad
  {
    EmptyTextTail(ReadArg, table, key, b + tail, tail);
    SegReads(ReadTail(table), table, key, Bad, b, tail);
  }

  lemma EmptyBlanked()
    ensures Blanked(ArgTexts([KText], [FreeText("")])) == " "
  {
    var ts := ArgTexts([KText], [FreeText("")]);
    assert E.EscapedInto("", 0, TEXT_CAP) == "";
    assert ts[0] == "" && ts[1..] == [];
  }

  /** Exactly which free text, of those that fit, is read back from a free-text segment: the text that is not empty. */
  lemma FreeTextBackIff(table: Table, key: Key, text: string, b: string, tail: string)
    requires RowOk(table, key) && table[key] == [KText] && EndsSeg(tail)
    requires E.CString(text) && E.AllSurvive(text) && E.Fits(text, 0, TEXT_CAP)
             && b == Blanked(ArgTexts([KText], [FreeText(text)]))
    ensures ParseSeg(ReadTail(table), table, SegName(key) + b + tail, |SegName(key) + b|)
            == Good(Seg(key, [FreeText(text)]))
            <==> text != ""
  {
    if text == "" {
      EmptyBlanked();
      EmptyTextRefused(table, key, b, tail);
    } else {
      SegBack(table, Seg(key, [FreeText(text)]), b, tail);
    }
  }
}
