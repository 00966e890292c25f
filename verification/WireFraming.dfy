/** Reassembly with the decoder of the wire format. */
module WireFraming {
  import opened Codec
  import opened CodecWhole
  import opened Framing

  function WireDec(table: Table, isDl: bool): Decoder<Codec.Msg> {
    (s: string) =>
      match Decode(table, isDl, s)
      case NeedMore => Need
      case Got(m, n) => One(m, n)
      case Malformed => Halt(true)
      case Unspecified => Halt(false)
  }

  lemma WireIsSane(table: Table, isDl: bool)
    ensures Sane(WireDec(table, isDl))
  {
    assert FindEol("") == NoEol;
    forall s: string ensures WireDec(table, isDl)(s).One? ==> 0 < WireDec(table, isDl)(s).len <= |s| {
      WireTakes(table, isDl, s);
    }
  }

  lemma WireTakes(table: Table, isDl: bool, s: string)
    ensures var eol, d := FindEol(s), WireDec(table, isDl)(s);
            (eol.NoEol? <==> d == Need) && (d.One? ==> d.len == eol.at + eol.len)
  {
  }

  lemma WireIsLineSized(table: Table, isDl: bool)
    ensures LineSized(WireDec(table, isDl))
  {
    forall s: string | '\r' !in s
      ensures var d := WireDec(table, isDl)(s); (d.Need? <==> '\n' !in s) && (d.One? ==> EndsFirstLine(s, d.len))
    {
      LineSizedAt(table, isDl, s);
    }
  }

  lemma LineSizedAt(table: Table, isDl: bool, s: string)
    requires '\r' !in s
    ensures var d := WireDec(table, isDl)(s); (d.Need? <==> '\n' !in s) && (d.One? ==> EndsFirstLine(s, d.len))
  {
    WireTakes(table, isDl, s);
    LfOnly(s);
  }

  lemma LfOnly(s: string)
    requires '\r' !in s
    ensures FindEol(s).NoEol? <==> '\n' !in s
    ensures FindEol(s).Eol? ==> FindEol(s).len == 1 && EndsFirstLine(s, FindEol(s).at + 1)
  {
  }

  // ----- streams of encoded messages -----

  predicate Sendable(table: Table, isDl: bool, m: Codec.Msg) { MsgOk(table, isDl, m) && MsgShaped(table, m) }

  lemma NoEolNeeds(table: Table, isDl: bool, s: string)
    requires '\n' !in s && '\r' !in s
    ensures WireDec(table, isDl)(s) == Need
  {
    WireTakes(table, isDl, s);
  }

  lemma LinePrefix(e: string, l: string, j: nat)
    requires e == l + "\n" && j < |e| && OneLine(l)
    ensures '\n' !in e[..j] && '\r' !in e[..j]
  {
    assert forall i :: 0 <= i < j ==> e[..j][i] == l[i];
  }

  lemma EncodedIsLine(table: Table, isDl: bool, m: Codec.Msg, e: string) returns (l: string)
    requires Sendable(table, isDl, m) && e == Encode(table, m)
    ensures e == l + "\n" && OneLine(l)
  {
    FieldsShaped(table, m);
    FieldsRun(table, isDl, m);
    LineClean(table, isDl, Fields(m));
    l := Line(table, Fields(m));
  }

  /** What the encoder prints is what the decoder takes, with any continuation, and nothing less is enough. */
  lemma WireEncodes(table: Table, isDl: bool, m: Codec.Msg, e: string)
    requires Sendable(table, isDl, m) && e == Encode(table, m)
    ensures Encodes(WireDec(table, isDl), m, e)
  {
    forall rest: string ensures WireDec(table, isDl)(e + rest) == One(m, |e|) { RoundTrip(table, isDl, m, e, rest); }
    var l := EncodedIsLine(table, isDl, m, e);
    forall j | 0 <= j < |e| ensures WireDec(table, isDl)(e[..j]) == Need {
      LinePrefix(e, l, j);
      NoEolNeeds(table, isDl, e[..j]);
    }
  }

  lemma {:induction false} ConcatNoCr(es: seq<string>, tail: string)
    requires (forall i :: 0 <= i < |es| ==> '\r' !in es[i]) && '\r' !in tail
    ensures '\r' !in Concat(es) + tail
  {
    if es != [] {
      ConcatNoCr(es[1..], tail);
      assert Concat(es) + tail == es[0] + (Concat(es[1..]) + tail);
    }
  }

  lemma EncodedNoCr(table: Table, isDl: bool, m: Codec.Msg, e: string)
    requires Sendable(table, isDl, m) && e == Encode(table, m)
    ensures '\r' !in e
  {
    var l := EncodedIsLine(table, isDl, m, e);
  }

  lemma StreamHasNoCr(table: Table, isDl: bool, ms: seq<Codec.Msg>, es: seq<string>, tail: string)
    requires |ms| == |es| && '\r' !in tail
    requires forall i :: 0 <= i < |ms| ==> Sendable(table, isDl, ms[i]) && es[i] == Encode(table, ms[i])
    ensures '\r' !in Concat(es) + tail
  {
    forall i | 0 <= i < |es| ensures '\r' !in es[i] { EncodedNoCr(table, isDl, ms[i], es[i]); }
    ConcatNoCr(es, tail);
  }

  /** From sender to receiver: however the encodings `es` of sendable messages `ms`, and a part `tail` of a further
      line, are cut into reads, the receiver gets exactly these messages, in order, and keeps exactly the part. */
  lemma StreamArrives(table: Table, isDl: bool, ms: seq<Codec.Msg>, es: seq<string>, tail: string, chunks: seq<string>)
    requires |ms| == |es| && '\n' !in tail && '\r' !in tail && Concat(chunks) == Concat(es) + tail
    requires forall i :: 0 <= i < |ms| ==> Sendable(table, isDl, ms[i]) && es[i] == Encode(table, ms[i])
    ensures Sane(WireDec(table, isDl)) && Feed(WireDec(table, isDl), "", chunks) == Fed(ms, tail, Need)
  {
    WireIsSane(table, isDl);
    forall i | 0 <= i < |ms| ensures Encodes(WireDec(table, isDl), ms[i], es[i]) {
      WireEncodes(table, isDl, ms[i], es[i]);
    }
    forall j | 0 <= j <= |tail| ensures WireDec(table, isDl)(tail[..j]) == Need { NoEolNeeds(table, isDl, tail[..j]); }
    StreamHasNoCr(table, isDl, ms, es, tail);
    NoCrUnparted(chunks);
    EncodedArrive(WireDec(table, isDl), ms, es, tail, chunks);
  }

  lemma DecodedAs(table: Table, isDl: bool, s: string, r: Result<Draft>, at: nat, len: nat)
    requires FindEol(s) == Eol(at, len) && ReadFields(ReadFieldOf(table, isDl), START, s, at) == r
    ensures r.Bad? ==> WireDec(table, isDl)(s) == Halt(true)
    ensures r.Undef? ==> WireDec(table, isDl)(s) == Halt(false)
    ensures r.Good? && Finish(r.value).Good? ==> WireDec(table, isDl)(s) == One(Finish(r.value).value, at + len)
  {
  }

  // ----- lines that end in CR LF -----

  lemma LineOf(table: Table, isDl: bool, m: Codec.Msg, l: string)
    requires Sendable(table, isDl, m) && l + "\n" == Encode(table, m)
    ensures AllShaped(table, Fields(m)) && l == Line(table, Fields(m)) && OneLine(l)
  {
    FieldsShaped(table, m);
    assert l == (l + "\n")[..|l|];
    assert Line(table, Fields(m)) == (Line(table, Fields(m)) + "\n")[..|l|];
    LineIsOne(table, isDl, m, l);
  }

  lemma PartNeeds(table: Table, isDl: bool, l: string, j: nat)
    requires OneLine(l) && j <= |l|
    ensures WireDec(table, isDl)(l[..j]) == Need
  {
    assert forall i :: 0 <= i < j ==> l[..j][i] == l[i];
    NoEolNeeds(table, isDl, l[..j]);
  }

  lemma WireTakesCrLf(table: Table, isDl: bool, m: Codec.Msg, l: string, s: string, rest: string)
    requires MsgOk(table, isDl, m) && AllShaped(table, Fields(m)) && l == Line(table, Fields(m))
             && s == l + ("\r\n" + rest)
    ensures WireDec(table, isDl)(s) == One(m, |l| + 2)
  {
    LineCrLf(table, isDl, m, l, s, rest);
  }

  lemma WireTakesCr(table: Table, isDl: bool, m: Codec.Msg, l: string, s: string)
    requires MsgOk(table, isDl, m) && AllShaped(table, Fields(m)) && l == Line(table, Fields(m)) && s == l + "\r"
    ensures WireDec(table, isDl)(s) == One(m, |l| + 1)
  {
    LineCr(table, isDl, m, l, s);
  }

  /** A printed line is taken with CR LF, whatever follows, with CR alone if that is all, and with nothing less. */
  lemma WireEncodesCr(table: Table, isDl: bool, m: Codec.Msg, l: string)
    requires Sendable(table, isDl, m) && l + "\n" == Encode(table, m)
    ensures EncodesCr(WireDec(table, isDl), m, l) && OneLine(l)
  {
    LineOf(table, isDl, m, l);
    WireTakesCr(table, isDl, m, l, l + "\r");
    forall rest: string ensures WireDec(table, isDl)(l + ("\r\n" + rest)) == One(m, |l| + 2) {
      WireTakesCrLf(table, isDl, m, l, l + ("\r\n" + rest), rest);
    }
    forall j | 0 <= j <= |l| ensures WireDec(table, isDl)(l[..j]) == Need { PartNeeds(table, isDl, l, j); }
  }

  /** An empty line is malformed. */
  lemma WireLfHalts(table: Table, isDl: bool)
    ensures LfHalts(WireDec(table, isDl))
  {
    forall rest: string ensures WireDec(table, isDl)("\n" + rest) == Halt(true) {
      assert ("\n" + rest)[0] == '\n';
      assert FindEol("\n" + rest) == Eol(0, 1);
      DecodedAs(table, isDl, "\n" + rest, Good(START), 0, 1);
    }
  }

  /** From sender to receiver with CR LF behind each message: the messages arrive, in order, and part of a further
      line is kept, if and only if no read ends between a CR and its LF; a read that does ends the session. */
  lemma CrLfStreamArrivesIff(table: Table, isDl: bool, ms: seq<Codec.Msg>, ls: seq<string>, tail: string,
                             chunks: seq<string>)
    requires |ms| == |ls| && '\n' !in tail && '\r' !in tail && Concat(chunks) == CrLf(ls) + tail
    requires forall i :: 0 <= i < |ms| ==> Sendable(table, isDl, ms[i]) && ls[i] + "\n" == Encode(table, ms[i])
    ensures Sane(WireDec(table, isDl))
    ensures Feed(WireDec(table, isDl), "", chunks) == Fed(ms, tail, Need) <==> Unparted(chunks)
    ensures !Unparted(chunks) ==> Feed(WireDec(table, isDl), "", chunks).halt == Halt(true)
  {
    WireIsSane(table, isDl);
    WireLfHalts(table, isDl);
    forall i | 0 <= i < |ms| ensures EncodesCr(WireDec(table, isDl), ms[i], ls[i]) {
      WireEncodesCr(table, isDl, ms[i], ls[i]);
    }
    forall j | 0 <= j <= |tail| ensures WireDec(table, isDl)(tail[..j]) == Need { NoEolNeeds(table, isDl, tail[..j]); }
    CrLfArriveIff(WireDec(table, isDl), ms, ls, tail, chunks);
  }

  /** The smallest case: any message, its CR in one read and its LF in the next. */
  lemma SplitCrLfHalts(table: Table, isDl: bool, m: Codec.Msg, l: string)
    requires Sendable(table, isDl, m) && l + "\n" == Encode(table, m)
    ensures Sane(WireDec(table, isDl)) && Feed(WireDec(table, isDl), "", [l + "\r", "\n"]).halt == Halt(true)
    ensures Feed(WireDec(table, isDl), "", [l + "\r\n"]) == Fed([m], "", Need)
  {
    WireIsSane(table, isDl);
    WireLfHalts(table, isDl);
    WireEncodesCr(table, isDl, m, l);
    CrLfOnce(WireDec(table, isDl), m, l, l + "\r", l + "\r\n");
  }

  // ----- streams whose cut matters -----

  lemma NotIndependent<M(!new)>(dec: Decoder<M>, a: string, s: string)
    requires Sane(dec) && LineSized(dec) && '\r' !in s && |a| <= |s| && s[..|a|] == a && dec(a) != Need
             && dec(a) != dec(s)
    ensures !Independent(dec, s)
  {
    if Independent(dec, s) { IndependentIsFirm(dec, s, |a|); }
  }

  lemma WireNotIndependent(table: Table, isDl: bool, a: string, s: string)
    requires WireDec(table, isDl)(a) == Halt(true) && WireDec(table, isDl)(s) != Halt(true)
    requires '\r' !in s && |a| <= |s| && s[..|a|] == a
    ensures Sane(WireDec(table, isDl)) && !Independent(WireDec(table, isDl), s)
  {
    WireIsSane(table, isDl);
    WireIsLineSized(table, isDl);
    NotIndependent(WireDec(table, isDl), a, s);
  }
}
