/**
 Reassembly of messages from a byte stream that arrives in pieces: `do_msg_input` appends to the buffer, `process_input`
 takes messages off its front.
 */
module Framing {
  /** What a decoder makes of a buffer: too little, a message and the bytes it took, or an end of the session. `defined`
      is false where the decoder's result is outside the model. */
  datatype Dec<M> = Need | One(msg: M, len: nat) | Halt(defined: bool)

  type Decoder<M> = string -> Dec<M>

  /** Messages come off the front and take at least a byte, and an empty buffer holds none. */
  ghost predicate Sane<M(!new)>(dec: Decoder<M>) {
    dec("") == Need && forall s: string :: dec(s).One? ==> 0 < dec(s).len <= |s|
  }

  /** The messages taken, what is left in the buffer, and why it stopped: still running, or halted. */
  datatype Fed<M> = Fed(msgs: seq<M>, left: string, halt: Dec<M>)

  function After<M>(ms: seq<M>, f: Fed<M>): Fed<M> { f.(msgs := ms + f.msgs) }

  /** `process_input` on the whole buffer. */
  ghost function Drain<M(!new)>(dec: Decoder<M>, s: string): Fed<M>
    requires Sane(dec)
    decreases |s|
  {
    match dec(s)
    case Need => Fed([], s, Need)
    case Halt(d) => Fed([], s, Halt(d))
    case One(m, n) => After([m], Drain(dec, s[n..]))
  }

  /** A session: each read is appended to what is left; after a halt nothing is read any more. */
  ghost function Feed<M(!new)>(dec: Decoder<M>, left: string, chunks: seq<string>): Fed<M>
    requires Sane(dec)
    decreases |chunks|
  {
    if chunks == [] then Fed([], left, Need)
    else
      var f := Drain(dec, left + chunks[0]);
      if f.halt != Need then f
      else After(f.msgs, Feed(dec, f.left, chunks[1..]))
  }

  function Concat(chunks: seq<string>): string {
    if chunks == [] then "" else chunks[0] + Concat(chunks[1..])
  }

  /** Two sessions saw the same messages and ended alike; what is left matters while they go on. */
  ghost predicate Alike<M(!new)>(f: Fed<M>, g: Fed<M>) {
    f.msgs == g.msgs && f.halt == g.halt && (f.halt == Need ==> f.left == g.left)
  }

  /** What has been read up to some point does not end in CR, which would part CR LF. */
  predicate MayCut(p: string) { p == "" || p[|p| - 1] != '\r' }

  /** No read ends in CR. */
  predicate Unparted(chunks: seq<string>) {
    forall i :: 0 <= i < |chunks| ==> MayCut(chunks[i])
  }

  ghost predicate Firm<M(!new)>(dec: Decoder<M>, s: string) {
    forall j :: 0 <= j <= |s| && MayCut(s[..j]) ==> dec(s[..j]) == Need || dec(s[..j]) == dec(s)
  }

  /** Every decision the decoder takes along the stream is the same on any part of it that is enough for a decision
      and does not end in CR. */
  ghost predicate Sturdy<M(!new)>(dec: Decoder<M>, s: string)
    requires Sane(dec)
    decreases |s|
  {
    && Firm(dec, s)
    && (dec(s).One? ==> Sturdy(dec, s[dec(s).len..]))
  }

  // ----- sturdy streams do not care how they are cut -----

  lemma AfterAfter<M>(a: seq<M>, b: seq<M>, f: Fed<M>)
    ensures After(a, After(b, f)) == After(a + b, f)
  {
    assert a + (b + f.msgs) == (a + b) + f.msgs;
  }

  lemma AfterNothing<M>(f: Fed<M>)
    ensures After([], f) == f
  {
    assert [] + f.msgs == f.msgs;
  }

  /** `f` is what draining `s[..j]` gave, and the rest of `s` from `k` on is still to be drained. */
  ghost predicate Resumes<M(!new)>(dec: Decoder<M>, s: string, j: nat, f: Fed<M>, k: nat)
    requires Sane(dec)
  {
    && k <= j <= |s| && f.left == s[k..j] && Sturdy(dec, s[k..])
    && Drain(dec, s) == After(f.msgs, Drain(dec, s[k..]))
  }

  lemma ResumesLater<M(!new)>(dec: Decoder<M>, s: string, j: nat, m: M, n: nat, f: Fed<M>, k: nat)
    requires Sane(dec) && n <= j <= |s| && Resumes(dec, s[n..], j - n, f, k) && dec(s) == One(m, n)
    ensures Resumes(dec, s, j, After([m], f), k + n)
  {
    assert s[n..][k..] == s[k + n..];
    assert s[n..][k..j - n] == s[k + n..j];
    AfterAfter([m], f.msgs, Drain(dec, s[k + n..]));
  }

  lemma ResumesAtOnce<M(!new)>(dec: Decoder<M>, s: string, p: string, j: nat)
    requires Sane(dec) && Sturdy(dec, s) && j <= |s| && p == s[..j] && dec(p) == Need
    ensures Resumes(dec, s, j, Drain(dec, p), 0)
  {
    assert s[0..] == s && s[0..j] == p;
    AfterNothing(Drain(dec, s));
  }

  lemma FirmAt<M(!new)>(dec: Decoder<M>, s: string, p: string, j: nat)
    requires Firm(dec, s) && j <= |s| && p == s[..j] && MayCut(p)
    ensures dec(p) == Need || dec(p) == dec(s)
  {
  }

  lemma TailPrefix(s: string, p: string, j: nat, n: nat)
    requires n <= j <= |s| && p == s[..j] && MayCut(p)
    ensures s[n..][..j - n] == p[n..] && MayCut(p[n..])
  {
  }

  /** What `DrainSplit` says of a prefix and what draining it gave. */
  ghost predicate Splits<M(!new)>(dec: Decoder<M>, s: string, j: nat, f: Fed<M>, k: nat)
    requires Sane(dec)
  {
    if f.halt == Need then Resumes(dec, s, j, f, k) else Drain(dec, s).msgs == f.msgs && Drain(dec, s).halt == f.halt
  }

  lemma SplitsLater<M(!new)>(dec: Decoder<M>, s: string, u: string, j: nat, i: nat, m: M, n: nat, f: Fed<M>, k: nat)
    requires Sane(dec) && n <= j <= |s| && u == s[n..] && i == j - n && Splits(dec, u, i, f, k) && dec(s) == One(m, n)
    ensures Splits(dec, s, j, After([m], f), k + n)
  {
    if f.halt == Need { ResumesLater(dec, s, j, m, n, f, k); }
  }

  lemma SplitsAtOnce<M(!new)>(dec: Decoder<M>, s: string, p: string, j: nat)
    requires Sane(dec) && Sturdy(dec, s) && j <= |s| && p == s[..j]
             && (dec(p) == Need || (dec(p).Halt? && dec(p) == dec(s)))
    ensures Splits(dec, s, j, Drain(dec, p), 0)
  {
    if dec(p) == Need { ResumesAtOnce(dec, s, p, j); }
  }

  lemma DrainsOne<M(!new)>(dec: Decoder<M>, p: string, q: string, m: M, n: nat)
    requires Sane(dec) && dec(p) == One(m, n) && q == p[n..]
    ensures Drain(dec, p) == After([m], Drain(dec, q))
  {
  }

  lemma SturdyAfter<M(!new)>(dec: Decoder<M>, s: string, u: string, m: M, n: nat)
    requires Sane(dec) && Sturdy(dec, s) && dec(s) == One(m, n) && u == s[n..]
    ensures Sturdy(dec, u)
  {
  }

  lemma SplitsBoth<M(!new)>(dec: Decoder<M>, s: string, u: string, p: string, q: string, m: M, n: nat, f: Fed<M>,
                            k: nat)
    requires Sane(dec) && dec(p) == dec(s) == One(m, n) && |p| <= |s| && u == s[n..] && q == p[n..]
    requires f == Drain(dec, q) && Splits(dec, u, |q|, f, k)
    ensures After([m], f) == Drain(dec, p) && Splits(dec, s, |p|, After([m], f), k + n)
  {
    DrainsOne(dec, p, q, m, n);
    SplitsLater(dec, s, u, |p|, |q|, m, n, f, k);
  }

  lemma NextPart<M(!new)>(dec: Decoder<M>, s: string, p: string) returns (u: string, q: string, m: M, n: nat)
    requires Sane(dec) && Sturdy(dec, s) && p <= s && MayCut(p) && dec(p).One?
    ensures dec(p) == dec(s) == One(m, n) && 0 < n <= |p| && u == s[n..] && q == p[n..]
    ensures Sturdy(dec, u) && q <= u && MayCut(q) && |u| < |s|
  {
    assert p == s[..|p|];
    FirmAt(dec, s, p, |p|);
    m, n := dec(p).msg, dec(p).len;
    u, q := s[n..], p[n..];
    TailPrefix(s, p, |p|, n);
    SturdyAfter(dec, s, u, m, n);
  }

  lemma LastPart<M(!new)>(dec: Decoder<M>, s: string, p: string)
    requires Sane(dec) && Sturdy(dec, s) && p <= s && MayCut(p) && !dec(p).One?
    ensures Splits(dec, s, |p|, Drain(dec, p), 0)
  {
    assert p == s[..|p|];
    FirmAt(dec, s, p, |p|);
    SplitsAtOnce(dec, s, p, |p|);
  }

  /** Draining a first part and then the rest is draining the whole. */
  lemma {:induction false} DrainSplit<M(!new)>(dec: Decoder<M>, s: string, p: string) returns (f: Fed<M>, k: nat)
    requires Sane(dec) && Sturdy(dec, s) && p <= s && MayCut(p)
    ensures f == Drain(dec, p) && Splits(dec, s, |p|, f, k)
    decreases |s|
  {
    if dec(p).One? {
      var u, q, m, n := NextPart(dec, s, p);
      f, k := DrainSplit(dec, u, q);
      SplitsBoth(dec, s, u, p, q, m, n, f, k);
      f, k := After([m], f), k + n;
    } else {
      LastPart(dec, s, p);
      f, k := Drain(dec, p), 0;
    }
  }

  lemma CutAt(left: string, chunks: seq<string>, s: string, p: string, k: nat)
    requires chunks != [] && s == left + Concat(chunks) && p == left + chunks[0] && k <= |p|
    ensures |p| <= |s| && s[..|p|] == p && s[k..] == p[k..] + Concat(chunks[1..])
  {
  }

  lemma CutEnds(left: string, c: string, k: nat)
    requires MayCut(left) && MayCut(c) && k <= |left + c|
    ensures MayCut(left + c) && MayCut((left + c)[k..])
  {
    if c == "" { assert left + c == left; }
  }

  lemma {:induction false} FeedSturdy<M(!new)>(dec: Decoder<M>, left: string, chunks: seq<string>, s: string)
    requires Sane(dec) && s == left + Concat(chunks) && Sturdy(dec, s) && Drain(dec, left) == Fed([], left, Need)
    requires MayCut(left) && Unparted(chunks)
    ensures Alike(Feed(dec, left, chunks), Drain(dec, s))
    decreases |chunks|
  {
    if chunks == [] {
      assert s == left;
    } else {
      var p := left + chunks[0];
      CutAt(left, chunks, s, p, 0);
      CutEnds(left, chunks[0], 0);
      var f, k := DrainSplit(dec, s, p);
      if f.halt == Need {
        CutAt(left, chunks, s, p, k);
        CutEnds(left, chunks[0], k);
        DrainLeft(dec, p);
        FeedSturdy(dec, f.left, chunks[1..], s[k..]);
      }
    }
  }

  /** What is left over holds no further message. */
  lemma {:induction false} DrainLeft<M(!new)>(dec: Decoder<M>, s: string)
    requires Sane(dec) && Drain(dec, s).halt == Need
    ensures Drain(dec, Drain(dec, s).left) == Fed([], Drain(dec, s).left, Need)
    decreases |s|
  {
    if dec(s).One? { DrainLeft(dec, s[dec(s).len..]); }
  }

  /** Any way to cut a sturdy stream into reads that do not end in CR gives the messages and the remainder of a
      single read. */
  lemma ChunkingIrrelevant<M(!new)>(dec: Decoder<M>, chunks: seq<string>)
    requires Sane(dec) && Sturdy(dec, Concat(chunks)) && Unparted(chunks)
    ensures Alike(Feed(dec, "", chunks), Drain(dec, Concat(chunks)))
  {
    assert "" + Concat(chunks) == Concat(chunks);
    assert Drain(dec, "") == Fed([], "", Need);
    FeedSturdy(dec, "", chunks, Concat(chunks));
  }

  /** A stream without CR cannot be cut behind one. */
  lemma {:induction false} NoCrUnparted(chunks: seq<string>)
    requires '\r' !in Concat(chunks)
    ensures Unparted(chunks)
  {
    if chunks != [] {
      var s := Concat(chunks);
      assert forall i :: 0 <= i < |chunks[0]| ==> s[i] == chunks[0][i];
      assert forall i :: 0 <= i < |Concat(chunks[1..])| ==> s[|chunks[0]| + i] == Concat(chunks[1..])[i];
      NoCrUnparted(chunks[1..]);
      assert forall i :: 1 <= i < |chunks| ==> chunks[i] == chunks[1..][i - 1];
    }
  }

  // ----- streams of encoded messages -----

  /** `e` is a text the decoder takes as `m` whatever follows, and of which no proper part is enough. */
  ghost predicate Encodes<M(!new)>(dec: Decoder<M>, m: M, e: string) {
    && (forall rest: string :: dec(e + rest) == One(m, |e|))
    && (forall j :: 0 <= j < |e| ==> dec(e[..j]) == Need)
  }

  /** A text of which no part is enough for a decision. */
  ghost predicate Unfinished<M(!new)>(dec: Decoder<M>, t: string) { forall j :: 0 <= j <= |t| ==> dec(t[..j]) == Need }

  lemma EncodedFirm<M(!new)>(dec: Decoder<M>, m: M, e: string, rest: string, s: string)
    requires Encodes(dec, m, e) && s == e + rest
    ensures dec(s) == One(m, |e|) && Firm(dec, s)
  {
    forall j | 0 <= j <= |s| && MayCut(s[..j]) ensures dec(s[..j]) == Need || dec(s[..j]) == dec(s) {
      if j < |e| { assert s[..j] == e[..j]; } else { assert s[..j] == e + rest[..j - |e|]; }
    }
  }

  lemma {:induction false} EncodedSturdy<M(!new)>(dec: Decoder<M>, ms: seq<M>, es: seq<string>, tail: string, s: string)
    requires Sane(dec) && |ms| == |es| && (forall i :: 0 <= i < |ms| ==> Encodes(dec, ms[i], es[i]))
             && Unfinished(dec, tail)
    requires s == Concat(es) + tail
    ensures Sturdy(dec, s) && Drain(dec, s) == Fed(ms, tail, Need)
    decreases |ms|
  {
    if ms == [] {
      assert s == tail && tail[..|tail|] == tail;
    } else {
      var rest := Concat(es[1..]) + tail;
      assert s == es[0] + rest && s[|es[0]|..] == rest;
      EncodedFirm(dec, ms[0], es[0], rest, s);
      EncodedSturdy(dec, ms[1..], es[1..], tail, rest);
      assert [ms[0]] + ms[1..] == ms;
    }
  }

  /** However the bytes of a sequence of encoded messages are cut into reads that do not end in CR, the receiver
      takes exactly these messages off the stream, in order, and keeps exactly the bytes of the message still under
      way. */
  lemma EncodedArrive<M(!new)>(dec: Decoder<M>, ms: seq<M>, es: seq<string>, tail: string, chunks: seq<string>)
    requires Sane(dec) && |ms| == |es| && (forall i :: 0 <= i < |ms| ==> Encodes(dec, ms[i], es[i]))
             && Unfinished(dec, tail)
    requires Concat(chunks) == Concat(es) + tail && Unparted(chunks)
    ensures Feed(dec, "", chunks) == Fed(ms, tail, Need)
  {
    EncodedSturdy(dec, ms, es, tail, Concat(es) + tail);
    ChunkingIrrelevant(dec, chunks);
  }

  // ----- streams of lines that end in CR LF -----

  /** The line `l` is taken as `m` with CR LF, whatever follows; with CR alone if no more has arrived; and with
      nothing less. */
  ghost predicate EncodesCr<M(!new)>(dec: Decoder<M>, m: M, l: string) {
    && '\r' !in l && Unfinished(dec, l) && dec(l + "\r") == One(m, |l| + 1)
    && forall rest: string :: dec(l + ("\r\n" + rest)) == One(m, |l| + 2)
  }

  /** A line end with nothing before it ends the session. */
  ghost predicate LfHalts<M(!new)>(dec: Decoder<M>) { forall rest: string :: dec("\n" + rest) == Halt(true) }

  function CrLf(ls: seq<string>): string {
    if ls == [] then "" else ls[0] + ("\r\n" + CrLf(ls[1..]))
  }

  ghost predicate AllEncode<M(!new)>(dec: Decoder<M>, ms: seq<M>, ls: seq<string>, tail: string) {
    && |ms| == |ls| && (forall i :: 0 <= i < |ms| ==> EncodesCr(dec, ms[i], ls[i])) && Unfinished(dec, tail)
        && '\r' !in tail
  }

  /** The text of the line under way. */
  function UnderWay(ls: seq<string>, tail: string): string { if ls == [] then tail else ls[0] }

  /** What draining a part `p` of the stream gives: `k` messages, and part of the next line or, if `p` ends between
      CR and LF, that message too. */
  datatype Part = Whole(k: nat, q: string) | Parted(k: nat)

  ghost predicate Drains<M(!new)>(dec: Decoder<M>, ms: seq<M>, ls: seq<string>, tail: string, p: string,
                                  rest: string, t: Part)
    requires Sane(dec) && |ms| == |ls|
  {
    match t
    case Whole(k, q) =>
      k <= |ls| && Drain(dec, p) == Fed(ms[..k], q, Need) && q <= UnderWay(ls[k..], tail)
          && q + rest == CrLf(ls[k..]) + tail
    case Parted(k) =>
      k < |ls| && Drain(dec, p) == Fed(ms[..k + 1], "", Need) && rest == "\n" + (CrLf(ls[k + 1..]) + tail)
  }

  lemma PrefixNeeds<M(!new)>(dec: Decoder<M>, t: string, p: string)
    requires Sane(dec) && Unfinished(dec, t) && '\r' !in t && p <= t
    ensures Drain(dec, p) == Fed([], p, Need) && MayCut(p)
  {
    assert p == t[..|p|];
  }

  lemma PartedHere<M(!new)>(dec: Decoder<M>, m: M, l: string, p: string)
    requires Sane(dec) && EncodesCr(dec, m, l) && p == l + "\r"
    ensures Drain(dec, p) == Fed([m], "", Need) && !MayCut(p)
  {
    assert p[|p|..] == "";
  }

  lemma LaterParts<T>(xs: seq<T>, k: nat)
    requires k < |xs|
    ensures xs[..k + 1] == [xs[0]] + xs[1..][..k] && xs[k + 1..] == xs[1..][k..]
  {
  }

  lemma DrainsLater<M(!new)>(dec: Decoder<M>, ms: seq<M>, ls: seq<string>, tail: string, p: string, p': string,
                             rest: string, t: Part)
    requires Sane(dec) && |ms| == |ls| > 0 && dec(p) == One(ms[0], |ls[0]| + 2) && p' == p[|ls[0]| + 2..]
    requires Drains(dec, ms[1..], ls[1..], tail, p', rest, t)
    ensures Drains(dec, ms, ls, tail, p, rest, t.(k := t.k + 1))
  {
    DrainsOne(dec, p, p', ms[0], |ls[0]| + 2);
    var k := if t.Whole? then t.k else t.k + 1;
    LaterParts(ms, k);
    LaterParts(ls, k);
  }

  /** How a part of the stream can lie to its first line. */
  lemma FirstCut(l: string, more: string, p: string, rest: string)
    requires p + rest == l + ("\r\n" + more)
    ensures |p| <= |l| ==> p <= l
    ensures |p| == |l| + 1 ==> p == l + "\r" && rest == "\n" + more
    ensures |p| >= |l| + 2 ==> var p' := p[|l| + 2..];
            p == l + ("\r\n" + p') && p' + rest == more && (MayCut(p') <==> MayCut(p))
  {
    var s := p + rest;
    assert s == l + ("\r\n" + more);
    if |p| <= |l| {
      assert forall i :: 0 <= i < |p| ==> p[i] == s[i] == l[i];
    } else {
      assert s[|p|..] == rest && s[..|p|] == p;
      assert s[|l|] == '\r' && s[|l| + 1] == '\n' && s[|l| + 2..] == more && s[..|l|] == l;
      if |p| >= |l| + 2 { CutLater(s, l, p); }
    }
  }

  lemma CutLater(s: string, l: string, p: string)
    requires |l| + 2 <= |p| <= |s| && s[..|p|] == p && s[..|l|] == l && s[|l|] == '\r' && s[|l| + 1] == '\n'
    ensures var p' := p[|l| + 2..];
            p == l + ("\r\n" + p') && p' + s[|p|..] == s[|l| + 2..] && (MayCut(p') <==> MayCut(p))
  {
    assert p[|l|] == s[|l|] && p[|l| + 1] == s[|l| + 1] && p[..|l|] == l;
    BehindCrLf(l, p, p[|l| + 2..]);
    assert s[|l| + 2..] == p[|l| + 2..] + s[|p|..];
  }

  lemma BehindCrLf(l: string, p: string, p': string)
    requires |l| + 2 <= |p| && p[..|l|] == l && p[|l|] == '\r' && p[|l| + 1] == '\n' && p' == p[|l| + 2..]
    ensures p == l + ("\r\n" + p') && (MayCut(p') <==> MayCut(p))
  {
    assert p == p[..|l|] + ([p[|l|], p[|l| + 1]] + p');
  }

  lemma DrainsAtOnce<M(!new)>(dec: Decoder<M>, ms: seq<M>, ls: seq<string>, tail: string, p: string, rest: string)
    requires Sane(dec) && AllEncode(dec, ms, ls, tail) && p + rest == CrLf(ls) + tail && p <= UnderWay(ls, tail)
    ensures Drains(dec, ms, ls, tail, p, rest, Whole(0, p)) && MayCut(p)
  {
    assert ls != [] ==> EncodesCr(dec, ms[0], ls[0]);
    PrefixNeeds(dec, UnderWay(ls, tail), p);
    assert ms[..0] == [] && ls[0..] == ls;
  }

  lemma FirstLine(ls: seq<string>, tail: string, more: string)
    requires ls != [] && more == CrLf(ls[1..]) + tail
    ensures CrLf(ls) + tail == ls[0] + ("\r\n" + more)
  {
  }

  lemma DrainsParted<M(!new)>(dec: Decoder<M>, ms: seq<M>, ls: seq<string>, tail: string, p: string, rest: string)
    requires Sane(dec) && AllEncode(dec, ms, ls, tail) && ls != [] && p == ls[0] + "\r"
             && rest == "\n" + (CrLf(ls[1..]) + tail)
    ensures Drains(dec, ms, ls, tail, p, rest, Parted(0)) && !MayCut(p)
  {
    assert EncodesCr(dec, ms[0], ls[0]);
    PartedHere(dec, ms[0], ls[0], p);
    assert ms[..1] == [ms[0]];
  }

  /** The whole first line is there. */
  lemma FirstTaken<M(!new)>(dec: Decoder<M>, ms: seq<M>, ls: seq<string>, tail: string, p: string, p': string)
    requires AllEncode(dec, ms, ls, tail) && ls != [] && p == ls[0] + ("\r\n" + p')
    ensures dec(p) == One(ms[0], |ls[0]| + 2) && p' == p[|ls[0]| + 2..] && AllEncode(dec, ms[1..], ls[1..], tail)
  {
    assert EncodesCr(dec, ms[0], ls[0]);
    AllEncodeTail(dec, ms, ls, tail, 1);
  }

  lemma {:induction false} DrainCr<M(!new)>(dec: Decoder<M>, ms: seq<M>, ls: seq<string>, tail: string, p: string,
                                            rest: string)
    returns (t: Part)
    requires Sane(dec) && AllEncode(dec, ms, ls, tail) && p + rest == CrLf(ls) + tail
    ensures Drains(dec, ms, ls, tail, p, rest, t) && (t.Whole? <==> MayCut(p))
    decreases |ls|
  {
    if ls == [] {
      assert p + rest == tail && p <= tail;
      DrainsAtOnce(dec, ms, ls, tail, p, rest);
      t := Whole(0, p);
    } else {
      var n, more := |ls[0]|, CrLf(ls[1..]) + tail;
      FirstLine(ls, tail, more);
      FirstCut(ls[0], more, p, rest);
      if |p| <= n {
        DrainsAtOnce(dec, ms, ls, tail, p, rest);
        t := Whole(0, p);
      } else if |p| == n + 1 {
        DrainsParted(dec, ms, ls, tail, p, rest);
        t := Parted(0);
      } else {
        var p' := p[n + 2..];
        FirstTaken(dec, ms, ls, tail, p, p');
        t := DrainCr(dec, ms[1..], ls[1..], tail, p', rest);
        DrainsLater(dec, ms, ls, tail, p, p', rest, t);
        t := t.(k := t.k + 1);
      }
    }
  }

  lemma {:induction false} LfFeed<M(!new)>(dec: Decoder<M>, chunks: seq<string>, rest: string)
    requires Sane(dec) && LfHalts(dec) && Concat(chunks) == "\n" + rest
    ensures Feed(dec, "", chunks).halt == Halt(true)
    decreases |chunks|
  {
    var c := chunks[0];
    assert "" + c == c;
    if c == "" {
      LfFeed(dec, chunks[1..], rest);
    } else {
      assert c == "\n" + c[1..] by { assert Concat(chunks)[0] == c[0]; }
    }
  }

  lemma AfterIs<M>(a: seq<M>, b: seq<M>, f: Fed<M>, tail: string)
    ensures After(a, f) == Fed(a + b, tail, Need) <==> f == Fed(b, tail, Need)
  {
    assert (a + f.msgs)[|a|..] == f.msgs && (a + b)[|a|..] == b;
  }

  lemma UnpartedSplit(chunks: seq<string>)
    requires chunks != []
    ensures Unparted(chunks) <==> MayCut(chunks[0]) && Unparted(chunks[1..])
  {
    assert forall i :: 1 <= i < |chunks| ==> chunks[i] == chunks[1..][i - 1];
  }

  lemma AllEncodeTail<M(!new)>(dec: Decoder<M>, ms: seq<M>, ls: seq<string>, tail: string, k: nat)
    requires AllEncode(dec, ms, ls, tail) && k <= |ms|
    ensures AllEncode(dec, ms[k..], ls[k..], tail)
  {
  }

  lemma FeedWhole<M(!new)>(dec: Decoder<M>, ms: seq<M>, tail: string, left: string, chunks: seq<string>, k: nat,
                           q: string, g: Fed<M>)
    requires Sane(dec) && chunks != [] && k <= |ms| && Drain(dec, left + chunks[0]) == Fed(ms[..k], q, Need)
    requires g == Feed(dec, q, chunks[1..])
    ensures Feed(dec, left, chunks) == Fed(ms, tail, Need) <==> g == Fed(ms[k..], tail, Need)
    ensures Feed(dec, left, chunks).halt == g.halt
  {
    AfterIs(ms[..k], ms[k..], g, tail);
    assert ms[..k] + ms[k..] == ms;
  }

  lemma FeedParted<M(!new)>(dec: Decoder<M>, done: seq<M>, left: string, chunks: seq<string>, rest: string)
    requires Sane(dec) && LfHalts(dec) && chunks != [] && Drain(dec, left + chunks[0]) == Fed(done, "", Need)
    requires Concat(chunks[1..]) == "\n" + rest
    ensures Feed(dec, left, chunks).halt == Halt(true)
  {
    LfFeed(dec, chunks[1..], rest);
  }

  /** What is claimed of a stream from some point on. */
  ghost predicate CrLfRight<M(!new)>(dec: Decoder<M>, ms: seq<M>, tail: string, left: string, chunks: seq<string>)
    requires Sane(dec)
  {
    && (Feed(dec, left, chunks) == Fed(ms, tail, Need) <==> Unparted(chunks))
    && (!Unparted(chunks) ==> Feed(dec, left, chunks).halt == Halt(true))
  }

  lemma CrLfEnd<M(!new)>(dec: Decoder<M>, ls: seq<string>, tail: string, left: string)
    requires Sane(dec) && left == CrLf(ls) + tail && left <= UnderWay(ls, tail)
    ensures ls == [] && CrLfRight<M>(dec, [], tail, left, [])
  {
  }

  lemma CrLfStep<M(!new)>(dec: Decoder<M>, ms: seq<M>, ls: seq<string>, tail: string, left: string,
                          chunks: seq<string>, t: Part)
    requires Sane(dec) && LfHalts(dec) && |ms| == |ls| && chunks != []
    requires Drains(dec, ms, ls, tail, left + chunks[0], Concat(chunks[1..]), t) && (t.Whole? <==> MayCut(chunks[0]))
    requires t.Whole? ==> CrLfRight(dec, ms[t.k..], tail, t.q, chunks[1..])
    ensures CrLfRight(dec, ms, tail, left, chunks)
  {
    UnpartedSplit(chunks);
    if t.Whole? {
      FeedWhole(dec, ms, tail, left, chunks, t.k, t.q, Feed(dec, t.q, chunks[1..]));
    } else {
      FeedParted(dec, ms[..t.k + 1], left, chunks, CrLf(ls[t.k + 1..]) + tail);
    }
  }

  lemma {:induction false} CrLfFeed<M(!new)>(dec: Decoder<M>, ms: seq<M>, ls: seq<string>, tail: string,
                                             left: string, chunks: seq<string>)
    requires Sane(dec) && LfHalts(dec) && AllEncode(dec, ms, ls, tail)
    requires left + Concat(chunks) == CrLf(ls) + tail && left <= UnderWay(ls, tail)
    ensures CrLfRight(dec, ms, tail, left, chunks)
    decreases |chunks|
  {
    if chunks == [] {
      assert left + Concat(chunks) == left;
      CrLfEnd(dec, ls, tail, left);
    } else {
      var p, rest := left + chunks[0], Concat(chunks[1..]);
      assert p + rest == left + Concat(chunks);
      LeftMayCut(dec, ms, ls, tail, left, chunks[0]);
      var t := DrainCr(dec, ms, ls, tail, p, rest);
      if t.Whole? {
        AllEncodeTail(dec, ms, ls, tail, t.k);
        CrLfFeed(dec, ms[t.k..], ls[t.k..], tail, t.q, chunks[1..]);
      }
      CrLfStep(dec, ms, ls, tail, left, chunks, t);
    }
  }

  lemma LeftMayCut<M(!new)>(dec: Decoder<M>, ms: seq<M>, ls: seq<string>, tail: string, left: string, c: string)
    requires AllEncode(dec, ms, ls, tail) && left <= UnderWay(ls, tail)
    ensures MayCut(left + c) <==> MayCut(c)
  {
    assert ls != [] ==> EncodesCr(dec, ms[0], ls[0]);
    assert left == UnderWay(ls, tail)[..|left|];
    if c == "" { assert left + c == left; }
  }

  /** Lines that end in CR LF: exactly the cuts that never part CR from LF bring all messages and keep the line
      under way; any other cut ends the session. */
  lemma CrLfArriveIff<M(!new)>(dec: Decoder<M>, ms: seq<M>, ls: seq<string>, tail: string, chunks: seq<string>)
    requires Sane(dec) && LfHalts(dec) && AllEncode(dec, ms, ls, tail) && Concat(chunks) == CrLf(ls) + tail
    ensures Feed(dec, "", chunks) == Fed(ms, tail, Need) <==> Unparted(chunks)
    ensures !Unparted(chunks) ==> Feed(dec, "", chunks).halt == Halt(true)
  {
    assert "" + Concat(chunks) == Concat(chunks);
    CrLfFeed(dec, ms, ls, tail, "", chunks);
  }

  lemma Reads(a: string, b: string)
    ensures Concat([a, b]) == a + b && Concat([a]) == a
  {
    assert [a, b][1..] == [b] && [b][1..] == [] && [a][1..] == [];
    assert Concat([b]) == b + Concat([]) == b;
    assert a + "" == a;
  }

  /** One line, its CR in one read and its LF in the next, or both in one. */
  lemma CrLfOnce<M(!new)>(dec: Decoder<M>, m: M, l: string, a: string, s: string)
    requires Sane(dec) && LfHalts(dec) && EncodesCr(dec, m, l) && a == l + "\r" && s == l + "\r\n"
    ensures Feed(dec, "", [a, "\n"]).halt == Halt(true) && Feed(dec, "", [s]) == Fed([m], "", Need)
  {
    assert CrLf([l]) + "" == s by { assert [l][1..] == []; }
    assert a + "\n" == s;
    Reads(a, "\n");
    Reads(s, "");
    assert Unfinished(dec, "");
    assert !MayCut([a, "\n"][0]);
    CrLfArriveIff(dec, [m], [l], "", [a, "\n"]);
    CrLfArriveIff(dec, [m], [l], "", [s]);
  }

  // ----- and only they -----

  /** On streams without CR a message is a line: it ends at the first LF, and a decision needs an LF. */
  ghost predicate LineSized<M(!new)>(dec: Decoder<M>) {
    forall s: string :: '\r' !in s ==>
      (dec(s).Need? <==> '\n' !in s) && (dec(s).One? ==> EndsFirstLine(s, dec(s).len))
  }

  ghost predicate EndsFirstLine(s: string, n: nat) {
    0 < n <= |s| && s[n - 1] == '\n' && forall i :: 0 <= i < n - 1 ==> s[i] != '\n'
  }

  /** However the stream is cut, the session is like that of a single read. */
  ghost predicate Independent<M(!new)>(dec: Decoder<M>, s: string)
    requires Sane(dec)
  {
    forall chunks: seq<string> :: Concat(chunks) == s ==> Alike(Feed(dec, "", chunks), Drain(dec, s))
  }

  lemma TwoChunks<M(!new)>(dec: Decoder<M>, a: string, b: string)
    requires Sane(dec)
    ensures Concat([a, b]) == a + b
    ensures var f := Drain(dec, a);
            Feed(dec, "", [a, b]) == if f.halt != Need then f else After(f.msgs, Feed(dec, f.left, [b]))
  {
    assert [a, b][1..] == [b] && [b][1..] == [];
    assert Concat([b]) == b && "" + a == a;
  }

  lemma LineAt<M(!new)>(dec: Decoder<M>, s: string)
    requires LineSized(dec) && '\r' !in s
    ensures (dec(s).Need? <==> '\n' !in s) && (dec(s).One? ==> EndsFirstLine(s, dec(s).len))
  {
  }

  lemma SameFirstLine(s: string, j: nat, n: nat, n': nat)
    requires j <= |s| && EndsFirstLine(s[..j], n) && EndsFirstLine(s, n')
    ensures n == n'
  {
    assert forall i :: 0 <= i < j ==> s[..j][i] == s[i];
    assert s[n - 1] == s[..j][n - 1];
  }

  /** A session whose first read already decides is alike only if the whole decides the same. */
  lemma FirstDecision<M(!new)>(dec: Decoder<M>, a: string, s: string, f: Fed<M>)
    requires Sane(dec) && Alike(f, Drain(dec, s)) && dec(s) != Need
    ensures dec(a).One? && |f.msgs| > 0 && f.msgs[0] == dec(a).msg ==> dec(s).One? && dec(s).msg == dec(a).msg
    ensures dec(a).Halt? && f.msgs == [] && f.halt == dec(a) ==> dec(s) == dec(a)
  {
  }

  lemma FeedStarts<M(!new)>(dec: Decoder<M>, a: string, b: string)
    requires Sane(dec)
    ensures var f := Feed(dec, "", [a, b]);
            && (dec(a).One? ==> |f.msgs| > 0 && f.msgs[0] == dec(a).msg)
            && (dec(a).Halt? ==> f.msgs == [] && f.halt == dec(a))
  {
    TwoChunks(dec, a, b);
  }

  lemma IndependentIsFirm<M(!new)>(dec: Decoder<M>, s: string, j: nat)
    requires Sane(dec) && LineSized(dec) && '\r' !in s && Independent(dec, s) && j <= |s|
    ensures dec(s[..j]) == Need || dec(s[..j]) == dec(s)
  {
    var a, b := s[..j], s[j..];
    if dec(a) != Need {
      LineAt(dec, a);
      LineAt(dec, s);
      assert '\n' in s by { var i :| 0 <= i < j && a[i] == '\n'; assert s[i] == '\n'; }
      TwoChunks(dec, a, b);
      assert a + b == s;
      FeedStarts(dec, a, b);
      FirstDecision(dec, a, s, Feed(dec, "", [a, b]));
      if dec(a).One? { SameFirstLine(s, j, dec(a).len, dec(s).len); }
    }
  }

  lemma IndependentTail<M(!new)>(dec: Decoder<M>, s: string, chunks: seq<string>)
    requires Sane(dec) && LineSized(dec) && '\r' !in s && Independent(dec, s) && dec(s).One?
             && Concat(chunks) == s[dec(s).len..]
    ensures Alike(Feed(dec, "", chunks), Drain(dec, s[dec(s).len..]))
  {
    var m, n := dec(s).msg, dec(s).len;
    var a := s[..n];
    assert a[n - 1] == '\n';
    IndependentIsFirm(dec, s, n);
    assert a[n..] == "";
    assert Drain(dec, a) == Fed([m], "", Need);
    var all := [a] + chunks;
    assert all[1..] == chunks && "" + a == a;
    assert Concat(all) == s;
    assert Alike(Feed(dec, "", all), Drain(dec, s));
    var f, g := Feed(dec, "", chunks), Drain(dec, s[n..]);
    assert f.msgs == ([m] + f.msgs)[1..] && g.msgs == ([m] + g.msgs)[1..];
  }

  lemma {:induction false} IndependentIsSturdy<M(!new)>(dec: Decoder<M>, s: string)
    requires Sane(dec) && LineSized(dec) && '\r' !in s && Independent(dec, s)
    ensures Sturdy(dec, s)
    decreases |s|
  {
    forall j | 0 <= j <= |s| && MayCut(s[..j]) ensures dec(s[..j]) == Need || dec(s[..j]) == dec(s) {
      IndependentIsFirm(dec, s, j);
    }
    if dec(s).One? {
      var r := s[dec(s).len..];
      forall chunks: seq<string> | Concat(chunks) == r ensures Alike(Feed(dec, "", chunks), Drain(dec, r)) {
        IndependentTail(dec, s, chunks);
      }
      IndependentIsSturdy(dec, r);
    }
  }

  /** For a decoder of lines: the way a stream without CR is cut makes no difference exactly when no decision along it
      changes with the text behind the line it is about. */
  lemma ChunkingIrrelevantIff<M(!new)>(dec: Decoder<M>, s: string)
    requires Sane(dec) && LineSized(dec) && '\r' !in s
    ensures Independent(dec, s) <==> Sturdy(dec, s)
  {
    if Sturdy(dec, s) {
      forall chunks: seq<string> | Concat(chunks) == s ensures Alike(Feed(dec, "", chunks), Drain(dec, s)) {
        NoCrUnparted(chunks);
        ChunkingIrrelevant(dec, chunks);
      }
    } else if Independent(dec, s) {
      IndependentIsSturdy(dec, s);
    }
  }

  // ----- the loop -----

  /** `process_input`: takes messages off the front of the buffer until none is complete or the session ends. */
  method ProcessInput<M(!new)>(dec: Decoder<M>, inbuf: string) returns (msgs: seq<M>, left: string, halt: Dec<M>)
    requires Sane(dec)
    ensures Fed(msgs, left, halt) == Drain(dec, inbuf)
  {
    var consumed := 0;
    msgs, halt := [], Need;
    AfterNothing(Drain(dec, inbuf));
    assert inbuf[0..] == inbuf;
    while consumed < |inbuf|
      invariant 0 <= consumed <= |inbuf| && halt == Need
      invariant After(msgs, Drain(dec, inbuf[consumed..])) == Drain(dec, inbuf)
    {
      var d := dec(inbuf[consumed..]);
      if d.Halt? {
        halt := d;
        break;
      }
      if d.Need? { break; }
      AfterAfter(msgs, [d.msg], Drain(dec, inbuf[consumed..][d.len..]));
      assert inbuf[consumed..][d.len..] == inbuf[consumed + d.len..];
      msgs, consumed := msgs + [d.msg], consumed + d.len;
    }
    left := inbuf[consumed..];
    assert msgs + [] == msgs;
  }
}
