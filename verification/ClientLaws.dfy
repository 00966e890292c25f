/** What the client makes of each message, and how one authority hands over to the next. */
module ClientLaws {
  import opened Options
  import opened ClientAuthority

  /** The answer to a logon request decides it; anything else is discarded while the request is open. */
  lemma ReplyDecides(c: State, m: Msg)
    requires Inv(c) && Enabled(c, Receive(m)) && c.status == InProg
    ensures Step(c, Receive(m))
            == if !m.cpdlc || m.logon.None? then c
               else if m.logon.value == "SUCCESS" then c.(status := Complete, failed := false)
               else c.(status := LinkAvail, failed := true)
  {
  }

  /** Off line, pings, pongs and logon replies that nobody asked for are discarded. */
  lemma Discarded(c: State, m: Msg)
    requires Inv(c) && Enabled(c, Receive(m)) && c.status != InProg
    requires c.status != Complete || !m.cpdlc || m.logon.Some?
    ensures Step(c, Receive(m)) == c
  {
  }

  /** An aircraft tells a station that is not its authority so, and takes nothing from it. */
  lemma StrangerRefused(c: State, m: Msg, x: string)
    requires Inv(c) && Enabled(c, Receive(m)) && c.status == Complete && !c.isAtc && m.cpdlc && m.logon.None?
    requires c.to == Some(x) && m.from != x
    ensures Step(c, Receive(m)) == c.(out := c.out + [NotAuthority(m.from, m.min)])
  {
  }

  // ----- the segments of a message, by position -----

  /** Of the first `n` segments, the one at `p` is the last UM160. */
  ghost predicate LastNext(segs: seq<Seg>, n: nat, p: nat) {
    p < n <= |segs| && segs[p].NextAuthority? && forall x :: p < x < n ==> !segs[x].NextAuthority?
  }

  ghost predicate NoNext(segs: seq<Seg>, n: nat) { n <= |segs| && forall x :: 0 <= x < n ==> !segs[x].NextAuthority? }

  /** Behind the first `n` segments the next authority is `y`: the one last named, unless that is the authority itself,
      or the one before the message. */
  ghost predicate NextIs(c: State, segs: seq<Seg>, n: nat, y: Option<string>) {
    || (NoNext(segs, n) && y == c.nda)
    || (exists p: nat :: LastNext(segs, n, p) && y == if Some(segs[p].name) == c.to then None else Some(segs[p].name))
  }

  ghost predicate LastEnd(segs: seq<Seg>, n: nat, p: nat) {
    p < n <= |segs| && segs[p].EndService? && forall x :: p < x < n ==> !segs[x].EndService?
  }

  lemma {:induction false} SegsSnoc(c: State, segs: seq<Seg>, s: Seg)
    requires c.to.Some?
    ensures HandleSegs(c, segs + [s]) == HandleSeg(HandleSegs(c, segs), s)
    decreases |segs|
  {
    if segs == [] {
      assert (segs + [s])[1..] == [];
    } else {
      assert (segs + [s])[1..] == segs[1..] + [s];
      SegsSnoc(HandleSeg(c, segs[0]), segs[1..], s);
    }
  }

  lemma NextGrows(c: State, segs: seq<Seg>, n: nat, y: Option<string>)
    requires n < |segs| && NextIs(c, segs, n, y)
    ensures !segs[n].NextAuthority? ==> NextIs(c, segs, n + 1, y)
    ensures segs[n].NextAuthority? ==>
              NextIs(c, segs, n + 1, if Some(segs[n].name) == c.to then None else Some(segs[n].name))
  {
    if segs[n].NextAuthority? {
      assert LastNext(segs, n + 1, n);
    } else if !NoNext(segs, n) {
      var p: nat :| LastNext(segs, n, p) && y == if Some(segs[p].name) == c.to then None else Some(segs[p].name);
      assert LastNext(segs, n + 1, p);
    }
  }

  /** Where the segments leave the client: the next authority, and the status after the last END SERVICE. */
  ghost predicate Leaves(c: State, segs: seq<Seg>, n: nat, c': State)
    requires n <= |segs|
  {
    && NextIs(c, segs, n, c'.nda)
    && ((forall x :: 0 <= x < n ==> !segs[x].EndService?) ==> c'.status == c.status && c'.doLogon == c.doLogon)
    && (forall q: nat :: LastEnd(segs, n, q) ==> EndedAt(c, segs, q, c'))
  }

  /** The END SERVICE at `q`: with a next authority the client is to log on there, without one the link goes down. */
  ghost predicate EndedAt(c: State, segs: seq<Seg>, q: nat, c': State)
    requires q <= |segs|
  {
    exists y :: NextIs(c, segs, q, y) && if y.Some? then c'.status == LinkAvail && c'.doLogon else c'.status == Down
  }

  lemma EndsAt(c: State, segs: seq<Seg>, n: nat, c1: State, c2: State)
    requires n < |segs| && NextIs(c, segs, n, c1.nda) && segs[n].EndService? && c2 == HandleEndService(c1)
    ensures EndedAt(c, segs, n, c2)
  {
  }

  lemma EndedStays(c: State, segs: seq<Seg>, q: nat, c1: State, c2: State)
    requires q <= |segs| && EndedAt(c, segs, q, c1) && c2.status == c1.status && c2.doLogon == c1.doLogon
    ensures EndedAt(c, segs, q, c2)
  {
    var y :| NextIs(c, segs, q, y) && if y.Some? then c1.status == LinkAvail && c1.doLogon else c1.status == Down;
  }

  lemma LastEndNext(c: State, segs: seq<Seg>, n: nat, c1: State, c2: State, q: nat)
    requires n < |segs| && Leaves(c, segs, n, c1) && c1.to.Some? && c2 == HandleSeg(c1, segs[n])
    requires LastEnd(segs, n + 1, q)
    ensures EndedAt(c, segs, q, c2)
  {
    if q == n {
      EndsAt(c, segs, n, c1, c2);
    } else {
      assert LastEnd(segs, n, q) && !segs[n].EndService?;
      EndedStays(c, segs, q, c1, c2);
    }
  }

  lemma NextStep(c: State, segs: seq<Seg>, n: nat, c1: State)
    requires n < |segs| && NextIs(c, segs, n, c1.nda) && c1.to == c.to && c.to.Some?
    ensures NextIs(c, segs, n + 1, HandleSeg(c1, segs[n]).nda)
  {
    NextGrows(c, segs, n, c1.nda);
  }

  lemma LeavesNext(c: State, segs: seq<Seg>, n: nat, c1: State)
    requires n < |segs| && Leaves(c, segs, n, c1) && c1.to == c.to && c.to.Some?
    ensures Leaves(c, segs, n + 1, HandleSeg(c1, segs[n]))
  {
    var c2 := HandleSeg(c1, segs[n]);
    NextStep(c, segs, n, c1);
    forall q: nat | LastEnd(segs, n + 1, q) ensures EndedAt(c, segs, q, c2) { LastEndNext(c, segs, n, c1, c2, q); }
    if forall x :: 0 <= x < n + 1 ==> !segs[x].EndService? {
      assert !segs[n].EndService?;
    }
  }

  /** What the segments of the authority's message do to an aircraft client, for every sequence of segments. */
  lemma {:induction false} SegsLeave(c: State, segs: seq<Seg>, n: nat)
    requires c.to.Some? && n <= |segs|
    ensures Leaves(c, segs, n, HandleSegs(c, segs[..n]))
    decreases n
  {
    if n == 0 {
      assert segs[..0] == [];
    } else {
      SegsLeave(c, segs, n - 1);
      assert segs[..n] == segs[..n - 1] + [segs[n - 1]];
      SegsSnoc(c, segs[..n - 1], segs[n - 1]);
      LeavesNext(c, segs, n - 1, HandleSegs(c, segs[..n - 1]));
    }
  }

  /** A message of the authority is taken, and its segments decide where the client goes. */
  lemma AuthorityHeard(c: State, m: Msg)
    requires Inv(c) && Enabled(c, Receive(m)) && c.status == Complete && !c.isAtc && m.cpdlc && m.logon.None?
    requires c.to == Some(m.from)
    ensures var c' := Step(c, Receive(m));
            && Leaves(c, m.segs, |m.segs|, c') && c'.to == c.to && c'.out == c.out
            && c'.inq == if m.segs == [] then c.inq else c.inq + [m]
  {
    HandleSegsKeeps(c, m.segs);
    SegsLeave(c, m.segs, |m.segs|);
    assert m.segs[..|m.segs|] == m.segs;
  }

  // ----- handing over -----

  /** END SERVICE without a next authority takes the link down, and the station is forgotten when the worker exits. */
  lemma EndOfService(c: State, m: Msg)
    requires Inv(c) && Enabled(c, Receive(m)) && c.status == Complete && !c.isAtc && m.cpdlc && m.logon.None?
    requires c.to == Some(m.from) && c.nda.None? && m.segs == [EndService]
    ensures var c1 := Step(c, Receive(m));
            && c1.status == Down && Inv(c1) && Enabled(c1, Exit)
            && Step(c1, Exit).to.None? && !Step(c1, Exit).running && Step(c1, Exit).out == c.out
  {
    StepInv(c, Receive(m));
    OneSeg(c, EndService);
  }

  lemma OneSeg(c: State, s: Seg)
    requires c.to.Some?
    ensures HandleSegs(c, [s]) == HandleSeg(c, s)
  {
    assert [s][1..] == [];
  }

  /** The handover, from any complete logon: the authority `x` names `y` and ends its service; the client asks `y` for a
      logon, and with its consent `y` is the authority. */
  lemma Handover(c: State, x: string, y: string, offer: Msg, end: Msg, reply: Msg) returns (cs: seq<State>)
    requires Inv(c) && !c.aborted && c.running && !c.starting && !c.failed && c.status == Complete && !c.isAtc
    requires c.to == Some(x) && x != y
    requires offer.cpdlc && offer.logon.None? && offer.from == x && offer.segs == [NextAuthority(y)]
    requires end.cpdlc && end.logon.None? && end.from == x && end.segs == [EndService]
    requires reply.cpdlc && reply.logon == Some("SUCCESS")
    ensures var es := [Receive(offer), Receive(end), Turn, Receive(reply)];
            |cs| == 5 && cs[0] == c && forall i :: 0 <= i < 4 ==> Moves(cs[i], es[i], cs[i + 1])
    ensures cs[2].to == Some(x) && cs[3].out == c.out + [LogonRequest(Some(y))] && cs[3].to == Some(y)
    ensures cs[4].status == Complete && cs[4].to == Some(y) && cs[4].nda.None? && cs[4].inq == c.inq + [offer, end]
  {
    OneSeg(c, NextAuthority(y));
    var c1 := c.(nda := Some(y), inq := c.inq + [offer]);
    var c2 := c1.(doLogon := true, status := LinkAvail, inq := c1.inq + [end]);
    OneSeg(c1, EndService);
    var c3 := SendLogon(c2);
    var c4 := c3.(status := Complete);
    cs := [c, c1, c2, c3, c4];
    var es := [Receive(offer), Receive(end), Turn, Receive(reply)];
    assert Moves(c, es[0], c1) && Moves(c1, es[1], c2) && Moves(c2, es[2], c3) && Moves(c3, es[3], c4);
    assert c1.inq + [end] == c.inq + [offer, end];
  }

  // ----- calls -----

  /** A logon call asks for the station named, forgets the next authority and an earlier failure, and starts the worker
      if there is none. */
  lemma LogonCall(c: State, target: Option<string>)
    requires Inv(c) && Enabled(c, CallLogon(target))
    ensures var c' := Step(c, CallLogon(target));
            && c'.doLogon && c'.to == target && c'.nda.None? && !c'.failed && c'.running && c'.called
            && (c'.starting <==> c.starting || !c.running)
            && c'.status == c.status && c'.inq == c.inq && c'.out == c.out
  {
  }

  /** A logoff call with an identity sends LOGOFF while the logon is complete, and nothing otherwise; one without takes
      the link down. */
  lemma LogoffCall(c: State)
    requires Inv(c) && !c.aborted
    ensures c.called ==>
              Step(c, CallLogoff(true))
              == if c.status == Complete then c.(out := c.out + [LogoffRequest(c.to)]) else c
    ensures Step(c, CallLogoff(false)) == c.(status := Down, failed := false)
  {
  }

  /** The worker's logon request goes to the next authority if there is one, which becomes the authority. */
  lemma RequestGoesTo(c: State)
    requires Inv(c) && Enabled(c, Turn)
    ensures var c', y := Step(c, Turn), if c.nda.Some? then c.nda else c.to;
            c'.out == c.out + [LogonRequest(y)] && c'.to == y && c'.nda.None? && c'.status == InProg && !c'.doLogon
  {
  }
}
