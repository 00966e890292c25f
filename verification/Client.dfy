/**
 The client's logon and data-authority machine. One step is one stretch of code under the client's lock.
 The link itself (sockets, TLS) appears only as events.
 */
module ClientAuthority {
  import opened Options

  datatype Status = Down | Connecting | Handshaking | LinkAvail | InProg | Complete

  /** UM161, UM160 with the name it gives, and everything else. */
  datatype Seg = EndService | NextAuthority(name: string) | OtherSeg

  datatype Msg = Msg(cpdlc: bool, logon: Option<string>, from: string, min: nat, segs: seq<Seg>)

  /** What the machine itself sends: a logon or logoff request, or DM63 to a station that is not the current data
      authority. */
  datatype Out = LogonRequest(target: Option<string>) | LogoffRequest(target: Option<string>)
      | NotAuthority(to: string, mrn: nat)

  /** `to` is the current data authority (CDA), `nda` the next one. `starting`: the worker has not tried to connect yet.
      `called`: there has been a logon call, which
      stores the client's own name. `aborted`: the program has used a name that is a null pointer. */
  datatype State = State(
    isAtc: bool, running: bool, starting: bool, status: Status, failed: bool,
    to: Option<string>, nda: Option<string>, doLogon: bool, inq: seq<Msg>, out: seq<Out>,
    called: bool, aborted: bool)

  function Init(isAtc: bool): State {
    State(isAtc, false, false, Down, false, None, None, false, [], [], false, false)
  }

  // ----- the steps -----

  /** `cpdlc_client_logon` */
  function Logon(c: State, to: Option<string>): State {
    c.(doLogon := true, nda := None, to := to, failed := false, running := true, starting := c.starting || !c.running,
       called := true)
  }

  /** `cpdlc_client_logoff`: with an identity a soft logoff, which needs the client's own name and goes out only
      while the logon is complete; without one the link goes down. */
  function Logoff(c: State, named: bool): State {
    if !named then c.(status := Down, failed := false)
    else if !c.called then c.(aborted := true)
    else if c.status == Complete then c.(out := c.out + [LogoffRequest(c.to)])
    else c
  }

  /** `send_logon` */
  function SendLogon(c: State): State {
    var to := if c.nda.Some? then c.nda else c.to;
    c.(to := to, nda := None, out := c.out + [LogonRequest(to)], status := InProg, doLogon := false)
  }

  /** `handle_end_svc` */
  function HandleEndService(c: State): State {
    if c.nda.Some? then c.(doLogon := true, status := LinkAvail) else c.(status := Down)
  }

  /** `handle_nda` */
  function HandleNext(c: State, name: string): State
    requires c.to.Some?
  {
    c.(nda := if name != c.to.value then Some(name) else None)
  }

  function HandleSeg(c: State, s: Seg): (c': State)
    requires c.to.Some?
    ensures c'.to == c.to
  {
    match s
    case EndService => HandleEndService(c)
    case NextAuthority(name) => HandleNext(c, name)
    case OtherSeg => c
  }

  function HandleSegs(c: State, segs: seq<Seg>): (c': State)
    requires c.to.Some?
    ensures c'.to == c.to
    decreases |segs|
  {
    if segs == [] then c else HandleSegs(HandleSeg(c, segs[0]), segs[1..])
  }

  /** `queue_incoming_msg` */
  function QueueIncoming(c: State, m: Msg): State {
    if !c.isAtc && c.to.None? then c.(aborted := true)
    else if !c.isAtc && m.from != c.to.value then c.(out := c.out + [NotAuthority(m.from, m.min)])
    else
      var c1 := if c.isAtc then c else HandleSegs(c, m.segs);
      if m.segs == [] then c1 else c1.(inq := c1.inq + [m])
  }

  /** `process_msg` */
  function ProcessMsg(c: State, m: Msg): State {
    if !m.cpdlc then c
    else if c.status == InProg then
      if m.logon.None? then c
      else if m.logon.value == "SUCCESS" then c.(status := Complete, failed := false)
      else c.(status := LinkAvail, failed := true)
    else if c.status == Complete && m.logon.None? then QueueIncoming(c, m)
    else c
  }

  /** `reset_link_state` at the end of the worker */
  function Reset(c: State): State {
    c.(running := false, status := Down, to := None, nda := None, inq := [])
  }

  /** Calls of the program, turns of the worker, and what the link brings. `Tune` is any change of the link's state that
      keeps the client below COMPLETE; `Fail` is a malformed message or a lost link. */
  datatype Event =
    | CallLogon(target: Option<string>) | CallLogoff(named: bool) | Tune(st: Status) | Fail(report: bool)
    | Turn | Receive(m: Msg) | Exit | Take

  predicate Polls(st: Status) { st == LinkAvail || st == InProg || st == Complete }

  predicate Enabled(c: State, e: Event) { !c.aborted && MayHappen(c, e) }

  predicate MayHappen(c: State, e: Event) {
    match e
    case CallLogon(_) => true
    case CallLogoff(_) => true
    case Tune(st) =>
      c.running && !c.failed
      && ((c.starting && (st == Connecting || st == Down))
          || (!c.starting && c.status == Connecting && st != InProg && st != Complete)
          || (!c.starting && c.status == Handshaking && st == LinkAvail))
    case Fail(_) => c.running && !c.starting
    case Turn => c.running && !c.starting && !c.failed && Polls(c.status) && c.doLogon
    case Receive(_) => c.running && !c.starting && c.status != Connecting && c.status != Handshaking
    case Exit => c.running && !c.starting && (c.status == Down || c.failed)
    case Take => c.inq != []
  }

  ghost predicate Inv(c: State) {
    && (!c.isAtc && c.to.None? ==> c.nda.None?)
    && (c.status != Down ==> c.running && !c.starting)
    && (c.starting ==> c.running && c.status == Down && c.nda.None?)
    && (!c.running ==> c.status == Down)
    && (c.running || c.doLogon ==> c.called)
  }

  function Step(c: State, e: Event): State
    requires Inv(c) && Enabled(c, e)
  {
    match e
    case CallLogon(target) => Logon(c, target)
    case CallLogoff(named) => Logoff(c, named)
    case Tune(st) => c.(status := st, starting := false)
    case Fail(report) => c.(status := Down, failed := c.failed || report)
    case Turn => SendLogon(c)
    case Receive(m) => ProcessMsg(c, m)
    case Exit => Reset(c)
    case Take => c.(inq := c.inq[1..])
  }

  lemma HandleSegsKeeps(c: State, segs: seq<Seg>)
    requires c.to.Some? && c.running && !c.starting
    ensures var c' := HandleSegs(c, segs);
            && c'.isAtc == c.isAtc && c'.running && !c'.starting && c'.inq == c.inq && c'.out == c.out
            && c'.called == c.called && c'.aborted == c.aborted
            && (c'.nda == c.nda || c'.nda.None? || NextAuthority(c'.nda.value) in segs)
    decreases |segs|
  {
    if segs != [] { HandleSegsKeeps(HandleSeg(c, segs[0]), segs[1..]); }
  }

  lemma StepInv(c: State, e: Event)
    requires Inv(c) && Enabled(c, e)
    ensures Inv(Step(c, e)) && Step(c, e).isAtc == c.isAtc
  {
    if e.Receive? && c.status == Complete && !c.isAtc && c.to.Some? { HandleSegsKeeps(c, e.m.segs); }
  }

  // ----- runs -----

  ghost predicate Moves(c: State, e: Event, c': State) {
    Inv(c) ==> Enabled(c, e) && c' == Step(c, e)
  }

  ghost predicate Behaves(cs: seq<State>, es: seq<Event>) {
    |cs| == |es| + 1 && (cs[0] == Init(true) || cs[0] == Init(false))
    && forall i :: 0 <= i < |es| ==> Moves(cs[i], es[i], cs[i + 1])
  }

  lemma {:induction false} EveryStateOk(cs: seq<State>, es: seq<Event>, i: nat)
    requires Behaves(cs, es) && i < |cs|
    ensures Inv(cs[i]) && cs[i].isAtc == cs[0].isAtc
    ensures i < |es| ==> Enabled(cs[i], es[i]) && cs[i + 1] == Step(cs[i], es[i])
  {
    if i > 0 {
      EveryStateOk(cs, es, i - 1);
      StepInv(cs[i - 1], es[i - 1]);
    }
    assert i < |es| ==> Moves(cs[i], es[i], cs[i + 1]);
  }

  /** In every run of an aircraft client: the incoming queue grows only by a message of the current data authority,
      taken while the logon is complete. */
  lemma QueuedCameFromAuthority(cs: seq<State>, es: seq<Event>, i: nat)
    requires Behaves(cs, es) && i < |es| && !cs[0].isAtc && |cs[i + 1].inq| > |cs[i].inq|
    ensures es[i].Receive? && cs[i + 1].inq == cs[i].inq + [es[i].m]
    ensures cs[i].status == Complete && cs[i].to == Some(es[i].m.from)
  {
    EveryStateOk(cs, es, i);
    var c := cs[i];
    if es[i].Receive? && c.status == Complete && c.to.Some? { HandleSegsKeeps(c, es[i].m.segs); }
  }

  /** At step `j` the current data authority `x` named `y` as the next one, in a message of its own. */
  ghost predicate Offered(cs: seq<State>, es: seq<Event>, j: nat, x: string, y: string) {
    && j < |es| && j < |cs| && es[j].Receive? && es[j].m.cpdlc && es[j].m.logon.None?
    && cs[j].status == Complete && cs[j].to == Some(x) && es[j].m.from == x
    && NextAuthority(y) in es[j].m.segs
  }

  /** `x` has been the authority all along from step `j` to step `i`. */
  ghost predicate Since(cs: seq<State>, j: nat, i: nat, x: string) {
    forall k :: j <= k <= i && k < |cs| ==> cs[k].to == Some(x)
  }

  /** How the next authority can change in one step. */
  lemma NextAuthorityStep(c: State, e: Event, y: string)
    requires Inv(c) && Enabled(c, e) && !c.isAtc && Step(c, e).nda == Some(y)
    ensures Step(c, e).to == c.to && c.to.Some?
    ensures c.nda == Some(y) || (e.Receive? && e.m.cpdlc && e.m.logon.None? && c.status == Complete
                                 && c.to == Some(e.m.from) && NextAuthority(y) in e.m.segs)
  {
    if e.Receive? && c.status == Complete && c.to.Some? { HandleSegsKeeps(c, e.m.segs); }
  }

  /** A next authority was named by the authority of that time, which has not changed since. */
  lemma {:induction false} NextWasOffered(cs: seq<State>, es: seq<Event>, i: nat, y: string) returns (j: nat)
    requires Behaves(cs, es) && i < |cs| && !cs[0].isAtc && cs[i].nda == Some(y)
    ensures cs[i].to.Some? && j < i && Offered(cs, es, j, cs[i].to.value, y) && Since(cs, j, i, cs[i].to.value)
  {
    EveryStateOk(cs, es, i);
    if i > 0 {
      EveryStateOk(cs, es, i - 1);
      NextAuthorityStep(cs[i - 1], es[i - 1], y);
      if cs[i - 1].nda == Some(y) { j := NextWasOffered(cs, es, i - 1, y); }
      else { j := i - 1; }
    }
  }

  /** The chain of authority: between logon calls, the authority changes only to a station that the authority being
      replaced has named in a UM160 of its own, while it was the authority and the logon was complete. */
  lemma AuthorityChain(cs: seq<State>, es: seq<Event>, i: nat, x: string, y: string) returns (j: nat)
    requires Behaves(cs, es) && i < |es| && !cs[0].isAtc && !es[i].CallLogon?
    requires cs[i].to == Some(x) && cs[i + 1].to == Some(y) && x != y
    ensures es[i].Turn? && j < i && Offered(cs, es, j, x, y) && Since(cs, j, i, x)
  {
    EveryStateOk(cs, es, i);
    if es[i].Receive? && cs[i].status == Complete { HandleSegsKeeps(cs[i], es[i].m.segs); }
    j := NextWasOffered(cs, es, i, y);
  }

  /** Only a call of the program gives an aircraft client without authority a new one. */
  lemma FirstAuthorityIsChosen(cs: seq<State>, es: seq<Event>, i: nat)
    requires Behaves(cs, es) && i < |es| && !cs[0].isAtc && cs[i].to.None? && cs[i + 1].to.Some?
    ensures es[i] == CallLogon(cs[i + 1].to)
  {
    EveryStateOk(cs, es, i);
  }

  // ----- a logon without a station -----

  /** Exactly what aborts the client: a CPDLC message without logon data that reaches an aircraft whose logon is
      complete but which has no authority, or a logoff by identity before any logon call. */
  lemma AbortsIff(c: State, e: Event)
    requires Inv(c) && Enabled(c, e)
    ensures Step(c, e).aborted <==>
            || (e.Receive? && e.m.cpdlc && e.m.logon.None? && !c.isAtc && c.status == Complete && c.to.None?)
            || (e == CallLogoff(true) && !c.called)
  {
    if e.Receive? && c.status == Complete && !c.isAtc && c.to.Some? { HandleSegsKeeps(c, e.m.segs); }
  }

  /** An aircraft without authority is off line. */
  ghost predicate Named(c: State) { !c.aborted && (!c.isAtc && c.to.None? ==> c.status == Down && !c.starting) }

  /** A program that names a station in each of its logon calls, and makes one before it logs off by identity. */
  ghost predicate Careful(es: seq<Event>) {
    && (forall k :: 0 <= k < |es| ==> es[k] != CallLogon(None))
    && (forall k :: 0 <= k < |es| && es[k] == CallLogoff(true) ==> exists j :: 0 <= j < k && es[j].CallLogon?)
  }

  /** The client knows its own name from the first logon call on. */
  lemma {:induction false} CalledOnce(cs: seq<State>, es: seq<Event>, j: nat, i: nat)
    requires Behaves(cs, es) && j < i < |cs| && es[j].CallLogon?
    ensures cs[i].called
  {
    EveryStateOk(cs, es, i - 1);
    if j < i - 1 {
      CalledOnce(cs, es, j, i - 1);
      CalledKept(cs[i - 1], es[i - 1]);
    }
  }

  lemma CalledKept(c: State, e: Event)
    requires Inv(c) && Enabled(c, e) && c.called
    ensures Step(c, e).called
  {
    if e.Receive? && c.status == Complete && !c.isAtc && c.to.Some? { HandleSegsKeeps(c, e.m.segs); }
  }

  /** Such a program never aborts. */
  lemma {:induction false} CarefulNeverAborts(cs: seq<State>, es: seq<Event>, i: nat)
    requires Behaves(cs, es) && i < |cs| && !cs[0].isAtc && Careful(es)
    ensures Named(cs[i])
  {
    if i > 0 {
      var c, e := cs[i - 1], es[i - 1];
      CarefulNeverAborts(cs, es, i - 1);
      EveryStateOk(cs, es, i - 1);
      if e == CallLogoff(true) {
        var j :| 0 <= j < i - 1 && es[j].CallLogon?;
        CalledOnce(cs, es, j, i - 1);
      }
      AbortsIff(c, e);
      NamedStep(c, e);
    }
  }

  lemma NamedStep(c: State, e: Event)
    requires Inv(c) && Enabled(c, e) && Named(c) && e != CallLogon(None)
    ensures Step(c, e).aborted || Named(Step(c, e))
  {
    if e.Receive? && c.status == Complete && !c.isAtc && c.to.Some? { HandleSegsKeeps(c, e.m.segs); }
  }

  /** The other input: a logoff by identity as the first call. */
  lemma EarlyLogoffAborts(atc: bool)
    ensures var c := Init(atc); Inv(c) && Enabled(c, CallLogoff(true)) && Step(c, CallLogoff(true)).aborted
  {
  }

  const GREETING := Msg(true, Some("SUCCESS"), "AFN", 0, [])
  const ANY := Msg(true, None, "KUSA", 1, [OtherSeg])

  const NAMELESS := [CallLogon(Some("KUSA")), Tune(Connecting), Tune(LinkAvail), Turn, Receive(GREETING),
                     CallLogon(None), Receive(ANY)]

  /** The input: a logon call without a station while the logon is complete. The next message aborts the client. */
  lemma NamelessLogonAborts() returns (cs: seq<State>)
    ensures Behaves(cs, NAMELESS) && !cs[0].isAtc && cs[7].aborted
  {
    var c1 := Logon(Init(false), Some("KUSA"));
    var c2 := c1.(status := Connecting, starting := false);
    var c3 := c2.(status := LinkAvail);
    var c4 := SendLogon(c3);
    var c5 := c4.(status := Complete);
    var c6 := Logon(c5, None);
    cs := [Init(false), c1, c2, c3, c4, c5, c6, c6.(aborted := true)];
    assert Moves(cs[0], NAMELESS[0], cs[1]) && Moves(cs[1], NAMELESS[1], cs[2]) && Moves(cs[2], NAMELESS[2], cs[3]);
    assert Moves(cs[3], NAMELESS[3], cs[4]) && Moves(cs[4], NAMELESS[4], cs[5]);
    assert Moves(cs[5], NAMELESS[5], cs[6]) && Moves(cs[6], NAMELESS[6], cs[7]);
  }

  // ----- a logon call that comes too late -----

  /** The worker has left its loop, or will without another turn, and has not reset the link yet. */
  ghost predicate Leaving(c: State) { c.running && !c.starting && c.status == Down }

  /** A stretch of a run, from any sound state. */
  ghost predicate Follows(cs: seq<State>, es: seq<Event>) {
    |cs| == |es| + 1 && Inv(cs[0])
    && forall i :: 0 <= i < |es| ==> Inv(cs[i]) && Enabled(cs[i], es[i]) && cs[i + 1] == Step(cs[i], es[i])
  }

  lemma {:induction false} LeavingSendsNothing(cs: seq<State>, es: seq<Event>, i: nat)
    requires Follows(cs, es) && i < |cs| && Leaving(cs[0]) && forall k :: 0 <= k < |es| ==> !es[k].Exit?
    ensures Leaving(cs[i]) && cs[i].out == cs[0].out
  {
    if i > 0 { LeavingSendsNothing(cs, es, i - 1); }
  }

  /** Served: behind the call, before the worker exits and without another call, the request for the station goes
      out. */
  ghost predicate Serves(c: State, target: Option<string>, cs: seq<State>, es: seq<Event>) {
    && Follows(cs, es) && cs[0] == Logon(c, target)
    && (forall k :: 0 <= k < |es| ==> !es[k].Exit? && !es[k].CallLogon?)
    && cs[|es|].out == c.out + [LogonRequest(target)]
  }

  lemma OneMore(cs: seq<State>, es: seq<Event>, e: Event)
    requires Follows(cs, es) && Inv(cs[|es|]) && Enabled(cs[|es|], e)
    ensures Follows(cs + [Step(cs[|es|], e)], es + [e])
  {
  }

  lemma Reaches(c: State, target: Option<string>) returns (cs: seq<State>, es: seq<Event>)
    requires Inv(c) && !c.aborted && !Leaving(c)
    ensures Follows(cs, es) && cs[0] == Logon(c, target) && (forall k :: 0 <= k < |es| ==> es[k].Tune?)
    ensures var l := cs[|es|]; Inv(l) && Enabled(l, Turn) && l.out == c.out && l.to == target && l.nda.None?
  {
    cs, es := [Logon(c, target)], [];
    StepInv(c, CallLogon(target));
    if cs[0].starting {
      StepInv(cs[0], Tune(Connecting));
      OneMore(cs, es, Tune(Connecting));
      cs, es := cs + [Step(cs[0], Tune(Connecting))], es + [Tune(Connecting)];
    }
    var l := cs[|es|];
    if l.status == Connecting || l.status == Handshaking {
      StepInv(l, Tune(LinkAvail));
      OneMore(cs, es, Tune(LinkAvail));
      cs, es := cs + [Step(l, Tune(LinkAvail))], es + [Tune(LinkAvail)];
    }
  }

  /** Exactly when a logon call is lost: it can still lead to its request if and only if the worker is not on its
      way out. A worker on its way out forgets the station when it exits. */
  lemma LogonServedIff(c: State, target: Option<string>)
    requires Inv(c) && !c.aborted
    ensures (exists cs, es :: Serves(c, target, cs, es)) <==> !Leaving(c)
    ensures Leaving(c) ==> Enabled(Logon(c, target), Exit) && Step(Logon(c, target), Exit).to.None?
  {
    StepInv(c, CallLogon(target));
    if Leaving(c) {
      if cs, es :| Serves(c, target, cs, es) { LeavingSendsNothing(cs, es, |es|); }
    } else {
      var cs, es := Reaches(c, target);
      OneMore(cs, es, Turn);
      assert Serves(c, target, cs + [Step(cs[|es|], Turn)], es + [Turn]);
    }
  }

  const LATE := [CallLogon(Some("KUSA")), Tune(Connecting), CallLogoff(false), CallLogon(Some("KUSB")), Exit]

  /** A run in which a logon call comes too late: the link has been taken down, the worker has not finished yet, and
      when it does the station is forgotten, though a logon is still wanted. */
  lemma LateLogonIsLost() returns (cs: seq<State>)
    ensures Behaves(cs, LATE) && Leaving(cs[3]) && cs[4] == Logon(cs[3], Some("KUSB"))
    ensures cs[5].doLogon && !cs[5].running && cs[5].to.None? && cs[5].out == []
  {
    var c1 := Logon(Init(false), Some("KUSA"));
    var c2 := c1.(status := Connecting, starting := false);
    var c3 := Logoff(c2, false);
    var c4 := Logon(c3, Some("KUSB"));
    cs := [Init(false), c1, c2, c3, c4, Reset(c4)];
    assert Moves(cs[0], LATE[0], cs[1]) && Moves(cs[1], LATE[1], cs[2]) && Moves(cs[2], LATE[2], cs[3]);
    assert Moves(cs[3], LATE[3], cs[4]) && Moves(cs[4], LATE[4], cs[5]);
  }

  // ----- the client object -----

  class Client {
    const isAtc: bool
    var running: bool
    var starting: bool
    var status: Status
    var failed: bool
    var to: Option<string>
    var nda: Option<string>
    var doLogon: bool
    var inq: seq<Msg>
    var out: seq<Out>
    var called: bool
    var aborted: bool

    ghost function Value(): State
      reads this
    {
      State(isAtc, running, starting, status, failed, to, nda, doLogon, inq, out, called, aborted)
    }

    constructor (atc: bool)
      ensures Value() == Init(atc)
    {
      isAtc, running, starting, status, failed := atc, false, false, Down, false;
      to, nda, doLogon, inq, out, called, aborted := None, None, false, [], [], false, false;
    }

    method CallLogon(target: Option<string>)
      requires Inv(Value())
      modifies this
      ensures Inv(Value()) && Value() == Logon(old(Value()), target)
    {
      to, doLogon, nda, failed, called := target, true, None, false, true;
      if !running { running, starting := true, true; }
    }

    method CallLogoff(named: bool)
      requires Inv(Value())
      modifies this
      ensures Inv(Value()) && Value() == Logoff(old(Value()), named)
    {
      if !named {
        status, failed := Down, false;
      } else if !called {
        aborted := true;
      } else if status == Complete {
        out := out + [LogoffRequest(to)];
      }
    }

    method SendLogonRequest()
      requires Inv(Value()) && Enabled(Value(), Turn)
      modifies this
      ensures Inv(Value()) && Value() == SendLogon(old(Value()))
    {
      if nda.Some? { to, nda := nda, None; }
      out := out + [LogonRequest(to)];
      status, doLogon := InProg, false;
    }

    method EndSvc()
      modifies this`doLogon, this`status
      ensures Value() == HandleEndService(old(Value()))
    {
      if nda.Some? { doLogon, status := true, LinkAvail; } else { status := Down; }
    }

    method SetNext(name: string)
      requires to.Some?
      modifies this`nda
      ensures Value() == HandleNext(old(Value()), name)
    {
      nda := None;
      if name != to.value { nda := Some(name); }
    }

    /** The segment loop of `queue_incoming_msg`. */
    method ScanSegs(segs: seq<Seg>)
      requires to.Some?
      modifies this`doLogon, this`status, this`nda
      ensures Value() == HandleSegs(old(Value()), segs)
    {
      var i := 0;
      assert segs[0..] == segs;
      while i < |segs|
        invariant 0 <= i <= |segs| && to.Some? && to == old(to)
        invariant HandleSegs(Value(), segs[i..]) == old(HandleSegs(Value(), segs))
      {
        assert segs[i..][0] == segs[i] && segs[i..][1..] == segs[i + 1..];
        match segs[i] {
          case EndService => EndSvc();
          case NextAuthority(name) => SetNext(name);
          case OtherSeg =>
        }
        i := i + 1;
      }
    }

    method QueueMsg(m: Msg) returns (queued: bool)
      modifies this
      ensures Value() == QueueIncoming(old(Value()), m)
      ensures queued <==> (isAtc || old(to) == Some(m.from)) && m.segs != []
    {
      if !isAtc && to.None? {
        aborted := true;
        return false;
      }
      if !isAtc && m.from != to.value {
        out := out + [NotAuthority(m.from, m.min)];
        return false;
      }
      if !isAtc { ScanSegs(m.segs); }
      if m.segs == [] { return false; }
      inq := inq + [m];
      return true;
    }

    /** `process_msg` */
    method Process(m: Msg) returns (queued: bool)
      requires Inv(Value()) && Enabled(Value(), Receive(m))
      modifies this
      ensures Inv(Value()) && Value() == Step(old(Value()), Receive(m))
    {
      StepInv(Value(), Receive(m));
      queued := false;
      if !m.cpdlc { return; }
      if status == InProg {
        if m.logon.Some? {
          if m.logon.value == "SUCCESS" { status, failed := Complete, false; }
          else { status, failed := LinkAvail, true; }
        }
      } else if status == Complete {
        if m.logon.None? { queued := QueueMsg(m); }
      }
    }

    method ResetLink()
      requires Inv(Value()) && Enabled(Value(), Exit)
      modifies this
      ensures Inv(Value()) && Value() == Reset(old(Value()))
    {
      status, nda, to := Down, None, None;
      inq, running := [], false;
    }
  }
}
