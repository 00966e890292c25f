/** Whole runs of the daemon, state by state: what became of each message, of END SERVICE and of repeated logons. */
module DaemonTrace {
  import opened Lists
  import opened Wire
  import opened Registry
  import opened MailStore
  import opened Daemon
  import opened DaemonSafety
  import opened DaemonRuns

  /** The state after the first `i` events. */
  ghost function StateAt(cfg: Config, es: seq<Event>, i: nat): State
    requires i <= |es|
  {
    Run(cfg, INIT, es[..i])
  }

  lemma StateNext(cfg: Config, es: seq<Event>, i: nat)
    requires i < |es|
    ensures StateAt(cfg, es, i + 1) == Step(cfg, StateAt(cfg, es, i), es[i])
  {
    assert es[..i + 1] == es[..i] + [es[i]];
    RunAppend(cfg, INIT, es[..i], [es[i]]);
    RunPhase(cfg, StateAt(cfg, es, i), es[i]);
  }

  lemma StateInv(cfg: Config, es: seq<Event>, i: nat)
    requires i <= |es|
    ensures Inv(cfg, StateAt(cfg, es, i))
  {
    InitInv(cfg);
    RunKeepsInv(cfg, INIT, es[..i]);
  }

  // ----- every message is delivered at most once, and the history says so truly -----

  /** The history says that message `t` has gone out. */
  ghost predicate WentOut(h: Hist, t: nat) {
    t < |h.accepted| && (h.accepted[t].direct || (t in h.fate && h.fate[t] == Fate.Delivered))
  }

  ghost predicate Delivers(s: State, e: Event, t: nat) { DeliveredBy(s, e).Sent? && DeliveredBy(s, e).ticket == t }

  lemma ForwardWent(cfg: Config, s: State, sender: Sender, m: Msg, now: int, t: nat)
    requires Sound(s.net) && FatesOk(s.hist, s.store.queue)
    ensures var h' := ForwardMsg(cfg, s, sender, m, now).hist;
            WentOut(h', t) <==> WentOut(s.hist, t) || (Registered(s.net, m.to) && t == |s.hist.accepted|)
  {
    TargetsOpen(s.net, m.to);
  }

  lemma DrainWent(cfg: Config, s: State, now: int, t: nat)
    requires Inv(cfg, s) && s.phase.Drain? && s.phase.next < |s.store.queue|
    ensures var q, h' := s.store.queue[s.phase.next], DrainStep(cfg, s, now).hist;
            && (WentOut(h', t) <==> WentOut(s.hist, t) || (Registered(s.net, q.to) && t == q.ticket))
            && !WentOut(s.hist, q.ticket)
  {
    var q := s.store.queue[s.phase.next];
    assert EntryOk(cfg, s.hist, q);
    TargetsOpen(s.net, q.to);
    DequeueBalanced(cfg.limits, s.store, s.phase.next);
  }

  /** One event: a message has gone out if it had before or this event delivers it, and nothing is delivered again. */
  lemma StepWent(cfg: Config, s: State, e: Event, t: nat)
    requires Inv(cfg, s)
    ensures WentOut(Step(cfg, s, e).hist, t) <==> WentOut(s.hist, t) || Delivers(s, e, t)
    ensures Delivers(s, e, t) ==> !WentOut(s.hist, t)
  {
    if s.phase != Aborted && Enabled(s, e) {
      if e.Receive? && PlanMsg(s.net, e.c, e.m).Forward? {
        ForwardWent(cfg, s, SenderOf(s.net.conns[e.c]), PlanMsg(s.net, e.c, e.m).msg, e.now, t);
      } else if e.DrainOne? {
        DrainWent(cfg, s, e.now, t);
      }
    }
  }

  /** Event `i` delivers message `t`. */
  ghost predicate DeliversAt(cfg: Config, es: seq<Event>, i: nat, t: nat) {
    i < |es| && Delivers(StateAt(cfg, es, i), es[i], t)
  }

  /** If `w` turns true exactly at the steps `d`, and those come only while it is false, then there is at most one. */
  lemma {:induction false} OnceOnly(w: nat -> bool, d: nat -> bool, n: nat)
    requires !w(0) && forall i: nat :: i < n ==> (w(i + 1) <==> w(i) || d(i)) && (d(i) ==> !w(i))
    ensures w(n) <==> exists i: nat :: i < n && d(i)
    ensures forall i: nat, j: nat :: i < n && j < n && d(i) && d(j) ==> i == j
    decreases n
  {
    if n > 0 { OnceOnly(w, d, n - 1); }
  }

  lemma WentOutNext(cfg: Config, es: seq<Event>, i: nat, t: nat)
    requires i < |es|
    ensures WentOut(StateAt(cfg, es, i + 1).hist, t)
            <==> WentOut(StateAt(cfg, es, i).hist, t) || DeliversAt(cfg, es, i, t)
    ensures DeliversAt(cfg, es, i, t) ==> !WentOut(StateAt(cfg, es, i).hist, t)
  {
    StateInv(cfg, es, i);
    StateNext(cfg, es, i);
    StepWent(cfg, StateAt(cfg, es, i), es[i], t);
  }

  lemma WentOutIff(cfg: Config, es: seq<Event>, t: nat)
    ensures WentOut(StateAt(cfg, es, |es|).hist, t) <==> exists i: nat :: i < |es| && DeliversAt(cfg, es, i, t)
    ensures forall i: nat, j: nat ::
              i < |es| && j < |es| && DeliversAt(cfg, es, i, t) && DeliversAt(cfg, es, j, t) ==> i == j
  {
    var w := (i: nat) => i <= |es| && WentOut(StateAt(cfg, es, i).hist, t);
    var d := (i: nat) => DeliversAt(cfg, es, i, t);
    assert es[..0] == [];
    forall i: nat | i < |es| ensures (w(i + 1) <==> w(i) || d(i)) && (d(i) ==> !w(i)) { WentOutNext(cfg, es, i, t); }
    OnceOnly(w, d, |es|);
    assert forall i: nat :: d(i) <==> DeliversAt(cfg, es, i, t);
  }

  /** Over every run: an accepted message was delivered by exactly one event if it was forwarded at once or has the fate
      Delivered, and by none if it is still stored or has expired. */
  lemma DeliveredExactlyOnce(cfg: Config, es: seq<Event>, t: nat)
    requires t < |Run(cfg, INIT, es).hist.accepted|
    ensures var h := Run(cfg, INIT, es).hist;
            (h.accepted[t].direct || (t in h.fate && h.fate[t] == Fate.Delivered))
                <==> exists i: nat :: DeliversAt(cfg, es, i, t)
    ensures forall i: nat, j: nat :: DeliversAt(cfg, es, i, t) && DeliversAt(cfg, es, j, t) ==> i == j
  {
    assert es[..|es|] == es;
    WentOutIff(cfg, es, t);
  }

  /** Over every run: no stored message is marked as coming from ATC, so each is charged to its sender, ATC or not. */
  lemma EveryStoredIsCharged(cfg: Config, es: seq<Event>, i: nat)
    requires i < |Run(cfg, INIT, es).store.queue|
    ensures !Run(cfg, INIT, es).store.queue[i].isAtc
  {
    InitInv(cfg);
    RunKeepsInv(cfg, INIT, es);
    var s := Run(cfg, INIT, es);
    assert EntryOk(cfg, s.hist, s.store.queue[i]);
  }

  // ----- END SERVICE -----

  /** The message a delivering event delivers. */
  lemma DeliveredMessage(cfg: Config, s: State, e: Event)
    requires Inv(cfg, s) && DeliveredBy(s, e).Sent?
    ensures var t, h' := DeliveredBy(s, e).ticket, Step(cfg, s, e).hist;
            t < |h'.accepted| && h'.accepted[t].msg
            == if e.Receive? then PlanMsg(s.net, e.c, e.m).msg
                else s.hist.accepted[s.store.queue[s.phase.next].ticket].msg
  {
    TargetsOpen(s.net, DeliveredBy(s, e).to);
    if e.DrainOne? {
      assert EntryOk(cfg, s.hist, s.store.queue[s.phase.next]);
      DequeueBalanced(cfg.limits, s.store, s.phase.next);
    }
  }

  /** A delivery logs its receiver off if and only if the message is an END SERVICE and is forwarded at once;
      otherwise the receiver only gets the message. An END SERVICE that was stored never logs anybody off. */
  lemma EndServiceResetsIff(cfg: Config, s: State, e: Event, c: ConnId)
    requires Inv(cfg, s) && DeliveredBy(s, e).Sent? && c in Lookup(s.net.byFrom, DeliveredBy(s, e).to)
    ensures var s', t := Step(cfg, s, e), DeliveredBy(s, e).ticket;
            && t < |s'.hist.accepted| && c in s.net.conns && c in s'.net.conns && s.net.conns[c].fromList != []
            && var k, k' := s.net.conns[c], s'.net.conns[c];
               && (k'.fromList == [] <==> e.Receive? && IsEndSvc(s'.hist.accepted[t].msg))
               && (k'.fromList == [] ==> k'.status == LogonNone)
               && (k'.fromList != [] ==> k' == k.(out := k'.out))
  {
    var d := DeliveredBy(s, e);
    DeliveredMessage(cfg, s, e);
    TargetsOpen(s.net, d.to);
    assert c in s.net.conns && d.to in s.net.conns[c].fromList;
    if e.Receive? {
      var m := PlanMsg(s.net, e.c, e.m).msg;
      BroadcastConn(cfg, s.net, Lookup(s.net.byFrom, d.to), Encoded(d.ticket, m), IsEndSvc(m), c);
    } else {
      var q := s.store.queue[s.phase.next];
      DequeueBalanced(cfg.limits, s.store, s.phase.next);
      BroadcastConn(cfg, s.net, Lookup(s.net.byFrom, d.to), Fixed(Delivery(q.ticket, q.to, q.text)), false, c);
    }
  }

  // ----- repeated logons -----

  /** The connection holds identities although its logon is not complete. */
  ghost predicate Lingers(k: Conn) { k.fromList != [] && k.status != Complete }

  /** A LOGON on a connection that has an identity besides the one it asks for. */
  ghost predicate LeavesOthers(k: Conn, m: Msg) {
    k.isAtc && !m.isLogoff && exists id :: id in k.fromList && id != m.from
  }

  lemma {:induction false} OthersRemain(ids: seq<Ident>, id: Ident)
    requires NoDup(ids)
    ensures RemoveFirst(ids, id) != [] <==> exists x :: x in ids && x != id
  {
    var r := RemoveFirst(ids, id);
    if r != [] { assert r[0] in r; }
    if x :| x in ids && x != id { assert x in r; }
  }

  lemma ForgetLeaves(n: Net, c: ConnId, id: Ident)
    requires Sound(n) && c in n.conns && n.conns[c].status == Complete
    ensures var k, k' := n.conns[c], Forget(n, c, id).conns[c];
            && (k'.fromList != [] <==> k.isAtc && exists x :: x in k.fromList && x != id)
            && (k'.fromList != [] ==> k'.status == Complete)
  {
    var k := n.conns[c];
    assert NoDup(k.fromList) && ConnOk(k);
    OthersRemain(k.fromList, id);
    if id !in k.fromList { assert k.fromList[0] in k.fromList; }
  }

  /** Exactly which LOGON or LOGOFF makes a completed connection linger: a LOGON on an ATC connection that has an
      identity besides the one it asks for. */
  lemma LingersIff(n: Net, c: ConnId, m: Msg, auth: Auth)
    requires Sound(n) && c in n.conns && n.conns[c].status == Complete
    ensures c in ProcessLogon(n, c, m, auth).conns
    ensures Lingers(ProcessLogon(n, c, m, auth).conns[c]) <==> LeavesOthers(n.conns[c], m)
  {
    ForgetLeaves(n, c, m.from);
    LogonKeepsLists(n, c, m, auth);
  }

  /** Behind the clean-up, LOGON keeps the identities and leaves the logon incomplete; LOGOFF stops there. */
  lemma LogonKeepsLists(n: Net, c: ConnId, m: Msg, auth: Auth)
    requires c in n.conns && (n.conns[c].status == LogonNone || n.conns[c].status == Complete)
    ensures var f, k' := Forget(n, c, m.from).conns[c], ProcessLogon(n, c, m, auth).conns[c];
            k'.fromList == f.fromList
                && (if m.isLogoff then k'.status == SettleConn(f).status else k'.status != Complete)
  {
  }

  /** The event is a LOGON on connection `c`, which is complete and has an identity besides the one asked for. */
  ghost predicate LogsOnAgain(s: State, e: Event, c: ConnId) {
    && s.phase != Aborted && e.Receive? && e.c == c && Enabled(s, e)
    && e.m.isLogon && s.net.conns[c].status == Complete && LeavesOthers(s.net.conns[c], e.m)
  }

  lemma LogonLingers(n: Net, c: ConnId, m: Msg, auth: Auth, d: ConnId)
    requires Sound(n) && c in n.conns && d in n.conns && Lingers(ProcessLogon(n, c, m, auth).conns[d])
    ensures Lingers(n.conns[d]) || (d == c && n.conns[c].status == Complete && LeavesOthers(n.conns[c], m))
  {
    if d != c {
      LogonOuts(n, c, m, auth);
    } else if n.conns[c].status == Complete {
      LingersIff(n, c, m, auth);
    } else if n.conns[c].status == LogonNone {
      LogonKeepsLists(n, c, m, auth);
    }
  }

  lemma ForwardLingers(cfg: Config, s: State, sender: Sender, m: Msg, now: int, c: ConnId)
    requires Sound(s.net) && c in ForwardMsg(cfg, s, sender, m, now).net.conns
    requires Lingers(ForwardMsg(cfg, s, sender, m, now).net.conns[c])
    ensures c in s.net.conns && Lingers(s.net.conns[c])
  {
    TargetsOpen(s.net, m.to);
    TargetsOpen(s.net, m.from);
    var ticket, to, from := |s.hist.accepted|, Lookup(s.net.byFrom, m.to), Lookup(s.net.byFrom, m.from);
    BroadcastSound(cfg, s.net, to, Encoded(ticket, m), IsEndSvc(m));
    BroadcastSound(cfg, s.net, from, Fixed(ErrorReply(InsuffStorage, m.min)), false);
    assert c in s.net.conns;
    BroadcastConn(cfg, s.net, to, Encoded(ticket, m), IsEndSvc(m), c);
    BroadcastConn(cfg, s.net, from, Fixed(ErrorReply(InsuffStorage, m.min)), false, c);
  }

  lemma DrainLingers(cfg: Config, s: State, now: int, c: ConnId)
    requires Sound(s.net) && s.phase.Drain? && s.phase.next < |s.store.queue|
    requires c in DrainStep(cfg, s, now).net.conns && Lingers(DrainStep(cfg, s, now).net.conns[c])
    ensures c in s.net.conns && Lingers(s.net.conns[c])
  {
    var q := s.store.queue[s.phase.next];
    TargetsOpen(s.net, q.to);
    var to, p := Lookup(s.net.byFrom, q.to), Fixed(Delivery(q.ticket, q.to, q.text));
    BroadcastSound(cfg, s.net, to, p, false);
    assert c in s.net.conns;
    BroadcastConn(cfg, s.net, to, p, false, c);
  }

  lemma PlansLogon(n: Net, c: ConnId, m: Msg)
    requires c in n.conns && PlanMsg(n, c, m).Logon?
    ensures m.isLogon || m.isLogoff
  {
  }

  lemma ReceiveLingers(cfg: Config, s: State, c: ConnId, m: Msg, auth: Auth, now: int, p: Plan, d: ConnId)
    requires Sound(s.net) && c in s.net.conns && p == PlanMsg(s.net, c, m)
    requires d in ReceiveMsg(cfg, s, c, m, auth, now).net.conns
             && Lingers(ReceiveMsg(cfg, s, c, m, auth, now).net.conns[d])
    ensures d in s.net.conns
    ensures Lingers(s.net.conns[d])
            || (p.Logon? && d == c && s.net.conns[c].status == Complete && LeavesOthers(s.net.conns[c], m))
  {
    if p.Forward? {
      ForwardLingers(cfg, s, SenderOf(s.net.conns[c]), p.msg, now, d);
    } else if p.Logon? {
      LogonOuts(s.net, c, m, auth);
      LogonLingers(s.net, c, m, auth, d);
    }
  }

  lemma OtherLingers(cfg: Config, s: State, e: Event, c: ConnId)
    requires !e.Receive? && !e.DrainOne? && Sound(s.net)
    requires c in Step(cfg, s, e).net.conns && Lingers(Step(cfg, s, e).net.conns[c])
    ensures c in s.net.conns && Lingers(s.net.conns[c])
  {
  }

  lemma StepLingers(cfg: Config, s: State, e: Event, c: ConnId)
    requires Inv(cfg, s) && c in Step(cfg, s, e).net.conns && Lingers(Step(cfg, s, e).net.conns[c])
    ensures c in s.net.conns && (Lingers(s.net.conns[c]) || LogsOnAgain(s, e, c))
  {
    if !e.Receive? && !e.DrainOne? {
      OtherLingers(cfg, s, e, c);
    } else if s.phase != Aborted && Enabled(s, e) {
      if e.DrainOne? {
        DrainLingers(cfg, s, e.now, c);
      } else {
        var p := PlanMsg(s.net, e.c, e.m);
        ReceiveLingers(cfg, s, e.c, e.m, e.auth, e.now, p, c);
        if p.Logon? { PlansLogon(s.net, e.c, e.m); }
      }
    }
  }

  ghost predicate LingersAt(cfg: Config, es: seq<Event>, i: nat, c: ConnId) {
    i <= |es| && c in StateAt(cfg, es, i).net.conns && Lingers(StateAt(cfg, es, i).net.conns[c])
  }

  ghost predicate LogsOnAgainAt(cfg: Config, es: seq<Event>, i: nat, c: ConnId) {
    i < |es| && LogsOnAgain(StateAt(cfg, es, i), es[i], c)
  }

  lemma LingersNext(cfg: Config, es: seq<Event>, i: nat, c: ConnId)
    requires i < |es| && LingersAt(cfg, es, i + 1, c)
    ensures LingersAt(cfg, es, i, c) || LogsOnAgainAt(cfg, es, i, c)
  {
    StateInv(cfg, es, i);
    StateNext(cfg, es, i);
    StepLingers(cfg, StateAt(cfg, es, i), es[i], c);
  }

  /** What begins only at the steps `q` has such a step behind it, since which it has lasted. */
  lemma {:induction false} Since(p: nat -> bool, q: nat -> bool, n: nat) returns (j: nat)
    requires !p(0) && p(n) && forall i: nat :: i < n && p(i + 1) ==> p(i) || q(i)
    ensures j < n && q(j) && forall i: nat :: j < i <= n ==> p(i)
    decreases n
  {
    assert p(n - 1 + 1);
    if p(n - 1) { j := Since(p, q, n - 1); } else { j := n - 1; }
  }

  /** Over every run: a connection that holds identities without a completed logon got there by a second LOGON on a
      complete ATC connection, and has not been complete since. */
  lemma LingeringStory(cfg: Config, es: seq<Event>, c: ConnId) returns (j: nat)
    requires LingersAt(cfg, es, |es|, c)
    ensures LogsOnAgainAt(cfg, es, j, c) && forall i: nat :: j < i <= |es| ==> LingersAt(cfg, es, i, c)
  {
    var p, q := (i: nat) => LingersAt(cfg, es, i, c), (i: nat) => LogsOnAgainAt(cfg, es, i, c);
    assert es[..0] == [];
    forall i: nat | i < |es| && p(i + 1) ensures p(i) || q(i) { LingersNext(cfg, es, i, c); }
    j := Since(p, q, |es|);
    assert forall i: nat :: p(i) <==> LingersAt(cfg, es, i, c);
  }

  // ----- a run that ends so -----

  lemma {:induction false} RunThrough(cfg: Config, ss: seq<State>, es: seq<Event>)
    requires |ss| == |es| + 1 && forall i :: 0 <= i < |es| ==> ss[i + 1] == Step(cfg, ss[i], es[i])
    ensures Run(cfg, ss[0], es) == ss[|es|]
    decreases |es|
  {
    if es != [] {
      var t := ss[1..];
      forall i | 0 <= i < |es| - 1 ensures t[i + 1] == Step(cfg, t[i], es[1..][i]) {
        assert ss[i + 1 + 1] == Step(cfg, ss[i + 1], es[i + 1]);
      }
      RunThrough(cfg, t, es[1..]);
    }
  }

  function LogonMsg(from: Ident): Msg { Msg(Cpdlc, from, "", true, false, 1, [], [], false, false) }

  function OneConn(k: Conn, index: Index): Net { Net(map[0 := k], index, map[], 0) }

  const PENDING_A := FRESH_CONN.(logonFrom := "A", status := Completing, logonSuccess := true, isAtc := true,
                                 plain := true)
  const ONLINE_A := PENDING_A.(logonFrom := "", status := Complete, fromList := ["A"], out := [LogonReply(true)])
  const PENDING_B := ONLINE_A.(logonFrom := "B", status := Completing, logonSuccess := false, isAtc := false)
  const REFUSED_B := PENDING_B.(logonFrom := "", status := LogonNone, out := [LogonReply(true), LogonReply(false)])

  lemma LogonA()
    ensures ProcessLogon(OneConn(FRESH_CONN, map[]), 0, LogonMsg("A"), Local(true, true)) == OneConn(PENDING_A, map[])
    ensures CompleteLogon(OneConn(PENDING_A, map[]), 0) == OneConn(ONLINE_A, map["A" := [0]])
  {
    assert [] + ["A"] == ["A"] && [] + [0] == [0] && [] + [LogonReply(true)] == [LogonReply(true)];
    var n := CompleteLogon(OneConn(PENDING_A, map[]), 0);
    assert n.conns[0] == ONLINE_A && n.conns.Keys == {0};
    assert n.byFrom == map["A" := [0]];
    var p := ProcessLogon(OneConn(FRESH_CONN, map[]), 0, LogonMsg("A"), Local(true, true));
    assert p.conns[0] == PENDING_A && p.conns.Keys == {0};
  }

  lemma LogonB()
    ensures ProcessLogon(OneConn(ONLINE_A, map["A" := [0]]), 0, LogonMsg("B"), Local(false, false))
            == OneConn(PENDING_B, map["A" := [0]])
    ensures CompleteLogon(OneConn(PENDING_B, map["A" := [0]]), 0) == OneConn(REFUSED_B, map["A" := [0]])
  {
    assert [LogonReply(true)] + [LogonReply(false)] == [LogonReply(true), LogonReply(false)];
    var n := CompleteLogon(OneConn(PENDING_B, map["A" := [0]]), 0);
    assert n.conns[0] == REFUSED_B && n.conns.Keys == {0};
    var p := ProcessLogon(OneConn(ONLINE_A, map["A" := [0]]), 0, LogonMsg("B"), Local(false, false));
    assert p.conns[0] == PENDING_B && p.conns.Keys == {0};
  }

  function StateOf(n: Net, phase: Phase): State { INIT.(net := n, phase := phase) }

  const LOGON_TWICE := [
    Open(0), Receive(0, LogonMsg("A"), Local(true, true), 0), BeginLogons, CompleteOne(0), BeginDrain, EndDrain,
    Receive(0, LogonMsg("B"), Local(false, false), 0), BeginLogons, CompleteOne(0)]

  const THROUGH := [
    INIT, StateOf(OneConn(FRESH_CONN, map[]), Input),
    StateOf(OneConn(PENDING_A, map[]), Input), StateOf(OneConn(PENDING_A, map[]), Logons),
    StateOf(OneConn(ONLINE_A, map["A" := [0]]), Logons), StateOf(OneConn(ONLINE_A, map["A" := [0]]), Drain(0)),
    StateOf(OneConn(ONLINE_A, map["A" := [0]]), Input),
    StateOf(OneConn(PENDING_B, map["A" := [0]]), Input), StateOf(OneConn(PENDING_B, map["A" := [0]]), Logons),
    StateOf(OneConn(REFUSED_B, map["A" := [0]]), Logons)]

  lemma LogonSteps(cfg: Config)
    ensures Step(cfg, THROUGH[0], LOGON_TWICE[0]) == THROUGH[1]
    ensures Step(cfg, THROUGH[1], LOGON_TWICE[1]) == THROUGH[2]
    ensures Step(cfg, THROUGH[3], LOGON_TWICE[3]) == THROUGH[4]
  {
    LogonA();
    assert EMPTY_NET.conns[0 := FRESH_CONN] == map[0 := FRESH_CONN];
  }

  lemma AgainSteps(cfg: Config)
    ensures Step(cfg, THROUGH[6], LOGON_TWICE[6]) == THROUGH[7]
    ensures Step(cfg, THROUGH[8], LOGON_TWICE[8]) == THROUGH[9]
  {
    LogonB();
  }

  lemma GoesThrough(cfg: Config, i: nat)
    requires i < 9
    ensures THROUGH[i + 1] == Step(cfg, THROUGH[i], LOGON_TWICE[i])
  {
    if i == 0 || i == 1 || i == 3 { LogonSteps(cfg); }
    else if i == 6 || i == 8 { AgainSteps(cfg); }
  }

  /** The converse of "a completed logon has an identity" fails: an ATC station logs on as A and then, refused, as
      B. It is left with no logon, while A is still registered. */
  lemma SecondLogonLingers(cfg: Config)
    ensures var n := Run(cfg, INIT, LOGON_TWICE).net;
            0 in n.conns && n.conns[0].status == LogonNone && n.conns[0].fromList == ["A"]
                && Lookup(n.byFrom, "A") == [0]
  {
    forall i | 0 <= i < |LOGON_TWICE| ensures THROUGH[i + 1] == Step(cfg, THROUGH[i], LOGON_TWICE[i]) {
      GoesThrough(cfg, i);
    }
    RunThrough(cfg, THROUGH, LOGON_TWICE);
  }

  // ----- a run in which a stored END SERVICE logs nobody off -----

  const END_SERVICE := Msg(Cpdlc, "", "B", false, false, 2, [Seg(false, UM161_END_SVC)], [], true, false)
  const STAMPED := END_SERVICE.(from := "A")
  const LOGON_B := Msg(Cpdlc, "B", "A", true, false, 1, [], [], false, false)

  const BEFORE_B := FRESH_CONN.(logonFrom := "B", logonTo := "A", status := Completing, logonSuccess := true,
                                plain := true)
  const ONLINE_B := BEFORE_B.(logonFrom := "", logonTo := "", to := "A", status := Complete, fromList := ["B"],
                              out := [LogonReply(true)])

  function TwoConns(k: Conn, index: Index): Net { Net(map[0 := ONLINE_A, 1 := k], index, map[], 0) }

  const A_ONLINE: Index := map["A" := [0]]
  const BOTH_ONLINE: Index := map["A" := [0], "B" := [1]]

  function Stored(cfg: Config): Queued { Queued("A", "B", false, 0, cfg.encode(STAMPED), 0) }

  const ATC_A := Sender(true, "A", "")

  function AfterStore(cfg: Config, n: Net, phase: Phase): State {
    State(n, StoreMsg(cfg.limits, EMPTY_STORE, Stored(cfg)).store, NoteStored(INIT.hist, STAMPED, ATC_A), phase)
  }

  lemma OpensB(cfg: Config)
    ensures Step(cfg, StateOf(OneConn(ONLINE_A, A_ONLINE), Input), Open(1))
            == StateOf(TwoConns(FRESH_CONN, A_ONLINE), Input)
  {
    assert OneConn(ONLINE_A, A_ONLINE).conns[1 := FRESH_CONN] == TwoConns(FRESH_CONN, A_ONLINE).conns;
  }

  lemma StoresEnd(cfg: Config)
    requires cfg.limits == Limits(0, 0)
    ensures Step(cfg, StateOf(TwoConns(FRESH_CONN, A_ONLINE), Input), Receive(0, END_SERVICE, Remote, 0))
            == AfterStore(cfg, TwoConns(FRESH_CONN, A_ONLINE), Input)
    ensures StoreMsg(cfg.limits, EMPTY_STORE, Stored(cfg)).store.queue == [Stored(cfg)]
  {
    var n := TwoConns(FRESH_CONN, A_ONLINE);
    assert PlanMsg(n, 0, END_SERVICE) == Forward(STAMPED);
    assert SenderOf(n.conns[0]) == ATC_A && Lookup(n.byFrom, "B") == [];
    assert StoreMsg(cfg.limits, EMPTY_STORE, Stored(cfg)).ok;
  }

  lemma LogonOfB()
    ensures ProcessLogon(TwoConns(FRESH_CONN, A_ONLINE), 1, LOGON_B, Local(true, false)) == TwoConns(BEFORE_B, A_ONLINE)
    ensures CompleteLogon(TwoConns(BEFORE_B, A_ONLINE), 1) == TwoConns(ONLINE_B, BOTH_ONLINE)
  {
    var p := ProcessLogon(TwoConns(FRESH_CONN, A_ONLINE), 1, LOGON_B, Local(true, false));
    assert p.conns == TwoConns(BEFORE_B, A_ONLINE).conns by {
      assert p.conns[1] == BEFORE_B && p.conns[0] == ONLINE_A && p.conns.Keys == {0, 1};
    }
    assert [] + ["B"] == ["B"] && [] + [1] == [1] && [] + [LogonReply(true)] == [LogonReply(true)];
    var n := CompleteLogon(TwoConns(BEFORE_B, A_ONLINE), 1);
    assert n.conns == TwoConns(ONLINE_B, BOTH_ONLINE).conns by {
      assert n.conns[1] == ONLINE_B && n.conns[0] == ONLINE_A && n.conns.Keys == {0, 1};
    }
    assert n.byFrom == BOTH_ONLINE by {
      assert n.byFrom["A"] == [0] && n.byFrom["B"] == [1] && n.byFrom.Keys == {"A", "B"};
    }
  }

  const WHILE_AWAY := [Open(1), Receive(0, END_SERVICE, Remote, 0), Receive(1, LOGON_B, Local(true, false), 0),
                       BeginLogons, CompleteOne(1), BeginDrain]

  function Away(cfg: Config): seq<State> {
    [StateOf(OneConn(ONLINE_A, A_ONLINE), Input), StateOf(TwoConns(FRESH_CONN, A_ONLINE), Input),
     AfterStore(cfg, TwoConns(FRESH_CONN, A_ONLINE), Input), AfterStore(cfg, TwoConns(BEFORE_B, A_ONLINE), Input),
     AfterStore(cfg, TwoConns(BEFORE_B, A_ONLINE), Logons), AfterStore(cfg, TwoConns(ONLINE_B, BOTH_ONLINE), Logons),
     AfterStore(cfg, TwoConns(ONLINE_B, BOTH_ONLINE), Drain(0))]
  }

  lemma LogonStepsB(cfg: Config)
    ensures Step(cfg, Away(cfg)[2], WHILE_AWAY[2]) == Away(cfg)[3]
            && Step(cfg, Away(cfg)[4], WHILE_AWAY[4]) == Away(cfg)[5]
  {
    LogonOfB();
    assert PlanMsg(TwoConns(FRESH_CONN, A_ONLINE), 1, LOGON_B) == Logon;
  }

  lemma GoesAway(cfg: Config, i: nat)
    requires cfg.limits == Limits(0, 0) && i < 6
    ensures Away(cfg)[i + 1] == Step(cfg, Away(cfg)[i], WHILE_AWAY[i])
  {
    if i == 0 { OpensB(cfg); }
    else if i == 1 { StoresEnd(cfg); }
    else if i == 2 || i == 4 { LogonStepsB(cfg); }
  }

  const BACK_AGAIN := LOGON_TWICE[..6] + WHILE_AWAY

  lemma BackAgain(cfg: Config)
    requires cfg.limits == Limits(0, 0)
    ensures Run(cfg, INIT, BACK_AGAIN) == AfterStore(cfg, TwoConns(ONLINE_B, BOTH_ONLINE), Drain(0))
  {
    var es, ss := LOGON_TWICE[..6], THROUGH[..7];
    forall i | 0 <= i < |es| ensures ss[i + 1] == Step(cfg, ss[i], es[i]) { GoesThrough(cfg, i); }
    RunThrough(cfg, ss, es);
    forall i | 0 <= i < |WHILE_AWAY| ensures Away(cfg)[i + 1] == Step(cfg, Away(cfg)[i], WHILE_AWAY[i]) {
      GoesAway(cfg, i);
    }
    RunThrough(cfg, Away(cfg), WHILE_AWAY);
    RunAppend(cfg, INIT, es, WHILE_AWAY);
  }

  /** A station sends END SERVICE to an aircraft that is away. When the aircraft has logged on again the message is
      delivered, and the aircraft stays logged on. */
  lemma StoredEndServiceKeepsLogon(cfg: Config)
    requires GoodConfig(cfg) && cfg.limits == Limits(0, 0)
    ensures var s := Run(cfg, INIT, BACK_AGAIN);
            var s' := Step(cfg, s, DrainOne(0));
            && DeliveredBy(s, DrainOne(0)) == Sent(0, "B")
            && |s'.hist.accepted| > 0 && IsEndSvc(s'.hist.accepted[0].msg)
            && 1 in s'.net.conns && s'.net.conns[1].status == Complete && s'.net.conns[1].fromList == ["B"]
  {
    var s, e := Run(cfg, INIT, BACK_AGAIN), DrainOne(0);
    BackAgain(cfg);
    StoresEnd(cfg);
    InitInv(cfg);
    RunKeepsInv(cfg, INIT, BACK_AGAIN);
    assert Lookup(s.net.byFrom, "B") == [1];
    EndServiceResetsIff(cfg, s, e, 1);
    DeliveredMessage(cfg, s, e);
    assert STAMPED.segs[0].msgType == UM161_END_SVC;
  }
}
