/** What the invariant says about every run of the daemon from its empty start. */
module DaemonRuns {
  import opened Lists
  import opened Wire
  import opened Registry
  import opened MailStore
  import opened Daemon
  import opened DaemonSafety

  // ----- identities and authentication -----

  /** Over every run the index is the inverse of the identity lists, and a completed logon has an identity. */
  lemma IndexAgreementInEveryRun(cfg: Config, es: seq<Event>, id: Ident, c: ConnId)
    ensures var n := Run(cfg, INIT, es).net;
            && (c in Lookup(n.byFrom, id) <==> c in n.conns && id in n.conns[c].fromList)
            && NoDup(Lookup(n.byFrom, id))
            && (c in n.conns ==> NoDup(n.conns[c].fromList))
            && (c in n.conns && n.conns[c].status == Complete ==> n.conns[c].fromList != [])
  {
    InitInv(cfg);
    RunKeepsInv(cfg, INIT, es);
    assert c in Run(cfg, INIT, es).net.conns ==> ConnOk(Run(cfg, INIT, es).net.conns[c]);
  }

  /** Over every interleaving: Started means exactly one live session, and a session that is not
      killed finds its connection open and Started when its worker calls back. */
  lemma AuthSafetyInEveryRun(cfg: Config, es: seq<Event>, c: ConnId, key: nat)
    ensures var n := Run(cfg, INIT, es).net;
            && (c in n.conns ==>
                  (n.conns[c].status == Started <==> exists k :: IsLive(n, k) && n.sessions[k].conn == c))
            && (forall k, l :: IsLive(n, k) && IsLive(n, l) && n.sessions[k].conn == n.sessions[l].conn ==> k == l)
            && (IsLive(n, key) ==> n.sessions[key].conn in n.conns && n.conns[n.sessions[key].conn].status == Started)
  {
    InitInv(cfg);
    RunKeepsInv(cfg, INIT, es);
    var n := Run(cfg, INIT, es).net;
    if c in n.conns { StartedIffOneLiveSession(n, c); }
    forall k, l | IsLive(n, k) && IsLive(n, l) && n.sessions[k].conn == n.sessions[l].conn ensures k == l {
    }
  }

  /** A kill is permanent: in no later state is the session live. */
  lemma {:induction false} KilledStaysKilled(cfg: Config, s: State, key: nat, es: seq<Event>)
    requires Inv(cfg, s) && key < s.net.nextKey && !IsLive(s.net, key)
    ensures !IsLive(Run(cfg, s, es).net, key)
    decreases |es|
  {
    if es != [] {
      StepKeepsInv(cfg, s, es[0]);
      NoRevival(cfg, s, key, es[0]);
      KilledStaysKilled(cfg, Step(cfg, s, es[0]), key, es[1..]);
    }
  }

  /** Whatever happens between the kill and the end of its worker, the worker then changes no connection, no
      registration and no stored message. */
  lemma KilledNeverCallsBack(cfg: Config, s: State, key: nat, es: seq<Event>, ok: bool, atc: bool)
    requires Inv(cfg, s) && key < s.net.nextKey && !IsLive(s.net, key)
    ensures var t, t' := Run(cfg, s, es), Run(cfg, s, es + [Worker(key, ok, atc)]);
            t'.net.conns == t.net.conns && t'.net.byFrom == t.net.byFrom && t'.store == t.store && t'.hist == t.hist
  {
    KilledStaysKilled(cfg, s, key, es);
    RunAppend(cfg, s, es, [Worker(key, ok, atc)]);
  }

  ghost predicate SessionsFade(n: Net, n': Net) {
    n.nextKey <= n'.nextKey && forall k: nat :: k < n.nextKey && IsLive(n', k) ==> IsLive(n, k)
  }

  lemma {:induction false} BroadcastFades(cfg: Config, n: Net, targets: seq<ConnId>, p: Payload, endSvc: bool)
    requires AllOpen(n, targets)
    ensures SessionsFade(n, Broadcast(cfg, n, targets, p, endSvc))
    decreases |targets|
  {
    if targets != [] {
      var c := targets[0];
      assert c in n.conns;
      var n1 := Send(n, c, Render(cfg, p, n.conns[c]));
      var n2 := if endSvc then ResetLogon(n1, c) else n1;
      forall i | 0 <= i < |targets[1..]| ensures targets[1..][i] in n2.conns { assert targets[i + 1] in n.conns; }
      BroadcastFades(cfg, n2, targets[1..], p, endSvc);
    }
  }

  lemma LogonFades(n: Net, c: ConnId, m: Msg, auth: Auth)
    requires c in n.conns
    ensures SessionsFade(n, ProcessLogon(n, c, m, auth))
  {
    assert SessionsFade(n, Forget(n, c, m.from));
  }

  lemma ForwardFades(cfg: Config, s: State, sender: Sender, m: Msg, now: int)
    requires Sound(s.net)
    ensures SessionsFade(s.net, ForwardMsg(cfg, s, sender, m, now).net)
  {
    TargetsOpen(s.net, m.to);
    TargetsOpen(s.net, m.from);
    BroadcastFades(cfg, s.net, Lookup(s.net.byFrom, m.to), Encoded(|s.hist.accepted|, m), IsEndSvc(m));
    BroadcastFades(cfg, s.net, Lookup(s.net.byFrom, m.from), Fixed(ErrorReply(InsuffStorage, m.min)), false);
  }

  lemma ReceiveFades(cfg: Config, s: State, c: ConnId, m: Msg, auth: Auth, now: int)
    requires Sound(s.net) && c in s.net.conns
    ensures SessionsFade(s.net, ReceiveMsg(cfg, s, c, m, auth, now).net)
  {
    LogonFades(s.net, c, m, auth);
    var p := PlanMsg(s.net, c, m);
    if p.Forward? { ForwardFades(cfg, s, SenderOf(s.net.conns[c]), p.msg, now); }
  }

  lemma DrainFades(cfg: Config, s: State, now: int)
    requires Sound(s.net) && s.phase.Drain? && s.phase.next < |s.store.queue|
    ensures SessionsFade(s.net, DrainStep(cfg, s, now).net)
  {
    var q := s.store.queue[s.phase.next];
    TargetsOpen(s.net, q.to);
    BroadcastFades(cfg, s.net, Lookup(s.net.byFrom, q.to), Fixed(Delivery(q.ticket, q.to, q.text)), false);
  }

  lemma NoRevival(cfg: Config, s: State, key: nat, e: Event)
    requires Inv(cfg, s) && key < s.net.nextKey && !IsLive(s.net, key)
    ensures var n' := Step(cfg, s, e).net; key < n'.nextKey && !IsLive(n', key)
  {
    if s.phase != Aborted && Enabled(s, e) {
      if e.Receive? { ReceiveFades(cfg, s, e.c, e.m, e.auth, e.now); }
      else if e.DrainOne? { DrainFades(cfg, s, e.now); }
    }
  }

  // ----- delivery -----

  /** The message a step delivers, if any: its ticket and recipient. */
  datatype Delivered = Nothing | Sent(ticket: nat, to: Ident)

  ghost function DeliveredBy(s: State, e: Event): Delivered {
    if s.phase == Aborted || !Enabled(s, e) then Nothing
    else match e
      case Receive(c, m, _, _) =>
        var p := PlanMsg(s.net, c, m);
        if p.Forward? && Registered(s.net, p.msg.to) then Sent(|s.hist.accepted|, p.msg.to) else Nothing
      case DrainOne(_) =>
        var q := s.store.queue[s.phase.next];
        if Registered(s.net, q.to) then Sent(q.ticket, q.to) else Nothing
      case _ => Nothing
  }

  ghost predicate IsDeliveryOf(o: Out, d: Delivered) {
    d.Sent? && o.Delivery? && o.ticket == d.ticket && o.to == d.to
  }

  ghost predicate Appended(out: seq<Out>, out': seq<Out>, d: Delivered) {
    |out'| == |out| + 1 && out' == out + [out'[|out|]] && IsDeliveryOf(out'[|out|], d)
  }

  /** A delivering step appends the message, once, to each connection of the recipient and to no other. */
  lemma DeliveryReachesAll(cfg: Config, s: State, e: Event, c: ConnId)
    requires Inv(cfg, s) && c in s.net.conns && DeliveredBy(s, e).Sent?
    ensures var n' := Step(cfg, s, e).net;
            c in n'.conns
            && if c in Lookup(s.net.byFrom, DeliveredBy(s, e).to)
               then Appended(s.net.conns[c].out, n'.conns[c].out, DeliveredBy(s, e))
               else n'.conns[c].out == s.net.conns[c].out
  {
    var d := DeliveredBy(s, e);
    TargetsOpen(s.net, d.to);
    if e.Receive? {
      var m' := PlanMsg(s.net, e.c, e.m).msg;
      BroadcastAppends(cfg, s.net, d, Encoded(d.ticket, m'), IsEndSvc(m'), c);
    } else {
      var q := s.store.queue[s.phase.next];
      DequeueBalanced(cfg.limits, s.store, s.phase.next);
      BroadcastAppends(cfg, s.net, d, Fixed(Delivery(q.ticket, q.to, q.text)), false, c);
    }
  }

  lemma BroadcastAppends(cfg: Config, n: Net, d: Delivered, p: Payload, endSvc: bool, c: ConnId)
    requires Sound(n) && c in n.conns && d.Sent? && AllOpen(n, Lookup(n.byFrom, d.to))
    requires forall k :: IsDeliveryOf(Render(cfg, p, k), d)
    ensures var n' := Broadcast(cfg, n, Lookup(n.byFrom, d.to), p, endSvc);
            c in n'.conns
            && if c in Lookup(n.byFrom, d.to) then Appended(n.conns[c].out, n'.conns[c].out, d)
               else n'.conns[c].out == n.conns[c].out
  {
    TargetsOpen(n, d.to);
    BroadcastEffect(cfg, n, Lookup(n.byFrom, d.to), p, endSvc);
    assert IsDeliveryOf(Render(cfg, p, n.conns[c]), d);
  }

  ghost function Trace(cfg: Config, s: State, es: seq<Event>): seq<Delivered>
    decreases |es|
  {
    if es == [] then []
    else
      var d, rest := DeliveredBy(s, es[0]), Trace(cfg, Step(cfg, s, es[0]), es[1..]);
      if d.Sent? then [d] + rest else rest
  }

  lemma DrainRaisesMark(cfg: Config, s: State, now: int)
    requires Inv(cfg, s) && s.phase.Drain? && s.phase.next < |s.store.queue|
    ensures var q, h' := s.store.queue[s.phase.next], DrainStep(cfg, s, now).hist;
            && (forall id :: MarkOf(s.hist, id) <= MarkOf(h', id))
            && (Registered(s.net, q.to) ==> MarkOf(s.hist, q.to) <= q.ticket < MarkOf(h', q.to))
  {
    var q := s.store.queue[s.phase.next];
    assert EntryOk(cfg, s.hist, q);
    TargetsOpen(s.net, q.to);
    DequeueBalanced(cfg.limits, s.store, s.phase.next);
  }

  /** A delivery is not older than anything delivered to that identity before, and raises the mark past itself. */
  lemma DeliveryRaisesMark(cfg: Config, s: State, e: Event)
    requires Inv(cfg, s)
    ensures forall id :: MarkOf(s.hist, id) <= MarkOf(Step(cfg, s, e).hist, id)
    ensures var d := DeliveredBy(s, e);
            d.Sent? ==> MarkOf(s.hist, d.to) <= d.ticket < MarkOf(Step(cfg, s, e).hist, d.to)
  {
    if s.phase != Aborted && Enabled(s, e) {
      if e.Receive? && PlanMsg(s.net, e.c, e.m).Forward? {
        ForwardRaisesMark(cfg, s, SenderOf(s.net.conns[e.c]), PlanMsg(s.net, e.c, e.m).msg, e.now);
      } else if e.DrainOne? {
        DrainRaisesMark(cfg, s, e.now);
      }
    }
  }

  lemma ForwardRaisesMark(cfg: Config, s: State, sender: Sender, m: Msg, now: int)
    requires Sound(s.net) && MarksOk(s.hist)
    ensures var h' := ForwardMsg(cfg, s, sender, m, now).hist;
            && (forall id :: MarkOf(s.hist, id) <= MarkOf(h', id))
            && (Registered(s.net, m.to) ==> MarkOf(s.hist, m.to) <= |s.hist.accepted| < MarkOf(h', m.to))
  {
    TargetsOpen(s.net, m.to);
    assert MarkOf(s.hist, m.to) <= |s.hist.accepted|;
  }

  /** Deliveries only, in acceptance order for each recipient. */
  ghost predicate Fifo(t: seq<Delivered>) {
    && (forall i :: 0 <= i < |t| ==> t[i].Sent?)
    && (forall i, j :: 0 <= i < j < |t| && t[i].to == t[j].to ==> t[i].ticket < t[j].ticket)
  }

  ghost predicate AboveMarks(h: Hist, t: seq<Delivered>) {
    forall i :: 0 <= i < |t| ==> t[i].Sent? && MarkOf(h, t[i].to) <= t[i].ticket
  }

  lemma FifoCons(h: Hist, h': Hist, d: Delivered, t: seq<Delivered>)
    requires Fifo(t) && AboveMarks(h', t) && forall id :: MarkOf(h, id) <= MarkOf(h', id)
    requires d.Sent? ==> MarkOf(h, d.to) <= d.ticket < MarkOf(h', d.to)
    ensures var u := if d.Sent? then [d] + t else t; Fifo(u) && AboveMarks(h, u)
  {
  }

  /** Per-recipient FIFO over every run, whatever connections carry the messages: two deliveries
      to one identity happen in the order in which the messages were accepted, and none twice. */
  lemma {:induction false} PerRecipientFifo(cfg: Config, s: State, es: seq<Event>)
    requires Inv(cfg, s)
    ensures Fifo(Trace(cfg, s, es)) && AboveMarks(s.hist, Trace(cfg, s, es))
    decreases |es|
  {
    if es != [] {
      var s1 := Step(cfg, s, es[0]);
      StepKeepsInv(cfg, s, es[0]);
      DeliveryRaisesMark(cfg, s, es[0]);
      PerRecipientFifo(cfg, s1, es[1..]);
      FifoCons(s.hist, s1.hist, DeliveredBy(s, es[0]), Trace(cfg, s1, es[1..]));
    }
  }

  /** The same order inside one connection's output, with contents: each delivery is an encoding
      of exactly the message accepted under its ticket. */
  lemma OutputInAcceptanceOrder(cfg: Config, es: seq<Event>, c: ConnId)
    requires c in Run(cfg, INIT, es).net.conns
    ensures var s := Run(cfg, INIT, es);
            var out := s.net.conns[c].out;
            && (forall k :: 0 <= k < |out| && out[k].Delivery? ==>
                  out[k].ticket < |s.hist.accepted| && s.hist.accepted[out[k].ticket].msg.to == out[k].to
                  && IsEncodingOf(cfg, out[k].text, s.hist.accepted[out[k].ticket].msg))
            && (forall i, j :: 0 <= i < j < |out| && out[i].Delivery? && out[j].Delivery? && out[i].to == out[j].to
                  ==> out[i].ticket < out[j].ticket)
  {
    InitInv(cfg);
    RunKeepsInv(cfg, INIT, es);
    var s := Run(cfg, INIT, es);
    assert OutOk(cfg, s.hist, s.net.conns[c].out);
    forall k | 0 <= k < |s.net.conns[c].out| && s.net.conns[c].out[k].Delivery?
      ensures DeliveryOk(cfg, s.hist, s.net.conns[c].out[k]) {
    }
  }

  /** Outside the window from `complete_logons` to the end of the drain, no queued message names
      a registered identity. */
  lemma QueueNamesNoOneOnline(cfg: Config, es: seq<Event>, i: nat)
    requires Run(cfg, INIT, es).phase == Input && i < |Run(cfg, INIT, es).store.queue|
    ensures var s := Run(cfg, INIT, es); Lookup(s.net.byFrom, s.store.queue[i].to) == []
  {
    InitInv(cfg);
    RunKeepsInv(cfg, INIT, es);
    var s := Run(cfg, INIT, es);
    assert !Registered(s.net, s.store.queue[i].to);
  }

  // ----- conservation -----

  /** Over every run both accounts equal what is stored, within limits; each accepted message that
      was stored is in the queue exactly once, or has left it, never both. */
  lemma ConservationInEveryRun(cfg: Config, es: seq<Event>)
    ensures var s := Run(cfg, INIT, es);
            && s.store.bytes == TotalBytes(s.store.queue)
            && (cfg.limits.maxBytes != 0 ==> s.store.bytes <= cfg.limits.maxBytes)
            && (forall id :: QuotaOf(s.store.quota, id) == Charged(s.store.queue, id))
            && (cfg.limits.maxQuota != 0 ==> forall id :: QuotaOf(s.store.quota, id) <= cfg.limits.maxQuota)
            && (forall t :: 0 <= t < |s.hist.accepted| && !s.hist.accepted[t].direct
                  ==> (InQueue(s.store.queue, t) <==> t !in s.hist.fate))
            && (forall i, j :: 0 <= i < j < |s.store.queue| ==> s.store.queue[i].ticket != s.store.queue[j].ticket)
  {
    InitInv(cfg);
    RunKeepsInv(cfg, INIT, es);
    var s := Run(cfg, INIT, es);
    forall t | 0 <= t < |s.hist.accepted| && !s.hist.accepted[t].direct && InQueue(s.store.queue, t)
      ensures t !in s.hist.fate
    {
      QueuedHasNoFate(cfg, s.hist, s.store.queue, t);
    }
  }

  lemma QueuedHasNoFate(cfg: Config, h: Hist, q: seq<Queued>, t: nat)
    requires QueueOk(cfg, h, q) && InQueue(q, t)
    ensures t !in h.fate
  {
    var i :| 0 <= i < |q| && q[i].ticket == t;
    assert EntryOk(cfg, h, q[i]);
  }

  lemma FateKept(cfg: Config, s: State, e: Event, t: nat)
    requires t in s.hist.fate
    requires s.phase.Drain? && s.phase.next < |s.store.queue| ==> s.store.queue[s.phase.next].ticket !in s.hist.fate
    ensures var h' := Step(cfg, s, e).hist; t in h'.fate && h'.fate[t] == s.hist.fate[t]
  {
  }

  /** A message that has left the store never comes back, and its fate never changes. */
  lemma {:induction false} FateIsFinal(cfg: Config, s: State, es: seq<Event>, t: nat)
    requires Inv(cfg, s) && t in s.hist.fate
    ensures var s' := Run(cfg, s, es);
            t in s'.hist.fate && s'.hist.fate[t] == s.hist.fate[t] && !InQueue(s'.store.queue, t)
    decreases |es|
  {
    if es == [] {
      if InQueue(s.store.queue, t) { QueuedHasNoFate(cfg, s.hist, s.store.queue, t); assert false; }
    } else {
      StepKeepsInv(cfg, s, es[0]);
      assert s.phase.Drain? && s.phase.next < |s.store.queue| ==> EntryOk(cfg, s.hist, s.store.queue[s.phase.next]);
      FateKept(cfg, s, es[0], t);
      FateIsFinal(cfg, Step(cfg, s, es[0]), es[1..], t);
    }
  }

  // ----- forwarding discipline and assertions -----

  /** Over every run, everything the daemon accepted for forwarding obeys the forwarding discipline. */
  lemma DisciplineInEveryRun(cfg: Config, es: seq<Event>, t: nat)
    requires t < |Run(cfg, INIT, es).hist.accepted|
    ensures Disciplined(Run(cfg, INIT, es).hist.accepted[t])
  {
    InitInv(cfg);
    RunKeepsInv(cfg, INIT, es);
  }

  /** Exactly which input trips an assertion of the daemon: on a logged-on connection, a packet that
      is neither a logon, a logoff nor a PING, that has no segments, and whose target is known. */
  lemma AbortsExactlyOn(cfg: Config, s: State, e: Event)
    requires Inv(cfg, s) && s.phase != Aborted
    ensures Step(cfg, s, e).phase == Aborted <==>
            e.Receive? && Enabled(s, e) && s.net.conns[e.c].status == Complete
            && !e.m.isLogon && !e.m.isLogoff && e.m.pkt != Ping && e.m.segs == []
            && (e.m.to != "" || s.net.conns[e.c].to != "")
  {
    if Enabled(s, e) {
      if e.Receive? {
        assert ConnOk(s.net.conns[e.c]);
        var p := PlanMsg(s.net, e.c, e.m);
        PlanAsserts(s.net, e.c, e.m);
        if p.Forward? {
          TargetsOpen(s.net, p.msg.to);
          TargetsOpen(s.net, p.msg.from);
        }
      } else if e.DrainOne? {
        if Lookup(s.net.byFrom, s.store.queue[s.phase.next].to) != [] {
          DrainDelivers(cfg, s, e.now);
        } else {
          DrainExpires(cfg, s, e.now);
        }
      }
    }
  }

  lemma PlanAsserts(n: Net, c: ConnId, m: Msg)
    requires Sound(n) && c in n.conns
    ensures PlanMsg(n, c, m).AssertFails? <==>
            n.conns[c].status == Complete && !m.isLogon && !m.isLogoff && m.pkt != Ping && m.segs == []
            && (m.to != "" || n.conns[c].to != "")
  {
    assert ConnOk(n.conns[c]);
    var to := if m.to != "" then m.to else n.conns[c].to;
    TargetsOpen(n, to);
    var l := Lookup(n.byFrom, to);
    assert l != [] ==> l[|l| - 1] in n.conns;
  }

  /** A client that answers a PING it was never sent stops the daemon. */
  lemma PongAborts(cfg: Config, s: State, c: ConnId, auth: Auth, now: int)
    requires Inv(cfg, s) && s.phase == Input && c in s.net.conns
    requires s.net.conns[c].status == Complete && !s.net.conns[c].isAtc
    ensures Step(cfg, s, Receive(c, Msg(Pong, "", "", false, false, 1, [], [], true, false), auth, now)).phase
            == Aborted
  {
    assert ConnOk(s.net.conns[c]);
    AbortsExactlyOn(cfg, s, Receive(c, Msg(Pong, "", "", false, false, 1, [], [], true, false), auth, now));
  }
}
