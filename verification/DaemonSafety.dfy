/** Every event keeps the daemon's invariant; what that means over whole runs. */
module DaemonSafety {
  import opened Lists
  import opened Wire
  import opened Registry
  import opened MailStore
  import opened Daemon

  ghost predicate Shrinks(n: Net, n': Net) {
    forall id, d :: d in Lookup(n'.byFrom, id) ==> d in Lookup(n.byFrom, id)
  }

  lemma SendReset(n: Net, c: ConnId, o: Out, endSvc: bool)
    requires Sound(n) && c in n.conns
    ensures var n1 := Send(n, c, o);
            var n2 := if endSvc then ResetLogon(n1, c) else n1;
            Sound(n2) && Shrinks(n, n2) && n2.conns.Keys == n.conns.Keys
            && n2.conns[c].out == n.conns[c].out + [o]
            && forall d :: d in n.conns && d != c ==> n2.conns[d] == n.conns[d]
  {
    SendSound(n, c, o);
    var n1 := Send(n, c, o);
    if endSvc {
      ResetSound(n1, c);
      ResetIndex(n1, c);
    }
  }

  lemma RestOpen(n: Net, n2: Net, targets: seq<ConnId>)
    requires targets != [] && AllOpen(n, targets) && n2.conns.Keys == n.conns.Keys
    ensures AllOpen(n2, targets[1..])
  {
    forall i | 0 <= i < |targets[1..]| ensures targets[1..][i] in n2.conns { assert targets[i + 1] in n.conns; }
  }

  lemma {:induction false} BroadcastSound(cfg: Config, n: Net, targets: seq<ConnId>, p: Payload, endSvc: bool)
    requires Sound(n) && AllOpen(n, targets)
    ensures var n' := Broadcast(cfg, n, targets, p, endSvc);
            Sound(n') && Shrinks(n, n') && n'.conns.Keys == n.conns.Keys
    decreases |targets|
  {
    if targets != [] {
      var c := targets[0];
      assert c in n.conns;
      SendReset(n, c, Render(cfg, p, n.conns[c]), endSvc);
      var n1 := Send(n, c, Render(cfg, p, n.conns[c]));
      var n2 := if endSvc then ResetLogon(n1, c) else n1;
      RestOpen(n, n2, targets);
      BroadcastSound(cfg, n2, targets[1..], p, endSvc);
    }
  }

  /** A connection after a delivery loop: a target has one item more, and is logged off if that is an END SERVICE. */
  function AfterBroadcast(cfg: Config, k: Conn, target: bool, p: Payload, endSvc: bool): Conn {
    if !target then k
    else
      var k' := k.(out := k.out + [Render(cfg, p, k)]);
      if endSvc then ResetConn(k') else k'
  }

  lemma {:induction false} BroadcastConn(cfg: Config, n: Net, targets: seq<ConnId>, p: Payload, endSvc: bool, d: ConnId)
    requires NoDup(targets) && AllOpen(n, targets) && d in n.conns
    ensures var n' := Broadcast(cfg, n, targets, p, endSvc);
            d in n'.conns && n'.conns[d] == AfterBroadcast(cfg, n.conns[d], d in targets, p, endSvc)
    decreases |targets|
  {
    if targets != [] {
      var c, rest := targets[0], targets[1..];
      assert c in n.conns;
      var n1 := Send(n, c, Render(cfg, p, n.conns[c]));
      var n2 := if endSvc then ResetLogon(n1, c) else n1;
      RestOpen(n, n2, targets);
      assert targets == [c] + rest;
      BroadcastConn(cfg, n2, rest, p, endSvc, d);
    }
  }

  /** Each target gets exactly one item, everyone else none; registrations only shrink. */
  lemma BroadcastEffect(cfg: Config, n: Net, targets: seq<ConnId>, p: Payload, endSvc: bool)
    requires Sound(n) && NoDup(targets) && AllOpen(n, targets)
    ensures var n' := Broadcast(cfg, n, targets, p, endSvc);
            Sound(n') && Shrinks(n, n') && n'.conns.Keys == n.conns.Keys
            && forall d :: d in n.conns ==>
                 n'.conns[d].out
                 == if d in targets then n.conns[d].out + [Render(cfg, p, n.conns[d])] else n.conns[d].out
  {
    BroadcastSound(cfg, n, targets, p, endSvc);
    forall d | d in n.conns
      ensures Broadcast(cfg, n, targets, p, endSvc).conns[d].out
              == if d in targets then n.conns[d].out + [Render(cfg, p, n.conns[d])] else n.conns[d].out
    {
      BroadcastConn(cfg, n, targets, p, endSvc, d);
    }
  }

  lemma TargetsOpen(n: Net, id: Ident)
    requires Sound(n)
    ensures NoDup(Lookup(n.byFrom, id)) && AllOpen(n, Lookup(n.byFrom, id))
  {
    var l := Lookup(n.byFrom, id);
    forall i | 0 <= i < |l| ensures l[i] in n.conns { assert l[i] in l; }
  }

  // ----- output buffers under a growing history -----

  ghost predicate HistLe(h: Hist, h': Hist) {
    && |h.accepted| <= |h'.accepted|
    && (forall t :: 0 <= t < |h.accepted| ==> h'.accepted[t] == h.accepted[t])
    && (forall id :: MarkOf(h, id) <= MarkOf(h', id))
  }

  lemma OutKeep(cfg: Config, h: Hist, h': Hist, out: seq<Out>)
    requires OutOk(cfg, h, out) && HistLe(h, h')
    ensures OutOk(cfg, h', out)
  {
    forall k | 0 <= k < |out| && out[k].Delivery? ensures DeliveryOk(cfg, h', out[k]) {
      assert DeliveryOk(cfg, h, out[k]);
      assert MarkOf(h, out[k].to) <= MarkOf(h', out[k].to);
    }
  }

  lemma OutGrow(cfg: Config, h: Hist, h': Hist, out: seq<Out>, o: Out)
    requires OutOk(cfg, h, out) && HistLe(h, h')
    requires o.Delivery? ==> MarkOf(h, o.to) <= o.ticket && DeliveryOk(cfg, h', o)
    ensures OutOk(cfg, h', out + [o])
  {
    OutKeep(cfg, h, h', out);
    var w := out + [o];
    forall i, j | 0 <= i < j < |w| && w[i].Delivery? && w[j].Delivery? && w[i].to == w[j].to
      ensures w[i].ticket < w[j].ticket
    {
      if j == |out| { assert DeliveryOk(cfg, h, out[i]); }
    }
  }

  lemma OutsAfterBroadcast(cfg: Config, h: Hist, h': Hist, n: Net, targets: seq<ConnId>, p: Payload, endSvc: bool)
    requires Sound(n) && NoDup(targets) && AllOpen(n, targets) && OutsOk(cfg, h, n) && HistLe(h, h')
    requires forall k :: var o := Render(cfg, p, k);
             o.Delivery? ==> MarkOf(h, o.to) <= o.ticket && DeliveryOk(cfg, h', o)
    ensures OutsOk(cfg, h', Broadcast(cfg, n, targets, p, endSvc))
  {
    BroadcastEffect(cfg, n, targets, p, endSvc);
    var n' := Broadcast(cfg, n, targets, p, endSvc);
    forall d | d in n'.conns ensures OutOk(cfg, h', n'.conns[d].out) {
      assert d in n.conns;
      assert OutOk(cfg, h, n.conns[d].out);
      if d in targets {
        OutGrow(cfg, h, h', n.conns[d].out, Render(cfg, p, n.conns[d]));
      } else {
        OutKeep(cfg, h, h', n.conns[d].out);
      }
    }
  }

  lemma SettledShrinks(n: Net, n': Net, q: seq<Queued>, k: nat)
    requires Settled(n, q, k) && Shrinks(n, n')
    ensures Settled(n', q, k)
  {
    forall i | 0 <= i < k ensures !Registered(n', q[i].to) {
      assert !Registered(n, q[i].to);
      NonEmptyHasMember(Lookup(n'.byFrom, q[i].to));
    }
  }

  // ----- steps that leave store and history alone -----

  lemma NetStep(cfg: Config, s: State, n': Net)
    requires Inv(cfg, s) && Sound(n')
    requires Shrinks(s.net, n') || s.phase == Logons
    requires forall c :: c in n'.conns ==>
               n'.conns[c].out == [] || (c in s.net.conns && (n'.conns[c].out == s.net.conns[c].out
                 || exists o: Out :: !o.Delivery? && n'.conns[c].out == s.net.conns[c].out + [o]))
    ensures Inv(cfg, s.(net := n'))
  {
    forall c | c in n'.conns ensures OutOk(cfg, s.hist, n'.conns[c].out) {
      if c in s.net.conns {
        assert OutOk(cfg, s.hist, s.net.conns[c].out);
        if o: Out :| !o.Delivery? && n'.conns[c].out == s.net.conns[c].out + [o] {
          OutGrow(cfg, s.hist, s.hist, s.net.conns[c].out, o);
        }
      }
    }
    if s.phase != Logons && s.phase != Aborted {
      SettledShrinks(s.net, n', s.store.queue, if s.phase == Input then |s.store.queue| else s.phase.next);
    }
  }

  lemma AnswerStep(cfg: Config, s: State, c: ConnId, o: Out)
    requires Inv(cfg, s) && c in s.net.conns && !o.Delivery?
    ensures Inv(cfg, s.(net := Send(s.net, c, o)))
  {
    SendSound(s.net, c, o);
    NetStep(cfg, s, Send(s.net, c, o));
  }

  lemma OpenStep(cfg: Config, s: State, c: ConnId)
    requires Inv(cfg, s) && c !in s.net.conns
    ensures Inv(cfg, s.(net := OpenConn(s.net, c)))
  {
    OpenSound(s.net, c);
    NetStep(cfg, s, OpenConn(s.net, c));
  }

  lemma CloseStep(cfg: Config, s: State, c: ConnId)
    requires Inv(cfg, s) && c in s.net.conns
    ensures Inv(cfg, s.(net := CloseConn(s.net, c)))
  {
    CloseSound(s.net, c);
    ResetIndex(s.net, c);
    NetStep(cfg, s, CloseConn(s.net, c));
  }

  lemma WorkerStep(cfg: Config, s: State, key: nat, ok: bool, atc: bool)
    requires Inv(cfg, s) && key in s.net.sessions
    ensures s.net.sessions[key].kill || s.net.sessions[key].conn in s.net.conns
    ensures Inv(cfg, s.(net := WorkerDone(s.net, key, ok, atc)))
  {
    WorkerSound(s.net, key, ok, atc);
    NetStep(cfg, s, WorkerDone(s.net, key, ok, atc));
  }

  lemma CompleteOuts(n: Net, c: ConnId)
    requires c in n.conns
    ensures var n' := CompleteLogon(n, c);
            n'.conns == n.conns[c := n'.conns[c]]
            && (n'.conns[c].out == n.conns[c].out
                || exists o: Out :: !o.Delivery? && n'.conns[c].out == n.conns[c].out + [o])
  {
    var k := n.conns[c];
    var o := if k.logonSuccess && !k.isAtc && k.logonTo == "" then ErrorReply(InsuffData, 0)
             else LogonReply(k.logonSuccess);
    assert k.status == Completing ==> CompleteLogon(n, c).conns[c].out == k.out + [o];
  }

  lemma CompleteStep(cfg: Config, s: State, c: ConnId)
    requires Inv(cfg, s) && s.phase == Logons && c in s.net.conns
    ensures Inv(cfg, s.(net := CompleteLogon(s.net, c)))
  {
    CompleteSound(s.net, c);
    CompleteOuts(s.net, c);
    NetStep(cfg, s, CompleteLogon(s.net, c));
  }

  lemma ForgetOuts(n: Net, c: ConnId, id: Ident)
    requires c in n.conns
    ensures var n' := Forget(n, c, id);
            n'.conns == n.conns[c := n'.conns[c]] && n'.conns[c].out == n.conns[c].out
  {
  }

  lemma LogonOuts(n: Net, c: ConnId, m: Msg, auth: Auth)
    requires c in n.conns
    ensures var n' := ProcessLogon(n, c, m, auth);
            n'.conns == n.conns[c := n'.conns[c]]
            && (n'.conns[c].out == n.conns[c].out
                || n'.conns[c].out == n.conns[c].out + [ErrorReply(UnexpctData, m.min)])
  {
    ForgetOuts(n, c, m.from);
    SettleStartOuts(Forget(n, c, m.from), c, m, auth);
  }

  lemma SettleStartOuts(n: Net, c: ConnId, m: Msg, auth: Auth)
    requires c in n.conns
    ensures var n1 := Settle(n, c);
            n1.conns == n.conns[c := n1.conns[c]] && n1.conns[c].out == n.conns[c].out
    ensures var n2 := StartLogon(Settle(n, c), c, m, auth);
            n2.conns == n.conns[c := n2.conns[c]] && n2.conns[c].out == n.conns[c].out
  {
  }

  lemma LogonStep(cfg: Config, s: State, c: ConnId, m: Msg, auth: Auth)
    requires Inv(cfg, s) && c in s.net.conns
    ensures Inv(cfg, s.(net := ProcessLogon(s.net, c, m, auth)))
  {
    ProcessLogonSound(s.net, c, m, auth);
    LogonOuts(s.net, c, m, auth);
    NetStep(cfg, s, ProcessLogon(s.net, c, m, auth));
  }

  // ----- acceptance -----

  lemma StampDisciplined(k: Conn, m: Msg, to: Ident)
    requires Stamp(k, m, to).Forward? && m.segs != [] && to != ""
    requires k.isAtc <==> !m.segs[0].isDl
    requires k.isAtc || to == k.to || IsNotCda(m)
    ensures Disciplined(Accepted(Stamp(k, m, to).msg, SenderOf(k), true))
    ensures Disciplined(Accepted(Stamp(k, m, to).msg, SenderOf(k), false))
  {
  }

  /** Whatever `conn_process_msg` decides to forward obeys the forwarding discipline. */
  lemma PlanDisciplined(n: Net, c: ConnId, m: Msg)
    requires c in n.conns && PlanMsg(n, c, m).Forward?
    ensures Disciplined(Accepted(PlanMsg(n, c, m).msg, SenderOf(n.conns[c]), true))
    ensures Disciplined(Accepted(PlanMsg(n, c, m).msg, SenderOf(n.conns[c]), false))
  {
    var k := n.conns[c];
    var to := if m.to != "" then m.to else k.to;
    var m1 := if m.to != "" then m else m.(to := k.to);
    assert PlanMsg(n, c, m) == PlanDirected(n, k, m1, to);
    var l := Lookup(n.byFrom, to);
    if k.isAtc && m1.from == "AUTO" {
      StampDisciplined(k, m1.(from := n.conns[l[|l| - 1]].to), to);
    } else {
      StampDisciplined(k, m1, to);
    }
  }

  lemma DirectMail(cfg: Config, h: Hist, q: seq<Queued>, m: Msg, sender: Sender)
    requires MailOk(cfg, h, q) && Disciplined(Accepted(m, sender, true))
    requires forall i :: 0 <= i < |q| ==> q[i].to != m.to
    ensures MailOk(cfg, NoteDirect(h, m, sender), q) && HistLe(h, NoteDirect(h, m, sender))
    ensures MarkOf(h, m.to) <= |h.accepted|
  {
    var h' := NoteDirect(h, m, sender);
    forall id ensures MarkOf(h, id) <= MarkOf(h', id) <= |h'.accepted| { assert MarkOf(h, id) <= |h.accepted|; }
    forall i | 0 <= i < |q| ensures EntryOk(cfg, h', q[i]) { assert EntryOk(cfg, h, q[i]); }
  }

  lemma DirectOuts(cfg: Config, h: Hist, n: Net, m: Msg, sender: Sender)
    requires Sound(n) && OutsOk(cfg, h, n) && HistLe(h, NoteDirect(h, m, sender))
    requires MarkOf(h, m.to) <= |h.accepted|
    ensures AllOpen(n, Lookup(n.byFrom, m.to))
    ensures var n' := Broadcast(cfg, n, Lookup(n.byFrom, m.to), Encoded(|h.accepted|, m), IsEndSvc(m));
            Sound(n') && Shrinks(n, n') && OutsOk(cfg, NoteDirect(h, m, sender), n')
  {
    var h', p := NoteDirect(h, m, sender), Encoded(|h.accepted|, m);
    TargetsOpen(n, m.to);
    forall k ensures var o := Render(cfg, p, k); o.Delivery? ==> MarkOf(h, o.to) <= o.ticket && DeliveryOk(cfg, h', o) {
      assert IsEncodingOf(cfg, cfg.encode(InFormat(m, k.plain, k.arinc622)), m);
    }
    BroadcastEffect(cfg, n, Lookup(n.byFrom, m.to), p, IsEndSvc(m));
    OutsAfterBroadcast(cfg, h, h', n, Lookup(n.byFrom, m.to), p, IsEndSvc(m));
  }

  lemma DirectStep(cfg: Config, s: State, sender: Sender, m: Msg, now: int)
    requires Inv(cfg, s) && s.phase == Input && Lookup(s.net.byFrom, m.to) != []
    requires Disciplined(Accepted(m, sender, true))
    ensures Inv(cfg, ForwardMsg(cfg, s, sender, m, now))
    ensures ForwardMsg(cfg, s, sender, m, now).phase == Input
  {
    var q := s.store.queue;
    forall i | 0 <= i < |q| ensures q[i].to != m.to { assert !Registered(s.net, q[i].to); }
    DirectMail(cfg, s.hist, q, m, sender);
    DirectOuts(cfg, s.hist, s.net, m, sender);
    var n' := Broadcast(cfg, s.net, Lookup(s.net.byFrom, m.to), Encoded(|s.hist.accepted|, m), IsEndSvc(m));
    SettledShrinks(s.net, n', q, |q|);
  }

  lemma StoredMail(cfg: Config, h: Hist, q: seq<Queued>, e: Queued, m: Msg, sender: Sender)
    requires MailOk(cfg, h, q) && Disciplined(Accepted(m, sender, false))
    requires e == Queued(m.from, m.to, false, e.created, cfg.encode(m), |h.accepted|)
    ensures MailOk(cfg, NoteStored(h, m, sender), q + [e]) && HistLe(h, NoteStored(h, m, sender))
  {
    var h', w := NoteStored(h, m, sender), q + [e];
    forall id ensures MarkOf(h, id) == MarkOf(h', id) <= |h.accepted| { assert MarkOf(h, id) <= |h.accepted|; }
    forall i | 0 <= i < |w| ensures EntryOk(cfg, h', w[i]) {
      if i < |q| { assert EntryOk(cfg, h, q[i]); } else { assert MarkOf(h, m.to) <= |h.accepted|; }
    }
    forall i, j | 0 <= i < j < |w| ensures w[i].ticket < w[j].ticket {
      assert EntryOk(cfg, h, q[i]);
    }
    forall t | 0 <= t < |h'.accepted| && !h'.accepted[t].direct && t !in h'.fate ensures InQueue(w, t) {
      if t < |h.accepted| {
        assert InQueue(q, t);
        var i :| 0 <= i < |q| && q[i].ticket == t;
        assert w[i].ticket == t;
      } else {
        assert w[|q|].ticket == t;
      }
    }
  }

  lemma OutsKeep(cfg: Config, h: Hist, h': Hist, n: Net)
    requires OutsOk(cfg, h, n) && HistLe(h, h')
    ensures OutsOk(cfg, h', n)
  {
    forall c | c in n.conns ensures OutOk(cfg, h', n.conns[c].out) { OutKeep(cfg, h, h', n.conns[c].out); }
  }

  lemma StoredStep(cfg: Config, s: State, sender: Sender, m: Msg, e: Queued)
    requires Inv(cfg, s) && s.phase == Input && Lookup(s.net.byFrom, m.to) == []
             && Disciplined(Accepted(m, sender, false))
    requires e == Queued(m.from, m.to, false, e.created, cfg.encode(m), |s.hist.accepted|)
             && StoreMsg(cfg.limits, s.store, e).ok
    ensures Inv(cfg, s.(store := StoreMsg(cfg.limits, s.store, e).store, hist := NoteStored(s.hist, m, sender)))
  {
    StoreBalanced(cfg.limits, s.store, e);
    StoredMail(cfg, s.hist, s.store.queue, e, m, sender);
    OutsKeep(cfg, s.hist, NoteStored(s.hist, m, sender), s.net);
    assert !Registered(s.net, e.to);
  }

  lemma RefusedStep(cfg: Config, s: State, m: Msg, e: Queued)
    requires Inv(cfg, s) && s.phase == Input && !StoreMsg(cfg.limits, s.store, e).ok
    ensures AllOpen(s.net, Lookup(s.net.byFrom, m.from))
    ensures Inv(cfg, s.(store := StoreMsg(cfg.limits, s.store, e).store,
                        net := Broadcast(cfg, s.net, Lookup(s.net.byFrom, m.from),
                                         Fixed(ErrorReply(InsuffStorage, m.min)), false)))
  {
    StoreBalanced(cfg.limits, s.store, e);
    RefusalOuts(cfg, s.hist, s.net, m);
    var back := Lookup(s.net.byFrom, m.from);
    SettledShrinks(s.net, Broadcast(cfg, s.net, back, Fixed(ErrorReply(InsuffStorage, m.min)), false), s.store.queue,
                   |s.store.queue|);
  }

  lemma StoreStep(cfg: Config, s: State, sender: Sender, m: Msg, now: int)
    requires Inv(cfg, s) && s.phase == Input && Lookup(s.net.byFrom, m.to) == []
    requires Disciplined(Accepted(m, sender, false))
    ensures Inv(cfg, ForwardMsg(cfg, s, sender, m, now))
    ensures ForwardMsg(cfg, s, sender, m, now).phase == Input
  {
    var e := Queued(m.from, m.to, false, now, cfg.encode(m), |s.hist.accepted|);
    if StoreMsg(cfg.limits, s.store, e).ok {
      StoredStep(cfg, s, sender, m, e);
    } else {
      RefusedStep(cfg, s, m, e);
    }
  }

  lemma RefusalOuts(cfg: Config, h: Hist, n: Net, m: Msg)
    requires Sound(n) && OutsOk(cfg, h, n)
    ensures AllOpen(n, Lookup(n.byFrom, m.from))
    ensures var n' := Broadcast(cfg, n, Lookup(n.byFrom, m.from), Fixed(ErrorReply(InsuffStorage, m.min)), false);
            Sound(n') && Shrinks(n, n') && OutsOk(cfg, h, n')
  {
    var back, p := Lookup(n.byFrom, m.from), Fixed(ErrorReply(InsuffStorage, m.min));
    TargetsOpen(n, m.from);
    BroadcastEffect(cfg, n, back, p, false);
    OutsAfterBroadcast(cfg, h, h, n, back, p, false);
  }

  lemma ForwardStep(cfg: Config, s: State, sender: Sender, m: Msg, now: int)
    requires Inv(cfg, s) && s.phase == Input && Disciplined(Accepted(m, sender, true))
             && Disciplined(Accepted(m, sender, false))
    ensures Inv(cfg, ForwardMsg(cfg, s, sender, m, now))
  {
    if Lookup(s.net.byFrom, m.to) != [] {
      DirectStep(cfg, s, sender, m, now);
    } else {
      StoreStep(cfg, s, sender, m, now);
    }
  }

  lemma ReceiveStep(cfg: Config, s: State, c: ConnId, m: Msg, auth: Auth, now: int)
    requires Inv(cfg, s) && s.phase == Input && c in s.net.conns
    ensures Inv(cfg, ReceiveMsg(cfg, s, c, m, auth, now))
  {
    match PlanMsg(s.net, c, m)
    case Drop =>
    case AssertFails =>
    case Answer(o) => AnswerStep(cfg, s, c, o);
    case Logon => LogonStep(cfg, s, c, m, auth);
    case Forward(m') =>
      PlanDisciplined(s.net, c, m);
      ForwardStep(cfg, s, SenderOf(s.net.conns[c]), m', now);
  }

  // ----- the drain -----

  lemma WithoutAt(q: seq<Queued>, i: nat)
    requires i < |q|
    ensures |Without(q, i)| == |q| - 1
    ensures forall j :: 0 <= j < i ==> Without(q, i)[j] == q[j]
    ensures forall j :: i <= j < |q| - 1 ==> Without(q, i)[j] == q[j + 1]
  {
  }

  lemma FatesAfterRemoval(h: Hist, h': Hist, q: seq<Queued>, i: nat, f: Fate)
    requires i < |q| && FatesOk(h, q) && q[i].ticket < |h.accepted| && !h.accepted[q[i].ticket].direct
    requires h'.accepted == h.accepted && h'.fate == h.fate[q[i].ticket := f]
    ensures FatesOk(h', Without(q, i))
  {
    var w := Without(q, i);
    forall t | 0 <= t < |h'.accepted| && !h'.accepted[t].direct && t !in h'.fate ensures InQueue(w, t) {
      assert InQueue(q, t);
      var j :| 0 <= j < |q| && q[j].ticket == t;
      assert w[if j < i then j else j - 1].ticket == t;
    }
  }

  /** Removing entry `i` and recording its fate keeps everything about the queue. */
  lemma QueueAfterRemoval(cfg: Config, h: Hist, h': Hist, q: seq<Queued>, i: nat, f: Fate)
    requires i < |q| && QueueOk(cfg, h, q) && FatesOk(h, q)
    requires h'.accepted == h.accepted && h'.fate == h.fate[q[i].ticket := f]
    requires forall j :: 0 <= j < |q| && j != i ==> MarkOf(h', q[j].to) <= q[j].ticket
    ensures QueueOk(cfg, h', Without(q, i)) && FatesOk(h', Without(q, i))
  {
    var w := Without(q, i);
    WithoutAt(q, i);
    forall j | 0 <= j < |w| ensures EntryOk(cfg, h', w[j]) {
      assert EntryOk(cfg, h, q[if j < i then j else j + 1]);
    }
    assert EntryOk(cfg, h, q[i]);
    FatesAfterRemoval(h, h', q, i, f);
  }

  lemma DeliveredOuts(cfg: Config, h: Hist, n: Net, e: Queued)
    requires Sound(n) && OutsOk(cfg, h, n) && EntryOk(cfg, h, e)
    ensures AllOpen(n, Lookup(n.byFrom, e.to))
    ensures var n' := Broadcast(cfg, n, Lookup(n.byFrom, e.to), Fixed(Delivery(e.ticket, e.to, e.text)), false);
            Sound(n') && Shrinks(n, n') && OutsOk(cfg, NoteDelivered(h, e), n')
  {
    var targets, h', o := Lookup(n.byFrom, e.to), NoteDelivered(h, e), Delivery(e.ticket, e.to, e.text);
    TargetsOpen(n, e.to);
    assert HistLe(h, h');
    assert DeliveryOk(cfg, h', o) by {
      var a := h.accepted[e.ticket];
      assert InFormat(a.msg, a.msg.plain, a.msg.arinc622) == a.msg;
    }
    BroadcastEffect(cfg, n, targets, Fixed(o), false);
    OutsAfterBroadcast(cfg, h, h', n, targets, Fixed(o), false);
  }

  lemma DeliveredMail(cfg: Config, h: Hist, q: seq<Queued>, i: nat)
    requires MailOk(cfg, h, q) && i < |q|
    requires forall j :: 0 <= j < i ==> q[j].to != q[i].to
    ensures MailOk(cfg, NoteDelivered(h, q[i]), Without(q, i))
  {
    assert EntryOk(cfg, h, q[i]);
    forall id ensures MarkOf(NoteDelivered(h, q[i]), id) <= |h.accepted| { assert MarkOf(h, id) <= |h.accepted|; }
    forall j | 0 <= j < |q| && j != i ensures MarkOf(NoteDelivered(h, q[i]), q[j].to) <= q[j].ticket {
      assert EntryOk(cfg, h, q[j]);
    }
    QueueAfterRemoval(cfg, h, NoteDelivered(h, q[i]), q, i, Delivered);
  }

  lemma DrainDelivers(cfg: Config, s: State, now: int)
    requires Inv(cfg, s) && s.phase.Drain? && s.phase.next < |s.store.queue|
    requires Lookup(s.net.byFrom, s.store.queue[s.phase.next].to) != []
    ensures DrainStep(cfg, s, now).phase == s.phase && Inv(cfg, DrainStep(cfg, s, now))
  {
    var i, q := s.phase.next, s.store.queue;
    var e := q[i];
    assert EntryOk(cfg, s.hist, e);
    DeliveredOuts(cfg, s.hist, s.net, e);
    forall j | 0 <= j < i ensures q[j].to != e.to { assert !Registered(s.net, q[j].to); }
    DeliveredMail(cfg, s.hist, q, i);
    DequeueBalanced(cfg.limits, s.store, i);
    var n' := Broadcast(cfg, s.net, Lookup(s.net.byFrom, e.to), Fixed(Delivery(e.ticket, e.to, e.text)), false);
    SettledShrinks(s.net, n', q, i);
    SettledPrefix(n', q, i);
  }

  lemma SettledPrefix(n: Net, q: seq<Queued>, i: nat)
    requires i < |q| && Settled(n, q, i)
    ensures Settled(n, Without(q, i), i)
  {
  }

  lemma ExpiredMail(cfg: Config, h: Hist, q: seq<Queued>, i: nat)
    requires MailOk(cfg, h, q) && i < |q|
    ensures MailOk(cfg, NoteExpired(h, q[i]), Without(q, i)) && HistLe(h, NoteExpired(h, q[i]))
  {
    var h' := NoteExpired(h, q[i]);
    forall id ensures MarkOf(h', id) == MarkOf(h, id) {}
    forall j | 0 <= j < |q| ensures MarkOf(h', q[j].to) <= q[j].ticket { assert EntryOk(cfg, h, q[j]); }
    QueueAfterRemoval(cfg, h, h', q, i, Expired);
  }

  lemma DrainExpires(cfg: Config, s: State, now: int)
    requires Inv(cfg, s) && s.phase.Drain? && s.phase.next < |s.store.queue|
    requires Lookup(s.net.byFrom, s.store.queue[s.phase.next].to) == []
    ensures DrainStep(cfg, s, now).phase.Drain? && Inv(cfg, DrainStep(cfg, s, now))
  {
    var i, q := s.phase.next, s.store.queue;
    assert !Registered(s.net, q[i].to);
    if now - q[i].created > QUEUED_MSG_TIMEOUT {
      DequeueBalanced(cfg.limits, s.store, i);
      ExpiredMail(cfg, s.hist, q, i);
      OutsKeep(cfg, s.hist, NoteExpired(s.hist, q[i]), s.net);
      SettledPrefix(s.net, q, i);
    }
  }

  // ----- runs -----

  lemma StepKeepsInv(cfg: Config, s: State, e: Event)
    requires Inv(cfg, s)
    ensures Inv(cfg, Step(cfg, s, e))
  {
    if s.phase != Aborted && Enabled(s, e) {
      match e
      case Open(c) => OpenStep(cfg, s, c);
      case Close(c) => CloseStep(cfg, s, c);
      case Receive(c, m, auth, now) => ReceiveStep(cfg, s, c, m, auth, now);
      case Worker(key, ok, atc) => WorkerStep(cfg, s, key, ok, atc);
      case BeginLogons =>
      case CompleteOne(c) => CompleteStep(cfg, s, c);
      case BeginDrain =>
      case DrainOne(now) =>
        if Lookup(s.net.byFrom, s.store.queue[s.phase.next].to) != [] {
          DrainDelivers(cfg, s, now);
        } else {
          DrainExpires(cfg, s, now);
        }
      case EndDrain =>
    }
  }

  lemma InitInv(cfg: Config)
    ensures Inv(cfg, INIT)
  {
  }

  lemma {:induction false} RunKeepsInv(cfg: Config, s: State, es: seq<Event>)
    requires Inv(cfg, s)
    ensures Inv(cfg, Run(cfg, s, es))
    decreases |es|
  {
    if es != [] {
      StepKeepsInv(cfg, s, es[0]);
      RunKeepsInv(cfg, Step(cfg, s, es[0]), es[1..]);
    }
  }

  lemma {:induction false} RunAppend(cfg: Config, s: State, a: seq<Event>, b: seq<Event>)
    ensures Run(cfg, s, a + b) == Run(cfg, Run(cfg, s, a), b)
    decreases |a|
  {
    if a == [] {
      assert a + b == b;
    } else {
      assert (a + b)[1..] == a[1..] + b;
      RunAppend(cfg, Step(cfg, s, a[0]), a[1..], b);
    }
  }

  lemma RunPhase(cfg: Config, s: State, e: Event)
    ensures Run(cfg, s, [e]) == Step(cfg, s, e)
  {
    assert [e][1..] == [];
  }
}
