/**
 The daemon's own loops over its mutable tables. Each method leaves exactly the state that the
 corresponding step function computes, so the run theorems speak about this code.
 Connections are records in a table keyed by connection, not separate heap objects.
 */
module DaemonImpl {
  import opened Lists
  import opened Wire
  import Registry
  import opened MailStore
  import opened Daemon
  import opened DaemonSafety

  type ConnId = Registry.ConnId

  class ConnTable {
    var conns: map<ConnId, Registry.Conn>
    var byFrom: Registry.Index
    var sessions: map<nat, Registry.Session>
    var nextKey: nat

    ghost function View(): Registry.Net
      reads this
    {
      Registry.Net(conns, byFrom, sessions, nextKey)
    }

    constructor ()
      ensures View() == Registry.EMPTY_NET
    {
      conns, byFrom, sessions, nextKey := map[], map[], map[], 0;
    }

    method Send(c: ConnId, o: Out)
      requires c in conns
      modifies this
      ensures View() == Registry.Send(old(View()), c, o)
    {
      conns := conns[c := conns[c].(out := conns[c].out + [o])];
    }

    /** `conns_by_from_remove`: walk the list, unlink the first node holding `c`. */
    method IndexRemove(id: Ident, c: ConnId)
      modifies this
      ensures View() == old(View()).(byFrom := Registry.IndexRemove(old(byFrom), id, c))
    {
      if id in byFrom {
        var l, found := UnlinkFirst(byFrom[id], c);
        byFrom := byFrom[id := l];
      }
    }

    /** The loop that empties the identities of a connection. */
    method UnlinkAll(c: ConnId)
      requires c in conns
      modifies this
      ensures View() == old(View()).(conns := old(conns)[c := old(conns[c]).(fromList := [])],
                                     byFrom := Registry.Unlink(old(byFrom), old(conns[c].fromList), c))
    {
      ghost var conn := conns[c];
      while conns[c].fromList != []
        invariant c in conns && conns == old(conns)[c := conn.(fromList := conns[c].fromList)]
        invariant Registry.Unlink(byFrom, conns[c].fromList, c) == Registry.Unlink(old(byFrom), conn.fromList, c)
        invariant sessions == old(sessions) && nextKey == old(nextKey)
        decreases |conns[c].fromList|
      {
        var id := conns[c].fromList[0];
        conns := conns[c := conns[c].(fromList := conns[c].fromList[1..])];
        IndexRemove(id, c);
      }
    }

    method ResetLogon(c: ConnId)
      requires c in conns
      modifies this
      ensures View() == Registry.ResetLogon(old(View()), c)
    {
      UnlinkAll(c);
      var k := conns[c];
      if k.status == Registry.Started {
        sessions := Registry.KillSession(sessions, k.authKey);
      } else if k.status == Registry.Complete {
        k := k.(isAtc := false, to := "", logonFrom := "", logonTo := "");
      }
      conns := conns[c := k.(status := Registry.LogonNone, logonSuccess := false)];
    }

    method Close(c: ConnId)
      requires c in conns
      modifies this
      ensures View() == Registry.CloseConn(old(View()), c)
    {
      ResetLogon(c);
      conns := conns - {c};
    }

    method WorkerDone(key: nat, ok: bool, atc: bool)
      requires key in sessions && (sessions[key].kill || sessions[key].conn in conns)
      modifies this
      ensures View() == Registry.WorkerDone(old(View()), key, ok, atc)
    {
      if !sessions[key].kill {
        var c := sessions[key].conn;
        conns := conns[c := Registry.LogonDone(conns[c], ok, atc)];
      }
      sessions := sessions - {key};
    }

    method CompleteLogon(c: ConnId)
      requires c in conns
      modifies this
      ensures View() == Registry.CompleteLogon(old(View()), c)
    {
      var conn := conns[c];
      if conn.status != Registry.Completing {
        return;
      }
      conns := conns[c := conn.(logonTo := "", logonFrom := "")];
      if conn.logonSuccess && !conn.isAtc && conn.logonTo == "" {
        conns := conns[c := conns[c].(status := Registry.LogonNone)];
        Send(c, ErrorReply(InsuffData, 0));
      } else if conn.logonSuccess {
        conns := conns[c := conns[c].(status := Registry.Complete, to := conn.logonTo,
                                      fromList := conn.fromList + [conn.logonFrom])];
        byFrom := Registry.IndexAdd(byFrom, conn.logonFrom, c);
        Send(c, LogonReply(true));
      } else {
        conns := conns[c := conns[c].(status := Registry.LogonNone)];
        Send(c, LogonReply(false));
      }
    }

    /** `complete_logons` over the connection lists, in list order. */
    method CompleteLogons(order: seq<ConnId>)
      requires AllOpen(View(), order)
      modifies this
      ensures View() == CompleteAll(old(View()), order)
    {
      var i := 0;
      while i < |order|
        invariant 0 <= i <= |order| && AllOpen(View(), order)
        invariant CompleteAll(View(), order[i..]) == CompleteAll(old(View()), order)
      {
        assert order[i] in conns;
        assert order[i..][0] == order[i] && order[i..][1..] == order[i + 1..];
        CompleteLogon(order[i]);
        i := i + 1;
      }
    }

    method RemoveIdent(c: ConnId, id: Ident)
      requires c in conns
      modifies this
      ensures View() == Registry.RemoveIdent(old(View()), c, id)
    {
      var l, found := UnlinkFirst(conns[c].fromList, id);
      if found {
        IndexRemove(id, c);
        conns := conns[c := conns[c].(fromList := l)];
      }
    }

    method ClearForLogon(c: ConnId, id: Ident)
      requires c in conns
      modifies this
      ensures View() == Registry.ClearForLogon(old(View()), c, id)
    {
      if !conns[c].isAtc {
        ResetLogon(c);
      } else {
        RemoveIdent(c, id);
      }
      conns := conns[c := Registry.SettleConn(conns[c])];
    }

    method ProcessLogon(c: ConnId, m: Msg, auth: Registry.Auth)
      requires c in conns
      modifies this
      ensures View() == Registry.ProcessLogon(old(View()), c, m, auth)
    {
      if conns[c].status == Registry.Started || conns[c].status == Registry.Completing {
        Send(c, ErrorReply(UnexpctData, m.min));
        return;
      }
      ClearForLogon(c, m.from);
      if !m.isLogoff {
        StartLogon(c, m, auth);
      }
    }

    method StartLogon(c: ConnId, m: Msg, auth: Registry.Auth)
      requires c in conns
      modifies this
      ensures View() == Registry.StartLogon(old(View()), c, m, auth)
    {
      conns := conns[c := conns[c].(logonTo := m.to, logonFrom := m.from, status := Registry.Started,
                                    plain := "PLAIN" in m.opts || m.opts == [], arinc622 := "ARINC622" in m.opts)];
      match auth {
        case Remote =>
          sessions := sessions[nextKey := Registry.Session(c, false)];
          conns := conns[c := conns[c].(authKey := nextKey)];
          nextKey := nextKey + 1;
        case Local(ok, atc) =>
          conns := conns[c := Registry.LogonDone(conns[c], ok, atc).(authKey := 0)];
      }
    }

    method Broadcast(cfg: Config, targets: seq<ConnId>, p: Payload, endSvc: bool)
      requires AllOpen(View(), targets)
      modifies this
      ensures View() == Daemon.Broadcast(cfg, old(View()), targets, p, endSvc)
    {
      var i := 0;
      while i < |targets|
        invariant 0 <= i <= |targets| && AllOpen(View(), targets)
        invariant AllOpen(View(), targets[i..])
        invariant Daemon.Broadcast(cfg, View(), targets[i..], p, endSvc)
                  == Daemon.Broadcast(cfg, old(View()), targets, p, endSvc)
      {
        var c := targets[i];
        assert targets[i..][0] == c && targets[i..][1..] == targets[i + 1..];
        Send(c, Render(cfg, p, conns[c]));
        if endSvc {
          ResetLogon(c);
        }
        i := i + 1;
      }
    }
  }

  function CompleteAll(n: Registry.Net, order: seq<ConnId>): Registry.Net
    requires AllOpen(n, order)
    decreases |order|
  {
    if order == [] then n
    else
      assert order[0] in n.conns;
      var n1 := Registry.CompleteLogon(n, order[0]);
      assert AllOpen(n1, order[1..]) by {
        forall i | 0 <= i < |order[1..]| ensures order[1..][i] in n1.conns { assert order[i + 1] in n.conns; }
      }
      CompleteAll(n1, order[1..])
  }

  class MsgStore {
    const limits: Limits
    var queue: seq<Queued>
    var bytes: nat
    var quota: Quota

    ghost function View(): Store
      reads this
    {
      Store(queue, bytes, quota)
    }

    constructor (limits: Limits)
      ensures View() == EMPTY_STORE && this.limits == limits
    {
      this.limits := limits;
      queue, bytes, quota := [], 0, map[];
    }

    method QuotaIncr(id: Ident, n: nat) returns (ok: bool)
      modifies this`quota
      ensures QuotaResult(quota, ok) == MailStore.QuotaIncr(limits, old(quota), id, n)
    {
      if id !in quota {
        quota := quota[id := 0];
      }
      if limits.maxQuota > 0 && quota[id] + n > limits.maxQuota {
        return false;
      }
      quota := quota[id := quota[id] + n];
      return true;
    }

    method QuotaDecr(id: Ident, n: nat)
      requires 0 < n <= QuotaOf(quota, id)
      modifies this`quota
      ensures quota == MailStore.QuotaDecr(old(quota), id, n)
    {
      quota := quota[id := quota[id] - n];
      if quota[id] == 0 {
        quota := quota - {id};
      }
    }

    method StoreMsg(e: Queued) returns (ok: bool)
      modifies this
      ensures StoreResult(View(), ok) == MailStore.StoreMsg(limits, old(View()), e)
    {
      if limits.maxBytes != 0 && bytes + |e.text| > limits.maxBytes {
        return false;
      }
      if !e.isAtc {
        ok := QuotaIncr(e.from, |e.text|);
        if !ok {
          return;
        }
      }
      queue := queue + [e];
      bytes := bytes + |e.text|;
      ok := true;
    }

    method Dequeue(i: nat)
      requires CanDequeue(View(), i) && queue[i].text != ""
      modifies this
      ensures View() == MailStore.Dequeue(old(View()), i)
    {
      var e := queue[i];
      bytes := bytes - |e.text|;
      if !e.isAtc {
        QuotaDecr(e.from, |e.text|);
      }
      queue := queue[..i] + queue[i + 1..];
    }
  }

  /** The scan for an END SERVICE segment in `conn_send_msg`. */
  method HasEndSvc(m: Msg) returns (found: bool)
    ensures found == IsEndSvc(m)
  {
    found := false;
    for i := 0 to |m.segs|
      invariant found <==> exists j :: 0 <= j < i && !m.segs[j].isDl && m.segs[j].msgType == UM161_END_SVC
    {
      if !m.segs[i].isDl && m.segs[i].msgType == UM161_END_SVC {
        found := true;
      }
    }
  }

  /** A plan of the second half of `conn_process_msg`, carried out. */
  ghost function Carried(cfg: Config, s: State, c: ConnId, p: Plan, now: int): State
    requires c in s.net.conns
  {
    match p
    case Answer(o) => s.(net := Registry.Send(s.net, c, o))
    case Forward(m) => ForwardMsg(cfg, s, SenderOf(s.net.conns[c]), m, now)
    case AssertFails => s.(phase := Aborted)
    case _ => s
  }

  lemma CarriedPlan(cfg: Config, s: State, c: ConnId, m: Msg, auth: Registry.Auth, now: int, p: Plan)
    requires c in s.net.conns && PlanMsg(s.net, c, m) == p && !p.Logon?
    ensures ReceiveMsg(cfg, s, c, m, auth, now) == Carried(cfg, s, c, p, now)
  {
  }

  lemma AddressedIsNoLogon(n: Registry.Net, k: Registry.Conn, m: Msg)
    ensures !PlanAddressed(n, k, m).Logon?
  {
  }

  class Process {
    const cfg: Config
    const table: ConnTable
    const store: MsgStore
    var hist: Hist
    var phase: Phase

    ghost function View(): State
      reads this, table, store
    {
      State(table.View(), store.View(), hist, phase)
    }

    ghost predicate Valid()
      reads this, table, store
    {
      GoodConfig(cfg) && store.limits == cfg.limits && Inv(cfg, View())
    }

    constructor (cfg: Config)
      requires GoodConfig(cfg)
      ensures Valid() && View() == INIT && this.cfg == cfg && fresh(table) && fresh(store)
    {
      this.cfg := cfg;
      table := new ConnTable();
      store := new MsgStore(cfg.limits);
      hist, phase := Hist([], map[], map[]), Input;
      new;
      InitInv(cfg);
    }

    method Forward(sender: Sender, m: Msg, now: int)
      requires Valid() && phase == Input
      modifies this, table, store
      ensures View() == ForwardMsg(cfg, old(View()), sender, m, now)
      ensures store.limits == cfg.limits
    {
      var targets := Registry.Lookup(table.byFrom, m.to);
      TargetsOpen(table.View(), m.to);
      TargetsOpen(table.View(), m.from);
      if targets != [] {
        var endSvc := HasEndSvc(m);
        table.Broadcast(cfg, targets, Encoded(|hist.accepted|, m), endSvc);
        hist := NoteDirect(hist, m, sender);
      } else {
        var ok := store.StoreMsg(Queued(m.from, m.to, false, now, cfg.encode(m), |hist.accepted|));
        if ok {
          hist := NoteStored(hist, m, sender);
        } else {
          table.Broadcast(cfg, Registry.Lookup(table.byFrom, m.from), Fixed(ErrorReply(InsuffStorage, m.min)), false);
        }
      }
    }

    /** `forward_msg`: the sender stamp, and the router's TO stamp. */
    method StampAndForward(c: ConnId, m: Msg, to: Ident, now: int)
      requires Valid() && phase == Input && c in table.conns
      modifies this, table, store
      ensures View() == Carried(cfg, old(View()), c, Stamp(old(table.conns)[c], m, to), now)
      ensures store.limits == cfg.limits
    {
      var k := table.conns[c];
      if k.fromList == [] {
        phase := Aborted;
        return;
      }
      var from := m.from;
      if from == "" || !k.isAtc {
        from := k.fromList[0];
      }
      Forward(SenderOf(k), m.(from := from, to := to), now);
    }

    /** The second half of `conn_process_msg`: direction checks and FROM=AUTO, once the target is known. */
    method Direct(c: ConnId, m: Msg, to: Ident, now: int)
      requires Valid() && phase == Input && c in table.conns
      modifies this, table, store
      ensures View() == Carried(cfg, old(View()), c, PlanDirected(old(table.View()), old(table.conns)[c], m, to), now)
      ensures store.limits == cfg.limits
    {
      var k := table.conns[c];
      if m.segs == [] {
        phase := Aborted;
        return;
      }
      var from := m.from;
      if k.isAtc {
        if m.segs[0].isDl {
          table.Send(c, ErrorReply(AppError, m.min));
          return;
        }
        if m.from == "AUTO" {
          var l := Registry.Lookup(table.byFrom, to);
          if l == [] {
            table.Send(c, ErrorReply(AppError, m.min));
            return;
          }
          if l[|l| - 1] !in table.conns {
            phase := Aborted;
            return;
          }
          from := table.conns[l[|l| - 1]].to;
        }
      } else if !m.segs[0].isDl {
        table.Send(c, SvcUnavail(m.min));
        return;
      }
      StampAndForward(c, m.(from := from), to, now);
    }

    /** The target: the message's own, or else the one of the logon. */
    method Address(c: ConnId, m: Msg, now: int)
      requires Valid() && phase == Input && c in table.conns
      modifies this, table, store
      ensures View() == Carried(cfg, old(View()), c, PlanAddressed(old(table.View()), old(table.conns)[c], m), now)
      ensures store.limits == cfg.limits
    {
      var k := table.conns[c];
      if m.to != "" {
        if k.isAtc || m.to == k.to || IsNotCda(m) {
          Direct(c, m, m.to, now);
        } else if m.segs == [] {
          phase := Aborted;
        } else {
          table.Send(c, ErrorReply(UnexpctData, m.min));
        }
      } else if k.to != "" {
        Direct(c, m.(to := k.to), k.to, now);
      } else {
        table.Send(c, ErrorReply(InsuffData, m.min));
      }
    }

    method Dispatch(c: ConnId, m: Msg, auth: Registry.Auth, now: int)
      requires Valid() && phase == Input && c in table.conns
      modifies this, table, store
      ensures View() == ReceiveMsg(cfg, old(View()), c, m, auth, now)
      ensures store.limits == cfg.limits
    {
      var k := table.conns[c];
      if k.status != Registry.Complete && !m.isLogon {
        if !m.isLogoff { table.Send(c, ErrorReply(AppError, m.min)); }
      } else if m.isLogon || m.isLogoff {
        table.ProcessLogon(c, m, auth);
      } else if m.pkt == Ping {
        table.Send(c, PongReply(m.min));
      } else if k.isAtc || |m.segs| != 1 || m.segs[0].msgType != DM73_VERSION {
        AddressedIsNoLogon(table.View(), k, m);
        CarriedPlan(cfg, View(), c, m, auth, now, PlanAddressed(table.View(), k, m));
        Address(c, m, now);
      }
    }

    /** `conn_process_msg` */
    method Receive(c: ConnId, m: Msg, auth: Registry.Auth, now: int)
      requires Valid() && phase == Input && c in table.conns
      modifies this, table, store
      ensures Valid() && View() == ReceiveMsg(cfg, old(View()), c, m, auth, now)
    {
      ReceiveStep(cfg, View(), c, m, auth, now);
      Dispatch(c, m, auth, now);
    }

    /** The main loop behind the input: `complete_logons`, then `handle_queued_msgs`. */
    method FinishTurn(order: seq<ConnId>, now: int)
      requires Valid() && phase == Input && AllOpen(table.View(), order)
      modifies this, table, store
      ensures Valid() && phase == Input && View() == LoopTail(cfg, old(View()), order, now)
    {
      ghost var s := View();
      ghost var es := CompleteAllIsRun(cfg, s.(phase := Logons), order);
      RunKeepsInv(cfg, s.(phase := Logons), es);
      phase := Logons;
      table.CompleteLogons(order);
      HandleQueuedMsgs(now);
    }

    /** `handle_queued_msgs`: one pass over the queue, after which the input phase may resume. */
    method HandleQueuedMsgs(now: int)
      requires Valid() && phase == Logons
      modifies this, table, store
      ensures Valid() && phase == Input
      ensures View() == DrainAll(cfg, old(View()).(phase := Drain(0)), now)
    {
      ghost var start := View().(phase := Drain(0));
      phase := Drain(0);
      var i := 0;
      while i < |store.queue|
        invariant 0 <= i <= |store.queue| && phase == Drain(i) && Valid()
        invariant DrainAll(cfg, View(), now) == DrainAll(cfg, start, now)
        decreases |store.queue| - i
      {
        i := DrainOne(i, now);
      }
      phase := Input;
    }

    method DrainDeliver(i: nat, now: int)
      requires Valid() && phase == Drain(i) && i < |store.queue|
               && Registry.Lookup(table.byFrom, store.queue[i].to) != []
      modifies this, table, store
      ensures View() == DrainStep(cfg, old(View()), now) && |store.queue| == old(|store.queue|) - 1
    {
      var e := store.queue[i];
      var targets := Registry.Lookup(table.byFrom, e.to);
      assert EntryOk(cfg, hist, e);
      TargetsOpen(table.View(), e.to);
      DequeueBalanced(cfg.limits, store.View(), i);
      table.Broadcast(cfg, targets, Fixed(Delivery(e.ticket, e.to, e.text)), false);
      store.Dequeue(i);
      hist := NoteDelivered(hist, e);
    }

    method DrainExpire(i: nat)
      requires Valid() && phase == Drain(i) && CanDequeue(store.View(), i)
      modifies this, store
      ensures hist == NoteExpired(old(hist), old(store.queue[i]))
              && store.View() == MailStore.Dequeue(old(store.View()), i)
      ensures phase == old(phase)
    {
      var e := store.queue[i];
      assert EntryOk(cfg, hist, e);
      store.Dequeue(i);
      hist := NoteExpired(hist, e);
    }

    method DrainOne(i: nat, now: int) returns (next: nat)
      requires Valid() && phase == Drain(i) && i < |store.queue|
      modifies this, table, store
      ensures Valid() && phase == Drain(next) && next <= |store.queue|
      ensures View() == DrainStep(cfg, old(View()), now)
      ensures |store.queue| - next < old(|store.queue| - i)
    {
      if Registry.Lookup(table.byFrom, store.queue[i].to) != [] {
        DrainDelivers(cfg, View(), now);
        DrainDeliver(i, now);
        return i;
      }
      DrainExpires(cfg, View(), now);
      DequeueBalanced(cfg.limits, store.View(), i);
      if now - store.queue[i].created > QUEUED_MSG_TIMEOUT {
        DrainExpire(i);
        return i;
      }
      phase := Drain(i + 1);
      return i + 1;
    }
  }

  /** Drain events until the pass is over. */
  ghost function DrainAll(cfg: Config, s: State, now: int): State
    decreases if s.phase.Drain? then |s.store.queue| - s.phase.next else 0
  {
    if s.phase.Drain? && s.phase.next < |s.store.queue| then
      var s1 := DrainStep(cfg, s, now);
      if s1.phase.Drain? then DrainAll(cfg, s1, now) else s1
    else s.(phase := Input)
  }

  // ----- the loops are runs of events -----

  /** A whole drain pass is a run of drain events. */
  lemma {:induction false} DrainAllIsRun(cfg: Config, s: State, now: int) returns (es: seq<Event>)
    requires s.phase.Drain?
    ensures Run(cfg, s, es) == DrainAll(cfg, s, now)
    ensures forall i :: 0 <= i < |es| ==> es[i].DrainOne? || es[i].EndDrain?
    decreases |s.store.queue| - s.phase.next
  {
    if s.phase.next < |s.store.queue| {
      var s1 := DrainStep(cfg, s, now);
      var rest := [];
      if s1.phase.Drain? { rest := DrainAllIsRun(cfg, s1, now); }
      es := [Event.DrainOne(now)] + rest;
      DrainIsStep(cfg, s, now);
      RunFirst(cfg, s, Event.DrainOne(now), s1, rest);
    } else {
      es := [EndDrain];
      RunPhase(cfg, s, EndDrain);
    }
  }

  lemma DrainIsStep(cfg: Config, s: State, now: int)
    requires s.phase.Drain? && s.phase.next < |s.store.queue|
    ensures Step(cfg, s, Event.DrainOne(now)) == DrainStep(cfg, s, now)
  {
  }

  lemma RunFirst(cfg: Config, s: State, e: Event, s1: State, rest: seq<Event>)
    requires Step(cfg, s, e) == s1
    ensures Run(cfg, s, [e] + rest) == Run(cfg, s1, rest)
  {
    assert ([e] + rest)[1..] == rest;
  }

  /** Completing the logons of the connections in `order` is a run of completion events. */
  lemma {:induction false} CompleteAllIsRun(cfg: Config, s: State, order: seq<ConnId>) returns (es: seq<Event>)
    requires s.phase == Logons && AllOpen(s.net, order)
    ensures Run(cfg, s, es) == s.(net := CompleteAll(s.net, order))
    ensures forall i :: 0 <= i < |es| ==> es[i].CompleteOne?
    decreases |order|
  {
    es := [];
    if order != [] {
      assert order[0] in s.net.conns;
      var s1 := s.(net := Registry.CompleteLogon(s.net, order[0]));
      RestOpen(s.net, s1.net, order);
      es := CompleteAllIsRun(cfg, s1, order[1..]);
      es := [CompleteOne(order[0])] + es;
    }
  }

  /** One turn of the main loop behind the input: completing logons, then draining the queue. */
  ghost function LoopTail(cfg: Config, s: State, order: seq<ConnId>, now: int): State
    requires AllOpen(s.net, order)
  {
    DrainAll(cfg, s.(net := CompleteAll(s.net, order), phase := Drain(0)), now)
  }

  /** The tail of the main loop is a run, so everything proved of runs holds of the program's loop. */
  lemma LoopTailIsRun(cfg: Config, s: State, order: seq<ConnId>, now: int) returns (es: seq<Event>)
    requires s.phase == Input && AllOpen(s.net, order)
    ensures Run(cfg, s, es) == LoopTail(cfg, s, order, now)
  {
    var s1 := s.(phase := Logons);
    var a := CompleteAllIsRun(cfg, s1, order);
    var s2 := s1.(net := CompleteAll(s.net, order));
    var s3 := s2.(phase := Drain(0));
    var b := DrainAllIsRun(cfg, s3, now);
    RunPhase(cfg, s, BeginLogons);
    RunAppend(cfg, s, [BeginLogons], a);
    RunPhase(cfg, s2, BeginDrain);
    RunAppend(cfg, s, [BeginLogons] + a, [BeginDrain]);
    RunAppend(cfg, s, [BeginLogons] + a + [BeginDrain], b);
    es := [BeginLogons] + a + [BeginDrain] + b;
  }
}
