/** What the daemon answers, passes on, registers and forgets: laws of single events, and the stories behind them. */
module DaemonLaws {
  import opened Lists
  import opened Wire
  import opened Registry
  import opened MailStore
  import opened Daemon
  import opened DaemonSafety
  import opened DaemonTrace

  // ----- what is answered -----

  /** The state `s` with one item more in the output of `c`. */
  ghost function Told(s: State, c: ConnId, o: Out): State
    requires c in s.net.conns
  {
    var k := s.net.conns[c];
    s.(net := s.net.(conns := s.net.conns[c := k.(out := k.out + [o])]))
  }

  /** Before its logon a connection gets an error for everything but LOGON, and nothing for LOGOFF. */
  lemma BeforeLogon(cfg: Config, s: State, c: ConnId, m: Msg, auth: Auth, now: int)
    requires s.phase == Input && c in s.net.conns && s.net.conns[c].status != Complete && !m.isLogon
    ensures Step(cfg, s, Receive(c, m, auth, now))
            == if m.isLogoff then s else Told(s, c, ErrorReply(AppError, m.min))
  {
  }

  /** A second LOGON before the first one is settled is refused. */
  lemma BusyLogonRefused(cfg: Config, s: State, c: ConnId, m: Msg, auth: Auth, now: int)
    requires s.phase == Input && c in s.net.conns && m.isLogon
    requires s.net.conns[c].status == Started || s.net.conns[c].status == Completing
    ensures Step(cfg, s, Receive(c, m, auth, now)) == Told(s, c, ErrorReply(UnexpctData, m.min))
  {
  }

  /** A message of a logged-on station that is neither LOGON nor LOGOFF. */
  ghost predicate Talks(s: State, c: ConnId, m: Msg) {
    s.phase == Input && c in s.net.conns && s.net.conns[c].status == Complete && !m.isLogon && !m.isLogoff
  }

  lemma PingAnswered(cfg: Config, s: State, c: ConnId, m: Msg, auth: Auth, now: int)
    requires Talks(s, c, m) && m.pkt == Ping
    ensures Step(cfg, s, Receive(c, m, auth, now)) == Told(s, c, PongReply(m.min))
  {
  }

  /** A lone version number of an aircraft, DM73, goes no further. */
  lemma VersionSwallowed(cfg: Config, s: State, c: ConnId, m: Msg, auth: Auth, now: int)
    requires Talks(s, c, m) && m.pkt != Ping && !s.net.conns[c].isAtc && |m.segs| == 1 && m.segs[0].msgType == 73
    ensures Step(cfg, s, Receive(c, m, auth, now)) == s
  {
  }

  /** An ATC station has to name a target. */
  lemma TargetMissing(cfg: Config, s: State, c: ConnId, m: Msg, auth: Auth, now: int)
    requires Talks(s, c, m) && m.pkt != Ping && s.net.conns[c].isAtc && m.to == "" && s.net.conns[c].to == ""
    ensures Step(cfg, s, Receive(c, m, auth, now)) == Told(s, c, ErrorReply(InsuffData, m.min))
  {
  }

  // ----- what is passed on -----

  /** `m` is a lone DM63, NOT CURRENT DATA AUTHORITY. */
  predicate LoneNotCda(m: Msg) { |m.segs| == 1 && m.segs[0] == Seg(true, 63) }

  /** Exactly which messages of a logged-on aircraft go on, and as what: those that start with a downlink and go to its
      own station, or a lone DM63 to any. They bear the aircraft's name and the target's. */
  lemma AircraftForwardsIff(n: Net, c: ConnId, m: Msg, k: Conn, to: Ident)
    requires Sound(n) && c in n.conns && k == n.conns[c] && k.status == Complete && !k.isAtc
    requires !m.isLogon && !m.isLogoff && m.pkt != Ping && m.segs != [] && !(|m.segs| == 1 && m.segs[0].msgType == 73)
    requires to == if m.to != "" then m.to else k.to
    ensures k.fromList != []
    ensures PlanMsg(n, c, m) == Forward(m.(from := k.fromList[0], to := to))
            <==> m.segs[0].isDl && (to == k.to || LoneNotCda(m))
    ensures to != k.to && !LoneNotCda(m) ==> PlanMsg(n, c, m) == Answer(ErrorReply(UnexpctData, m.min))
    ensures to == k.to && !m.segs[0].isDl ==> PlanMsg(n, c, m) == Answer(SvcUnavail(m.min))
  {
    assert ConnOk(k);
  }

  /** Exactly which messages of a logged-on ATC station go on, and as what: those that start with an uplink and, if they
      leave their sender to be found out, have a recipient who is online. So the downlink error of a timed-out thread is
      refused. */
  lemma AtcForwardsIff(n: Net, c: ConnId, m: Msg, k: Conn, to: Ident)
    requires Sound(n) && c in n.conns && k == n.conns[c] && k.status == Complete && k.isAtc
    requires !m.isLogon && !m.isLogoff && m.pkt != Ping && m.segs != []
    requires to == (if m.to != "" then m.to else k.to) && to != ""
    ensures k.fromList != []
    ensures PlanMsg(n, c, m).Forward? <==> !m.segs[0].isDl && (m.from == "AUTO" ==> Registered(n, to))
    ensures m.segs[0].isDl || (m.from == "AUTO" && !Registered(n, to)) ==>
              PlanMsg(n, c, m) == Answer(ErrorReply(AppError, m.min))
    ensures !m.segs[0].isDl && m.from != "AUTO" ==>
              PlanMsg(n, c, m) == Forward(m.(from := if m.from == "" then k.fromList[0] else m.from, to := to))
    ensures !m.segs[0].isDl && m.from == "AUTO" && Registered(n, to) ==>
              var l := Lookup(n.byFrom, to);
              l[|l| - 1] in n.conns && var from := n.conns[l[|l| - 1]].to;
              PlanMsg(n, c, m) == Forward(m.(from := if from == "" then k.fromList[0] else from, to := to))
  {
    assert ConnOk(k);
    TargetsOpen(n, to);
    var l := Lookup(n.byFrom, to);
    assert l != [] ==> l[|l| - 1] in n.conns;
  }

  /** There is room for a text of `from`, in the store and in the sender's quota; zero means no limit. */
  ghost predicate HasRoom(lim: Limits, q: seq<Queued>, from: Ident, size: nat) {
    && (lim.maxBytes == 0 || TotalBytes(q) + size <= lim.maxBytes)
    && (lim.maxQuota == 0 || Charged(q, from) + size <= lim.maxQuota)
  }

  /** `o` is appended to the output of each connection of `id`, and nothing to any other. */
  ghost predicate OnlyTold(n: Net, n': Net, id: Ident, o: Conn -> Out) {
    n'.conns.Keys == n.conns.Keys
    && forall d :: d in n.conns ==>
         n'.conns[d].out == if d in Lookup(n.byFrom, id) then n.conns[d].out + [o(n.conns[d])] else n.conns[d].out
  }

  ghost function DeliveryTo(cfg: Config, ticket: nat, m: Msg): Conn -> Out {
    (k: Conn) => Delivery(ticket, m.to, cfg.encode(m.(plain := k.plain, arinc622 := k.arinc622)))
  }

  /** What becomes of a message that goes on: it reaches every connection of its recipient, each in the format of that
      connection; or is stored with the time; or, where there is no room, its sender is told. */
  ghost predicate GoesOn(cfg: Config, s: State, s': State, sender: Sender, m: Msg, now: int) {
    var t := |s.hist.accepted|;
    if Registered(s.net, m.to) then
      && s'.store == s.store && s'.hist.accepted == s.hist.accepted + [Accepted(m, sender, true)]
      && OnlyTold(s.net, s'.net, m.to, DeliveryTo(cfg, t, m))
    else if HasRoom(cfg.limits, s.store.queue, m.from, |cfg.encode(m)|) then
      && s'.store.queue == s.store.queue + [Queued(m.from, m.to, false, now, cfg.encode(m), t)]
      && s'.hist.accepted == s.hist.accepted + [Accepted(m, sender, false)] && s'.net == s.net
    else
      && s'.store.queue == s.store.queue && s'.hist == s.hist
      && OnlyTold(s.net, s'.net, m.from, (k: Conn) => ErrorReply(InsuffStorage, m.min))
  }

  lemma ForwardOutcome(cfg: Config, s: State, sender: Sender, m: Msg, now: int)
    requires Inv(cfg, s)
    ensures GoesOn(cfg, s, ForwardMsg(cfg, s, sender, m, now), sender, m, now)
  {
    TargetsOpen(s.net, m.to);
    TargetsOpen(s.net, m.from);
    var t := |s.hist.accepted|;
    if Registered(s.net, m.to) {
      BroadcastEffect(cfg, s.net, Lookup(s.net.byFrom, m.to), Encoded(t, m), IsEndSvc(m));
    } else {
      StoreBalanced(cfg.limits, s.store, Queued(m.from, m.to, false, now, cfg.encode(m), t));
      BroadcastEffect(cfg, s.net, Lookup(s.net.byFrom, m.from), Fixed(ErrorReply(InsuffStorage, m.min)), false);
    }
  }

  lemma ForwardStep(cfg: Config, s: State, c: ConnId, m: Msg, auth: Auth, now: int, m': Msg, sender: Sender)
    requires Inv(cfg, s) && s.phase == Input && c in s.net.conns && PlanMsg(s.net, c, m) == Forward(m')
    requires sender == SenderOf(s.net.conns[c])
    ensures GoesOn(cfg, s, Step(cfg, s, Receive(c, m, auth, now)), sender, m', now)
  {
    ForwardOutcome(cfg, s, sender, m', now);
    assert Step(cfg, s, Receive(c, m, auth, now)) == ForwardMsg(cfg, s, sender, m', now);
  }

  /** A downlink that an aircraft sends to its own station, or a lone DM63 to any, goes on. */
  lemma AircraftIsHeard(cfg: Config, s: State, c: ConnId, m: Msg, auth: Auth, now: int, k: Conn, to: Ident)
    requires Inv(cfg, s) && Talks(s, c, m) && k == s.net.conns[c] && !k.isAtc && m.pkt != Ping
    requires m.segs != [] && m.segs[0].isDl && !(|m.segs| == 1 && m.segs[0].msgType == 73)
    requires to == (if m.to != "" then m.to else k.to) && (to == k.to || LoneNotCda(m))
    ensures k.fromList != []
    ensures GoesOn(cfg, s, Step(cfg, s, Receive(c, m, auth, now)), Sender(false, k.fromList[0], k.to),
                   m.(from := k.fromList[0], to := to), now)
  {
    AircraftForwardsIff(s.net, c, m, k, to);
    ForwardStep(cfg, s, c, m, auth, now, m.(from := k.fromList[0], to := to), Sender(false, k.fromList[0], k.to));
  }

  /** An uplink that an ATC station sends to a target goes on, in its own name unless it gives another. */
  lemma AtcIsHeard(cfg: Config, s: State, c: ConnId, m: Msg, auth: Auth, now: int, k: Conn, to: Ident)
    requires Inv(cfg, s) && Talks(s, c, m) && k == s.net.conns[c] && k.isAtc && m.pkt != Ping
    requires m.segs != [] && !m.segs[0].isDl && m.from != "AUTO"
    requires to == (if m.to != "" then m.to else k.to) && to != ""
    ensures k.fromList != []
    ensures GoesOn(cfg, s, Step(cfg, s, Receive(c, m, auth, now)), Sender(true, k.fromList[0], k.to),
                   m.(from := if m.from == "" then k.fromList[0] else m.from, to := to), now)
  {
    AtcForwardsIff(s.net, c, m, k, to);
    var m' := m.(from := if m.from == "" then k.fromList[0] else m.from, to := to);
    ForwardStep(cfg, s, c, m, auth, now, m', Sender(true, k.fromList[0], k.to));
  }

  // ----- what becomes of a stored message -----

  ghost predicate HasFate(h: Hist, t: nat, f: Fate) { t in h.fate && h.fate[t] == f }

  lemma DrainEvent(cfg: Config, s: State, now: int)
    requires s.phase.Drain? && s.phase.next < |s.store.queue|
    ensures Step(cfg, s, DrainOne(now)) == DrainStep(cfg, s, now)
  {
  }

  /** Exactly when a stored message is delivered, expires or stays: it is delivered if its recipient is registered, and
      else expires if and only if it was stored more than ten minutes ago. */
  lemma DrainDecides(cfg: Config, s: State, now: int, e: Queued)
    requires Inv(cfg, s) && s.phase.Drain? && s.phase.next < |s.store.queue| && e == s.store.queue[s.phase.next]
    ensures var s' := Step(cfg, s, DrainOne(now));
            && (HasFate(s'.hist, e.ticket, Fate.Delivered) <==> Registered(s.net, e.to))
            && (HasFate(s'.hist, e.ticket, Fate.Expired) <==> !Registered(s.net, e.to) && now - e.created > 600)
            && (!Registered(s.net, e.to) && now - e.created <= 600 ==> s' == s.(phase := Drain(s.phase.next + 1)))
  {
    assert e.ticket !in s.hist.fate by { assert EntryOk(cfg, s.hist, e); }
    TargetsOpen(s.net, e.to);
    DequeueBalanced(cfg.limits, s.store, s.phase.next);
    DrainEvent(cfg, s, now);
  }

  // ----- what LOGON and LOGOFF do -----

  ghost predicate Idle(n: Net, c: ConnId) {
    c in n.conns && (n.conns[c].status == LogonNone || n.conns[c].status == Complete)
  }

  /** The identities that stay: on an ATC connection all but the one named, on another none. */
  ghost predicate KeepsOthers(k: Conn, k': Conn, id: Ident) {
    forall x :: x in k'.fromList <==> k.isAtc && x in k.fromList && x != id
  }

  lemma CleanUpKeeps(n: Net, c: ConnId, id: Ident)
    requires Sound(n) && Idle(n, c)
    ensures var k, k' := n.conns[c], ClearForLogon(n, c, id).conns[c];
            && KeepsOthers(k, k', id) && k'.out == k.out
            && (if k'.fromList == [] then k'.status == LogonNone && !k'.isAtc else k'.status == k.status && k'.isAtc)
            && ClearForLogon(n, c, id).conns == n.conns[c := k']
            && ClearForLogon(n, c, id).nextKey == n.nextKey
  {
    assert NoDup(n.conns[c].fromList);
    ForgetOuts(n, c, id);
  }

  /** LOGOFF drops the identity named, or on an aircraft's connection all; what is left without one is logged off. */
  lemma LogoffDrops(n: Net, c: ConnId, m: Msg, auth: Auth)
    requires Sound(n) && Idle(n, c) && m.isLogoff
    ensures var k, n' := n.conns[c], ProcessLogon(n, c, m, auth);
            c in n'.conns && var k' := n'.conns[c];
            && KeepsOthers(k, k', m.from) && k'.out == k.out
            && (if k'.fromList == [] then k'.status == LogonNone && !k'.isAtc else k'.status == k.status && k'.isAtc)
  {
    CleanUpKeeps(n, c, m.from);
  }

  /** LOGON asks for the identity and the target it names, in the formats of its options, and does not grant them
      yet. */
  lemma LogonAsks(n: Net, c: ConnId, m: Msg, auth: Auth)
    requires Sound(n) && Idle(n, c) && !m.isLogoff
    ensures var k, n' := n.conns[c], ProcessLogon(n, c, m, auth);
            c in n'.conns && var k' := n'.conns[c];
            && KeepsOthers(k, k', m.from) && k'.out == k.out && k'.logonFrom == m.from && k'.logonTo == m.to
            && (k'.plain <==> m.opts == [] || "PLAIN" in m.opts) && (k'.arinc622 <==> "ARINC622" in m.opts)
            && match auth
               case Remote =>
                 k'.status == Started && k'.authKey == n.nextKey && n'.nextKey == n.nextKey + 1
                 && n.nextKey in n'.sessions && n'.sessions[n.nextKey] == Session(c, false)
               case Local(ok, atc) => k'.status == Completing && k'.logonSuccess == ok && k'.isAtc == atc
  {
    CleanUpKeeps(n, c, m.from);
  }

  // ----- what the authenticator's answer leads to -----

  /** The request for `id` and `target`, answered: it is granted exactly if the answer is yes and an aircraft has
      named a target, and the connection is told so. */
  ghost predicate Answered(n: Net, n': Net, c: ConnId, id: Ident, target: Ident, ok: bool, atc: bool) {
    c in n.conns && c in n'.conns
    && var k, k', granted := n.conns[c], n'.conns[c], ok && (atc || target != "");
       && (k'.status == Complete <==> granted) && (c in Lookup(n'.byFrom, id) <==> granted) && k'.isAtc == atc
       && (if granted then k'.to == target && k'.fromList == k.fromList + [id]
           else k'.status == LogonNone && k'.fromList == k.fromList)
       && k'.out == k.out + [if granted then LogonReply(true) else if ok then ErrorReply(InsuffData, 0)
                             else LogonReply(false)]
       && forall d :: d != c && d in n.conns ==> d in n'.conns && n'.conns[d] == n.conns[d]
  }

  lemma CompleteAnswers(n: Net, c: ConnId)
    requires Sound(n) && c in n.conns && n.conns[c].status == Completing
    ensures var k := n.conns[c];
            Answered(n, CompleteLogon(n, c), c, k.logonFrom, k.logonTo, k.logonSuccess, k.isAtc)
  {
    assert ConnOk(n.conns[c]);
  }

  lemma CompletesNext(cfg: Config, s: State, c: ConnId)
    requires s.phase == Input && c in s.net.conns
    ensures Step(cfg, Step(cfg, s, BeginLogons), CompleteOne(c)).net == CompleteLogon(s.net, c)
  {
  }

  lemma WorkerEnds(cfg: Config, s: State, key: nat, ok: bool, atc: bool)
    requires Sound(s.net) && s.phase == Input && IsLive(s.net, key)
    ensures Step(cfg, s, Worker(key, ok, atc)) == s.(net := WorkerDone(s.net, key, ok, atc))
  {
  }

  lemma LogonEvent(cfg: Config, s: State, c: ConnId, m: Msg, auth: Auth, now: int)
    requires s.phase == Input && c in s.net.conns && m.isLogon
    ensures Step(cfg, s, Receive(c, m, auth, now)) == s.(net := ProcessLogon(s.net, c, m, auth))
  {
  }

  lemma DoneAnswers(n: Net, key: nat, ok: bool, atc: bool, c: ConnId)
    requires Sound(n) && IsLive(n, key) && c == n.sessions[key].conn
    ensures var n1, k := WorkerDone(n, key, ok, atc), n.conns[c];
            c in n1.conns && k.status == Started
            && Answered(n, CompleteLogon(n1, c), c, k.logonFrom, k.logonTo, ok, atc)
  {
    WorkerSound(n, key, ok, atc);
    CompleteAnswers(WorkerDone(n, key, ok, atc), c);
  }

  /** The answer of a worker whose session is live decides its connection's logon, once the main loop completes it. */
  lemma WorkerDecides(cfg: Config, s: State, key: nat, ok: bool, atc: bool, c: ConnId, k: Conn)
    requires Inv(cfg, s) && s.phase == Input && IsLive(s.net, key) && c == s.net.sessions[key].conn
    requires c in s.net.conns && k == s.net.conns[c]
    ensures var s1 := Step(cfg, s, Worker(key, ok, atc));
            var s3 := Step(cfg, Step(cfg, s1, BeginLogons), CompleteOne(c));
            k.status == Started && Answered(s.net, s3.net, c, k.logonFrom, k.logonTo, ok, atc)
  {
    WorkerEnds(cfg, s, key, ok, atc);
    DoneAnswers(s.net, key, ok, atc, c);
    CompletesNext(cfg, s.(net := WorkerDone(s.net, key, ok, atc)), c);
  }

  /** So does the answer of a local authenticator. */
  lemma LocalDecides(cfg: Config, s: State, c: ConnId, m: Msg, ok: bool, atc: bool, now: int)
    requires Inv(cfg, s) && s.phase == Input && Idle(s.net, c) && m.isLogon && !m.isLogoff
    ensures var s1 := Step(cfg, s, Receive(c, m, Local(ok, atc), now));
            var s3 := Step(cfg, Step(cfg, s1, BeginLogons), CompleteOne(c));
            Answered(s1.net, s3.net, c, m.from, m.to, ok, atc)
  {
    var n1 := ProcessLogon(s.net, c, m, Local(ok, atc));
    LogonEvent(cfg, s, c, m, Local(ok, atc), now);
    ProcessLogonSound(s.net, c, m, Local(ok, atc));
    LogonAsks(s.net, c, m, Local(ok, atc));
    CompleteAnswers(n1, c);
    CompletesNext(cfg, s.(net := n1), c);
  }
}
