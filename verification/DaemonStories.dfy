/** What lies behind the state of the daemon: behind a registration, and behind the end of a stored message. */
module DaemonStories {
  import opened Lists
  import opened Wire
  import opened Registry
  import opened MailStore
  import opened Daemon
  import opened DaemonSafety
  import opened DaemonTrace
  import opened DaemonLaws

  // ----- all that can happen to one connection in one event -----

  /** The event is a LOGON or LOGOFF that connection `c` may make. */
  ghost predicate Requests(s: State, e: Event, c: ConnId) {
    s.phase == Input && e.Receive? && e.c == c && (e.m.isLogon || e.m.isLogoff) && Idle(s.net, c)
  }

  /** The event is the end of the worker that authenticates connection `c`. */
  ghost predicate Reports(s: State, e: Event, c: ConnId) {
    s.phase != Aborted && e.Worker? && IsLive(s.net, e.key) && s.net.sessions[e.key].conn == c
  }

  ghost predicate Moves(s: State, e: Event, c: ConnId, k: Conn, k': Conn)
    requires c in s.net.conns
  {
    || ToldOrReset(k, k')
    || (Reports(s, e, c) && k' == LogonDone(k, e.ok, e.atc))
    || (e == CompleteOne(c) && s.phase == Logons && k' == CompleteLogon(s.net, c).conns[c])
    || (Requests(s, e, c) && k' == ProcessLogon(s.net, c, e.m, e.auth).conns[c])
  }

  /** Only the output grows, or else the logon is reset. */
  ghost predicate ToldOrReset(k: Conn, k': Conn) { k' == k.(out := k'.out) || k' == ResetConn(k).(out := k'.out) }

  lemma BroadcastTells(cfg: Config, n: Net, id: Ident, p: Payload, endSvc: bool, c: ConnId)
    requires Sound(n)
    ensures AllOpen(n, Lookup(n.byFrom, id))
    ensures var n' := Broadcast(cfg, n, Lookup(n.byFrom, id), p, endSvc);
            n'.conns.Keys == n.conns.Keys && (c in n.conns ==> ToldOrReset(n.conns[c], n'.conns[c]))
  {
    TargetsOpen(n, id);
    BroadcastSound(cfg, n, Lookup(n.byFrom, id), p, endSvc);
    if c in n.conns { BroadcastConn(cfg, n, Lookup(n.byFrom, id), p, endSvc, c); }
  }

  lemma ForwardTells(cfg: Config, s: State, sender: Sender, m: Msg, now: int, c: ConnId)
    requires Sound(s.net)
    ensures var n' := ForwardMsg(cfg, s, sender, m, now).net;
            n'.conns.Keys == s.net.conns.Keys && (c in s.net.conns ==> ToldOrReset(s.net.conns[c], n'.conns[c]))
  {
    BroadcastTells(cfg, s.net, m.to, Encoded(|s.hist.accepted|, m), IsEndSvc(m), c);
    BroadcastTells(cfg, s.net, m.from, Fixed(ErrorReply(InsuffStorage, m.min)), false, c);
  }

  lemma DrainTells(cfg: Config, s: State, now: int, c: ConnId)
    requires Sound(s.net) && s.phase.Drain? && s.phase.next < |s.store.queue|
    ensures var n' := DrainStep(cfg, s, now).net;
            n'.conns.Keys == s.net.conns.Keys && (c in s.net.conns ==> ToldOrReset(s.net.conns[c], n'.conns[c]))
  {
    var q := s.store.queue[s.phase.next];
    BroadcastTells(cfg, s.net, q.to, Fixed(Delivery(q.ticket, q.to, q.text)), false, c);
  }

  lemma ReceiveMoves(cfg: Config, s: State, e: Event, c: ConnId, p: Plan)
    requires Sound(s.net) && s.phase == Input && e.Receive? && e.c in s.net.conns && p == PlanMsg(s.net, e.c, e.m)
    ensures var n' := ReceiveMsg(cfg, s, e.c, e.m, e.auth, e.now).net;
            n'.conns.Keys == s.net.conns.Keys && (c in s.net.conns ==> Moves(s, e, c, s.net.conns[c], n'.conns[c]))
  {
    if p.Forward? {
      ForwardTells(cfg, s, SenderOf(s.net.conns[e.c]), p.msg, e.now, c);
    } else if p.Logon? {
      PlansLogon(s.net, e.c, e.m);
      LogonOuts(s.net, e.c, e.m, e.auth);
    }
  }

  lemma LogonMoves(cfg: Config, s: State, e: Event, c: ConnId)
    requires Sound(s.net) && (e.Worker? || e.CompleteOne?) && c in Step(cfg, s, e).net.conns
    ensures c in s.net.conns && Moves(s, e, c, s.net.conns[c], Step(cfg, s, e).net.conns[c])
  {
    if e.CompleteOne? && e.c in s.net.conns { CompleteOuts(s.net, e.c); }
  }

  lemma OtherMoves(cfg: Config, s: State, e: Event, c: ConnId)
    requires Sound(s.net) && !e.Receive? && !e.DrainOne? && !e.Worker? && !e.CompleteOne?
    requires c in Step(cfg, s, e).net.conns
    ensures var k' := Step(cfg, s, e).net.conns[c];
            if c in s.net.conns then Moves(s, e, c, s.net.conns[c], k') else k' == FRESH_CONN
  {
  }

  lemma StepMoves(cfg: Config, s: State, e: Event, c: ConnId)
    requires Inv(cfg, s) && c in Step(cfg, s, e).net.conns
    ensures var k' := Step(cfg, s, e).net.conns[c];
            if c in s.net.conns then Moves(s, e, c, s.net.conns[c], k') else k' == FRESH_CONN
  {
    if e.Worker? || e.CompleteOne? {
      LogonMoves(cfg, s, e, c);
    } else if !e.Receive? && !e.DrainOne? {
      OtherMoves(cfg, s, e, c);
    } else if s.phase != Aborted && Enabled(s, e) {
      if e.DrainOne? { DrainTells(cfg, s, e.now, c); } else { ReceiveMoves(cfg, s, e, c, PlanMsg(s.net, e.c, e.m)); }
    }
  }

  // ----- what lies behind a registration -----

  /** Connection `c` waits for the answer of session `key` about `id`. */
  ghost predicate Asks(s: State, c: ConnId, id: Ident, key: nat) {
    c in s.net.conns && var k := s.net.conns[c]; k.status == Started && k.logonFrom == id && k.authKey == key
  }

  /** Connection `c` has a positive answer about `id`. */
  ghost predicate HasYes(s: State, c: ConnId, id: Ident) {
    c in s.net.conns && var k := s.net.conns[c]; k.status == Completing && k.logonSuccess && k.logonFrom == id
  }

  ghost predicate Has(s: State, c: ConnId, id: Ident) { c in s.net.conns && id in s.net.conns[c].fromList }

  /** The event is a LOGON for `id` on `c`, with that authenticator. */
  ghost predicate AsksFor(s: State, e: Event, c: ConnId, id: Ident) {
    Requests(s, e, c) && e.m.isLogon && e.m.from == id
  }

  ghost predicate OpensSession(s: State, e: Event, c: ConnId, id: Ident, key: nat) {
    AsksFor(s, e, c, id) && e.auth.Remote? && s.net.nextKey == key
  }

  /** The event is a positive answer about `id` for `c`. */
  ghost predicate SaysYes(s: State, e: Event, c: ConnId, id: Ident) {
    || (Reports(s, e, c) && e.ok && Asks(s, c, id, e.key))
    || (AsksFor(s, e, c, id) && e.auth.Local? && e.auth.ok)
  }

  ghost predicate Grants(s: State, e: Event, c: ConnId, id: Ident) {
    e == CompleteOne(c) && s.phase == Logons && HasYes(s, c, id)
        && (s.net.conns[c].isAtc || s.net.conns[c].logonTo != "")
  }

  /** What a LOGON or LOGOFF can lead to. */
  lemma RequestLeads(s: State, e: Event, c: ConnId, id: Ident, key: nat)
    requires Sound(s.net) && Requests(s, e, c)
    ensures var k, k' := s.net.conns[c], ProcessLogon(s.net, c, e.m, e.auth).conns[c];
            && (id in k'.fromList ==> id in k.fromList)
            && (k'.status == Completing && k'.logonSuccess && k'.logonFrom == id ==> SaysYes(s, e, c, id))
            && (k'.status == Started && k'.logonFrom == id && k'.authKey == key ==> OpensSession(s, e, c, id, key))
  {
    if e.m.isLogoff { LogoffDrops(s.net, c, e.m, e.auth); } else { LogonAsks(s.net, c, e.m, e.auth); }
  }

  lemma CompletionLeads(s: State, e: Event, c: ConnId, id: Ident)
    requires c in s.net.conns && e == CompleteOne(c) && s.phase == Logons
    ensures var k, k' := s.net.conns[c], CompleteLogon(s.net, c).conns[c];
            && (id in k'.fromList ==> id in k.fromList || Grants(s, e, c, id))
            && k'.status != Completing && (k'.status == Started ==> k' == k)
  {
  }

  lemma MoveLeads(s: State, e: Event, c: ConnId, k: Conn, k': Conn, id: Ident, key: nat)
    requires Sound(s.net) && c in s.net.conns && k == s.net.conns[c] && Moves(s, e, c, k, k')
    ensures id in k'.fromList ==> id in k.fromList || Grants(s, e, c, id)
    ensures k'.status == Completing && k'.logonSuccess && k'.logonFrom == id ==>
              HasYes(s, c, id) || SaysYes(s, e, c, id)
    ensures k'.status == Started && k'.logonFrom == id && k'.authKey == key ==>
              Asks(s, c, id, key) || OpensSession(s, e, c, id, key)
  {
    if Requests(s, e, c) { RequestLeads(s, e, c, id, key); }
    else if e == CompleteOne(c) && s.phase == Logons { CompletionLeads(s, e, c, id); }
  }

  lemma StepLeads(cfg: Config, s: State, e: Event, c: ConnId, id: Ident, key: nat)
    requires Inv(cfg, s)
    ensures var s' := Step(cfg, s, e);
            && (Has(s', c, id) ==> Has(s, c, id) || Grants(s, e, c, id))
            && (HasYes(s', c, id) ==> HasYes(s, c, id) || SaysYes(s, e, c, id))
            && (Asks(s', c, id, key) ==> Asks(s, c, id, key) || OpensSession(s, e, c, id, key))
  {
    var s' := Step(cfg, s, e);
    if c in s'.net.conns {
      StepMoves(cfg, s, e, c);
      if c in s.net.conns { MoveLeads(s, e, c, s.net.conns[c], s'.net.conns[c], id, key); }
    }
  }

  /** In a run, what one event leads to: `p` is a property of states, `q` of the events that bring it about. */
  type StateTest = State -> bool
  type EventTest = (State, Event) -> bool

  ghost predicate BroughtBy(cfg: Config, p: StateTest, q: EventTest) {
    !p(INIT) && forall s: State, e: Event :: Inv(cfg, s) && p(Step(cfg, s, e)) ==> p(s) || q(s, e)
  }

  lemma BroughtNext(cfg: Config, es: seq<Event>, p: StateTest, q: EventTest, i: nat)
    requires i < |es| && BroughtBy(cfg, p, q) && p(StateAt(cfg, es, i + 1))
    ensures p(StateAt(cfg, es, i)) || q(StateAt(cfg, es, i), es[i])
  {
    StateInv(cfg, es, i);
    StateNext(cfg, es, i);
  }

  lemma StartState(cfg: Config, es: seq<Event>)
    ensures StateAt(cfg, es, 0) == INIT
  {
    assert es[..0] == [];
  }

  /** What only certain events bring about has such an event behind it, since which it has lasted. */
  lemma BroughtSince(cfg: Config, es: seq<Event>, p: StateTest, q: EventTest, n: nat) returns (j: nat)
    requires n <= |es| && BroughtBy(cfg, p, q) && p(StateAt(cfg, es, n))
    ensures j < n && q(StateAt(cfg, es, j), es[j]) && forall i: nat :: j < i <= n ==> p(StateAt(cfg, es, i))
  {
    var pAt := (i: nat) => i <= |es| && p(StateAt(cfg, es, i));
    var qAt := (i: nat) => i < |es| && q(StateAt(cfg, es, i), es[i]);
    StartState(cfg, es);
    forall i: nat | i < n && pAt(i + 1) ensures pAt(i) || qAt(i) { BroughtNext(cfg, es, p, q, i); }
    j := Since(pAt, qAt, n);
    assert forall i: nat :: pAt(i) ==> p(StateAt(cfg, es, i));
  }

  /** The story behind a registration, in every run: a LOGON for the identity on this connection (`i`), a positive
      answer to it (`j`), from the session it opened or at once, and its completion (`k`). From the LOGON to the
      answer the connection waits, from the answer to the completion it has that answer, and ever since it has the
      identity. */
  lemma RegistrationStory(cfg: Config, es: seq<Event>, c: ConnId, id: Ident) returns (i: nat, j: nat, k: nat)
    requires c in Lookup(StateAt(cfg, es, |es|).net.byFrom, id)
    ensures i <= j < k < |es|
    ensures Grants(StateAt(cfg, es, k), es[k], c, id)
            && forall x: nat :: k < x <= |es| ==> Has(StateAt(cfg, es, x), c, id)
    ensures SaysYes(StateAt(cfg, es, j), es[j], c, id)
            && forall x: nat :: j < x <= k ==> HasYes(StateAt(cfg, es, x), c, id)
    ensures AsksFor(StateAt(cfg, es, i), es[i], c, id)
    ensures if es[j].Worker? then
              && OpensSession(StateAt(cfg, es, i), es[i], c, id, es[j].key)
              && forall x: nat :: i < x <= j ==> Asks(StateAt(cfg, es, x), c, id, es[j].key)
            else i == j
  {
    StateInv(cfg, es, |es|);
    k := HasSince(cfg, es, c, id, |es|);
    j := YesSince(cfg, es, c, id, k);
    if es[j].Worker? { i := AsksSince(cfg, es, c, id, es[j].key, j); } else { i := j; }
  }

  lemma HasSince(cfg: Config, es: seq<Event>, c: ConnId, id: Ident, n: nat) returns (j: nat)
    requires n <= |es| && Has(StateAt(cfg, es, n), c, id)
    ensures j < n && Grants(StateAt(cfg, es, j), es[j], c, id)
            && forall x: nat :: j < x <= n ==> Has(StateAt(cfg, es, x), c, id)
  {
    var p: StateTest, q: EventTest := (s: State) => Has(s, c, id), (s: State, e: Event) => Grants(s, e, c, id);
    forall s: State, e: Event | Inv(cfg, s) && p(Step(cfg, s, e)) ensures p(s) || q(s, e) {
      StepLeads(cfg, s, e, c, id, 0);
    }
    j := BroughtSince(cfg, es, p, q, n);
    assert forall s :: p(s) <==> Has(s, c, id);
  }

  lemma YesSince(cfg: Config, es: seq<Event>, c: ConnId, id: Ident, n: nat) returns (j: nat)
    requires n <= |es| && HasYes(StateAt(cfg, es, n), c, id)
    ensures j < n && SaysYes(StateAt(cfg, es, j), es[j], c, id)
            && forall x: nat :: j < x <= n ==> HasYes(StateAt(cfg, es, x), c, id)
  {
    var p: StateTest, q: EventTest := (s: State) => HasYes(s, c, id), (s: State, e: Event) => SaysYes(s, e, c, id);
    forall s: State, e: Event | Inv(cfg, s) && p(Step(cfg, s, e)) ensures p(s) || q(s, e) {
      StepLeads(cfg, s, e, c, id, 0);
    }
    j := BroughtSince(cfg, es, p, q, n);
    assert forall s :: p(s) <==> HasYes(s, c, id);
  }

  lemma AsksSince(cfg: Config, es: seq<Event>, c: ConnId, id: Ident, key: nat, n: nat) returns (j: nat)
    requires n <= |es| && Asks(StateAt(cfg, es, n), c, id, key)
    ensures j < n && OpensSession(StateAt(cfg, es, j), es[j], c, id, key)
            && forall x: nat :: j < x <= n ==> Asks(StateAt(cfg, es, x), c, id, key)
  {
    var p: StateTest := (s: State) => Asks(s, c, id, key);
    var q: EventTest := (s: State, e: Event) => OpensSession(s, e, c, id, key);
    forall s: State, e: Event | Inv(cfg, s) && p(Step(cfg, s, e)) ensures p(s) || q(s, e) {
      StepLeads(cfg, s, e, c, id, key);
    }
    j := BroughtSince(cfg, es, p, q, n);
    assert forall s :: p(s) <==> Asks(s, c, id, key);
  }

  // ----- what lies behind an expired message -----

  ghost predicate InStore(s: State, q: Queued) { q in s.store.queue }

  /** The event accepts the message that is stored as `q`. */
  ghost predicate Stores(s: State, e: Event, q: Queued) {
    s.phase == Input && e.Receive? && q.created == e.now && q.ticket == |s.hist.accepted|
  }

  /** The event drops message `t`: nobody is registered for it, and it was stored more than ten minutes ago as `q`. */
  ghost predicate Drops(s: State, e: Event, q: Queued) {
    && s.phase.Drain? && e.DrainOne? && s.phase.next < |s.store.queue| && q == s.store.queue[s.phase.next]
    && !Registered(s.net, q.to) && e.now - q.created > 600
  }

  lemma ReceiveStores(cfg: Config, s: State, e: Event, q: Queued)
    requires Inv(cfg, s) && s.phase == Input && e.Receive? && e.c in s.net.conns
    ensures var s' := ReceiveMsg(cfg, s, e.c, e.m, e.auth, e.now);
            (InStore(s', q) ==> InStore(s, q) || Stores(s, e, q)) && s'.hist.fate == s.hist.fate
  {
    var p := PlanMsg(s.net, e.c, e.m);
    if p.Forward? { ForwardOutcome(cfg, s, SenderOf(s.net.conns[e.c]), p.msg, e.now); }
  }

  lemma DrainStores(cfg: Config, s: State, e: Event, q: Queued, t: nat)
    requires Inv(cfg, s) && s.phase.Drain? && s.phase.next < |s.store.queue| && e.DrainOne?
    ensures var s' := DrainStep(cfg, s, e.now);
            && (InStore(s', q) ==> InStore(s, q))
            && (HasFate(s'.hist, t, Fate.Expired) ==>
                  HasFate(s.hist, t, Fate.Expired) || DropsIt(s, e, t))
  {
    var x := s.store.queue[s.phase.next];
    TargetsOpen(s.net, x.to);
    if HasFate(DrainStep(cfg, s, e.now).hist, t, Fate.Expired) && !HasFate(s.hist, t, Fate.Expired) {
      assert Drops(s, e, x) && x.ticket == t;
    }
  }

  ghost predicate DropsIt(s: State, e: Event, t: nat) { exists q: Queued :: Drops(s, e, q) && q.ticket == t }

  lemma StepStores(cfg: Config, s: State, e: Event, q: Queued, t: nat)
    requires Inv(cfg, s)
    ensures var s' := Step(cfg, s, e);
            && (InStore(s', q) ==> InStore(s, q) || Stores(s, e, q))
            && (HasFate(s'.hist, t, Fate.Expired) ==> HasFate(s.hist, t, Fate.Expired) || DropsIt(s, e, t))
  {
    if s.phase != Aborted && Enabled(s, e) {
      if e.Receive? { ReceiveStores(cfg, s, e, q); }
      else if e.DrainOne? { DrainStores(cfg, s, e, q, t); }
    }
  }

  lemma StoreSince(cfg: Config, es: seq<Event>, x: Queued, n: nat) returns (j: nat)
    requires n <= |es| && InStore(StateAt(cfg, es, n), x)
    ensures j < n && Stores(StateAt(cfg, es, j), es[j], x)
            && forall i: nat :: j < i <= n ==> InStore(StateAt(cfg, es, i), x)
  {
    var p: StateTest, q: EventTest := (s: State) => InStore(s, x), (s: State, e: Event) => Stores(s, e, x);
    forall s: State, e: Event | Inv(cfg, s) && p(Step(cfg, s, e)) ensures p(s) || q(s, e) {
      StepStores(cfg, s, e, x, 0);
    }
    j := BroughtSince(cfg, es, p, q, n);
    assert forall s :: p(s) <==> InStore(s, x);
  }

  lemma ExpiredSince(cfg: Config, es: seq<Event>, t: nat, x: Queued) returns (j: nat)
    requires HasFate(StateAt(cfg, es, |es|).hist, t, Fate.Expired)
    ensures j < |es| && DropsIt(StateAt(cfg, es, j), es[j], t)
  {
    var p: StateTest := (s: State) => HasFate(s.hist, t, Fate.Expired);
    var q: EventTest := (s: State, e: Event) => DropsIt(s, e, t);
    forall s: State, e: Event | Inv(cfg, s) && p(Step(cfg, s, e)) ensures p(s) || q(s, e) {
      StepStores(cfg, s, e, x, t);
    }
    j := BroughtSince(cfg, es, p, q, |es|);
  }

  /** The story behind an expired message, in every run: it was accepted by event `i`, was in the store ever since, and
      was dropped by event `j`, more than ten minutes later and with nobody registered for its recipient. */
  lemma ExpiryStory(cfg: Config, es: seq<Event>, t: nat) returns (i: nat, j: nat, q: Queued)
    requires HasFate(StateAt(cfg, es, |es|).hist, t, Fate.Expired)
    ensures i < j < |es| && es[i].Receive? && |StateAt(cfg, es, i).hist.accepted| == t == q.ticket
    ensures forall x: nat :: i < x <= j ==> InStore(StateAt(cfg, es, x), q)
    ensures es[j].DrainOne? && es[j].now - es[i].now > 600
    ensures var s := StateAt(cfg, es, j);
            t < |s.hist.accepted| && !Registered(s.net, s.hist.accepted[t].msg.to)
  {
    q := Queued("", "", false, 0, "", 0);
    j := ExpiredSince(cfg, es, t, q);
    var s := StateAt(cfg, es, j);
    q :| Drops(s, es[j], q) && q.ticket == t;
    StateInv(cfg, es, j);
    assert EntryOk(cfg, s.hist, q);
    i := StoreSince(cfg, es, q, j);
  }
}
