/**
 The daemon as a state machine. One event is one critical section; auth workers finish and
 connections open or close between any two of them. The main loop is the cycle
 Input -> Logons -> Drain -> Input. The RPC router is off, so forwarding is synchronous.
 */
module Daemon {
  import opened Wire
  import opened Registry
  import opened MailStore

  /** `encode` is the message encoder; the daemon only relies on it never printing nothing. */
  datatype Config = Config(limits: Limits, encode: Msg -> string)

  ghost predicate GoodConfig(cfg: Config) {
    forall m :: |cfg.encode(m)| > 0
  }

  /** Who sent a message, as its connection stood when the message was accepted. */
  datatype Sender = Sender(isAtc: bool, ident: Ident, to: Ident)

  datatype Accepted = Accepted(msg: Msg, sender: Sender, direct: bool)

  datatype Fate = Delivered | Expired

  /** History: every accepted message, how each stored one left, and for each identity
      one past the last ticket delivered to it. The daemon itself keeps none of this. */
  datatype Hist = Hist(accepted: seq<Accepted>, fate: map<nat, Fate>, mark: map<Ident, nat>)

  /** `Aborted` is a failed assertion. */
  datatype Phase = Input | Logons | Drain(next: nat) | Aborted

  datatype State = State(net: Net, store: Store, hist: Hist, phase: Phase)

  const INIT := State(EMPTY_NET, EMPTY_STORE, Hist([], map[], map[]), Input)

  // ----- conn_process_msg: what to do with one incoming message -----

  datatype Plan =
    | Drop
    | Answer(o: Out)
    | Logon
    | Forward(msg: Msg)
    | AssertFails

  predicate AllOpen(n: Net, cs: seq<ConnId>) {
    forall i :: 0 <= i < |cs| ==> cs[i] in n.conns
  }

  /** The sender stamp and the router's TO stamp. */
  function Stamp(k: Conn, m: Msg, to: Ident): Plan {
    if k.fromList == [] then AssertFails
    else if m.from == "" || !k.isAtc then Forward(m.(from := k.fromList[0], to := to))
    else Forward(m.(to := to))
  }

  /** Direction checks and FROM=AUTO, once the target is known. */
  function PlanDirected(n: Net, k: Conn, m: Msg, to: Ident): Plan {
    if m.segs == [] then AssertFails
    else if k.isAtc && m.segs[0].isDl then Answer(ErrorReply(AppError, m.min))
    else if k.isAtc && m.from == "AUTO" then
      var l := Lookup(n.byFrom, to);
      if l == [] then Answer(ErrorReply(AppError, m.min))
      else if l[|l| - 1] !in n.conns then AssertFails
      else Stamp(k, m.(from := n.conns[l[|l| - 1]].to), to)
    else if !k.isAtc && !m.segs[0].isDl then Answer(SvcUnavail(m.min))
    else Stamp(k, m, to)
  }

  /** The target: the message's own, or else the one of the logon. */
  function PlanAddressed(n: Net, k: Conn, m: Msg): Plan {
    if m.to != "" then
      if !k.isAtc && m.to != k.to && !IsNotCda(m) then
        if m.segs == [] then AssertFails else Answer(ErrorReply(UnexpctData, m.min))
      else PlanDirected(n, k, m, m.to)
    else if k.to != "" then PlanDirected(n, k, m.(to := k.to), k.to)
    else Answer(ErrorReply(InsuffData, m.min))
  }

  function PlanMsg(n: Net, c: ConnId, m: Msg): Plan
    requires c in n.conns
  {
    var k := n.conns[c];
    if k.status != Complete && !m.isLogon then
      if m.isLogoff then Drop else Answer(ErrorReply(AppError, m.min))
    else if m.isLogon || m.isLogoff then Logon
    else if m.pkt == Ping then Answer(PongReply(m.min))
    else if !k.isAtc && |m.segs| == 1 && m.segs[0].msgType == DM73_VERSION then Drop
    else PlanAddressed(n, k, m)
  }

  // ----- output -----

  /** What a broadcast appends: a fixed item, or a message encoded in each receiver's own format. */
  datatype Payload = Fixed(o: Out) | Encoded(ticket: nat, m: Msg)

  function InFormat(m: Msg, plain: bool, arinc622: bool): Msg {
    m.(plain := plain, arinc622 := arinc622)
  }

  function Render(cfg: Config, p: Payload, k: Conn): Out {
    match p
    case Fixed(o) => o
    case Encoded(ticket, m) => Delivery(ticket, m.to, cfg.encode(InFormat(m, k.plain, k.arinc622)))
  }

  /** The delivery loops; `endSvc` is the logon reset of `conn_send_msg` after an END SERVICE. */
  function Broadcast(cfg: Config, n: Net, targets: seq<ConnId>, p: Payload, endSvc: bool): Net
    requires AllOpen(n, targets)
    decreases |targets|
  {
    if targets == [] then n
    else
      var c := targets[0];
      assert c in n.conns;
      var n1 := Send(n, c, Render(cfg, p, n.conns[c]));
      var n2 := if endSvc then ResetLogon(n1, c) else n1;
      assert AllOpen(n2, targets[1..]) by {
        forall i | 0 <= i < |targets[1..]| ensures targets[1..][i] in n2.conns { assert targets[i + 1] in n.conns; }
      }
      Broadcast(cfg, n2, targets[1..], p, endSvc)
  }

  // ----- events -----

  function MarkOf(h: Hist, id: Ident): nat {
    if id in h.mark then h.mark[id] else 0
  }

  function NoteDirect(h: Hist, m: Msg, sender: Sender): Hist {
    h.(accepted := h.accepted + [Accepted(m, sender, true)], mark := h.mark[m.to := |h.accepted| + 1])
  }

  function NoteStored(h: Hist, m: Msg, sender: Sender): Hist {
    h.(accepted := h.accepted + [Accepted(m, sender, false)])
  }

  function NoteDelivered(h: Hist, e: Queued): Hist {
    h.(fate := h.fate[e.ticket := Delivered], mark := h.mark[e.to := e.ticket + 1])
  }

  function NoteExpired(h: Hist, e: Queued): Hist {
    h.(fate := h.fate[e.ticket := Expired])
  }

  function SenderOf(k: Conn): Sender
  {
    Sender(k.isAtc, if k.fromList == [] then "" else k.fromList[0], k.to)
  }

  /** `forward_msg_cb`: to the recipient's connections if there are any, else into the store. */
  ghost function ForwardMsg(cfg: Config, s: State, sender: Sender, m: Msg, now: int): State {
    var targets := Lookup(s.net.byFrom, m.to);
    var ticket := |s.hist.accepted|;
    if targets != [] then
      if !AllOpen(s.net, targets) then s.(phase := Aborted)
      else
        s.(net := Broadcast(cfg, s.net, targets, Encoded(ticket, m), IsEndSvc(m)),
           hist := NoteDirect(s.hist, m, sender))
    else
      var r := StoreMsg(cfg.limits, s.store, Queued(m.from, m.to, false, now, cfg.encode(m), ticket));
      if r.ok then
        s.(store := r.store, hist := NoteStored(s.hist, m, sender))
      else
        var back := Lookup(s.net.byFrom, m.from);
        if !AllOpen(s.net, back) then s.(phase := Aborted)
        else s.(store := r.store, net := Broadcast(cfg, s.net, back, Fixed(ErrorReply(InsuffStorage, m.min)), false))
  }

  ghost function ReceiveMsg(cfg: Config, s: State, c: ConnId, m: Msg, auth: Auth, now: int): State
    requires c in s.net.conns
  {
    match PlanMsg(s.net, c, m)
    case Drop => s
    case Answer(o) => s.(net := Send(s.net, c, o))
    case Logon => s.(net := ProcessLogon(s.net, c, m, auth))
    case Forward(m') => ForwardMsg(cfg, s, SenderOf(s.net.conns[c]), m', now)
    case AssertFails => s.(phase := Aborted)
  }

  /** The three assertions of the removal path. */
  predicate CanDequeue(st: Store, i: nat) {
    && i < |st.queue| && |st.queue[i].text| <= st.bytes
    && (st.queue[i].isAtc || |st.queue[i].text| <= QuotaOf(st.quota, st.queue[i].from))
  }

  /** One turn of the loop in `handle_queued_msgs`. */
  ghost function DrainStep(cfg: Config, s: State, now: int): State
    requires s.phase.Drain? && s.phase.next < |s.store.queue|
  {
    var i := s.phase.next;
    var e := s.store.queue[i];
    var targets := Lookup(s.net.byFrom, e.to);
    if targets != [] then
      if !AllOpen(s.net, targets) || !CanDequeue(s.store, i) then s.(phase := Aborted)
      else
        State(Broadcast(cfg, s.net, targets, Fixed(Delivery(e.ticket, e.to, e.text)), false), Dequeue(s.store, i),
              NoteDelivered(s.hist, e), s.phase)
    else if now - e.created > QUEUED_MSG_TIMEOUT then
      if !CanDequeue(s.store, i) then s.(phase := Aborted)
      else s.(store := Dequeue(s.store, i), hist := NoteExpired(s.hist, e))
    else s.(phase := Drain(i + 1))
  }

  datatype Event =
    | Open(c: ConnId)
    | Close(c: ConnId)
    | Receive(c: ConnId, m: Msg, auth: Auth, now: int)
    | Worker(key: nat, ok: bool, atc: bool)
    | BeginLogons
    | CompleteOne(c: ConnId)
    | BeginDrain
    | DrainOne(now: int)
    | EndDrain

  ghost predicate Enabled(s: State, e: Event) {
    match e
    case Open(c) => c !in s.net.conns
    case Close(c) => c in s.net.conns
    case Receive(c, _, _, _) => s.phase == Input && c in s.net.conns
    case Worker(key, _, _) => key in s.net.sessions
        && (s.net.sessions[key].kill || s.net.sessions[key].conn in s.net.conns)
    case BeginLogons => s.phase == Input
    case CompleteOne(c) => s.phase == Logons && c in s.net.conns
    case BeginDrain => s.phase == Logons
    case DrainOne(_) => s.phase.Drain? && s.phase.next < |s.store.queue|
    case EndDrain => s.phase.Drain? && s.phase.next >= |s.store.queue|
  }

  /** An event that is not enabled, or that comes after an abort, changes nothing. */
  ghost function Step(cfg: Config, s: State, e: Event): State {
    if s.phase == Aborted || !Enabled(s, e) then s
    else match e
      case Open(c) => s.(net := OpenConn(s.net, c))
      case Close(c) => s.(net := CloseConn(s.net, c))
      case Receive(c, m, auth, now) => ReceiveMsg(cfg, s, c, m, auth, now)
      case Worker(key, ok, atc) => s.(net := WorkerDone(s.net, key, ok, atc))
      case BeginLogons => s.(phase := Logons)
      case CompleteOne(c) => s.(net := CompleteLogon(s.net, c))
      case BeginDrain => s.(phase := Drain(0))
      case DrainOne(now) => DrainStep(cfg, s, now)
      case EndDrain => s.(phase := Input)
  }

  ghost function Run(cfg: Config, s: State, es: seq<Event>): State
    decreases |es|
  {
    if es == [] then s else Run(cfg, Step(cfg, s, es[0]), es[1..])
  }

  // ----- invariants over messages -----

  ghost predicate IsEncodingOf(cfg: Config, text: string, m: Msg) {
    exists plain, arinc622 :: text == cfg.encode(InFormat(m, plain, arinc622))
  }

  ghost predicate DeliveryOk(cfg: Config, h: Hist, o: Out)
    requires o.Delivery?
  {
    o.ticket < |h.accepted| && o.ticket < MarkOf(h, o.to)
    && h.accepted[o.ticket].msg.to == o.to && IsEncodingOf(cfg, o.text, h.accepted[o.ticket].msg)
  }

  /** Deliveries to one identity appear in acceptance order, each an encoding of the accepted message. */
  ghost predicate OutOk(cfg: Config, h: Hist, out: seq<Out>) {
    && (forall k :: 0 <= k < |out| && out[k].Delivery? ==> DeliveryOk(cfg, h, out[k]))
    && (forall i, j :: 0 <= i < j < |out| && out[i].Delivery? && out[j].Delivery? && out[i].to == out[j].to
          ==> out[i].ticket < out[j].ticket)
  }

  ghost predicate OutsOk(cfg: Config, h: Hist, n: Net) {
    forall c :: c in n.conns ==> OutOk(cfg, h, n.conns[c].out)
  }

  ghost predicate EntryOk(cfg: Config, h: Hist, e: Queued) {
    e.ticket < |h.accepted| && e.ticket !in h.fate && MarkOf(h, e.to) <= e.ticket
    && var a := h.accepted[e.ticket];
       !a.direct && !e.isAtc && a.msg.to == e.to && a.msg.from == e.from && e.text == cfg.encode(a.msg)
  }

  ghost predicate QueueOk(cfg: Config, h: Hist, q: seq<Queued>) {
    && (forall i :: 0 <= i < |q| ==> EntryOk(cfg, h, q[i]))
    && (forall i, j :: 0 <= i < j < |q| ==> q[i].ticket < q[j].ticket)
  }

  ghost predicate InQueue(q: seq<Queued>, t: nat) {
    exists i :: 0 <= i < |q| && q[i].ticket == t
  }

  /** Every stored message is still queued or has left, never both. */
  ghost predicate FatesOk(h: Hist, q: seq<Queued>) {
    && (forall t :: t in h.fate ==> t < |h.accepted| && !h.accepted[t].direct)
    && (forall t :: 0 <= t < |h.accepted| && !h.accepted[t].direct && t !in h.fate ==> InQueue(q, t))
  }

  ghost predicate MarksOk(h: Hist) {
    forall id :: MarkOf(h, id) <= |h.accepted|
  }

  ghost predicate Registered(n: Net, id: Ident) {
    Lookup(n.byFrom, id) != []
  }

  /** No queued message before position `k` names a registered identity. */
  ghost predicate Settled(n: Net, q: seq<Queued>, k: nat) {
    k <= |q| && forall i :: 0 <= i < k ==> !Registered(n, q[i].to)
  }

  /** The key invariant: only between `complete_logons` and the end of the drain may the queue
      hold a message for a registered identity. */
  ghost predicate PhaseOk(s: State) {
    match s.phase
    case Input => Settled(s.net, s.store.queue, |s.store.queue|)
    case Drain(k) => Settled(s.net, s.store.queue, k)
    case Logons => true
    case Aborted => true
  }

  /** Aircraft send downlinks as themselves to their logon target (or a lone DM63 to anyone);
      ATC sends uplinks to a named target. */
  ghost predicate Disciplined(a: Accepted) {
    a.msg.segs != [] && a.msg.to != ""
    && if a.sender.isAtc then !a.msg.segs[0].isDl
       else a.msg.segs[0].isDl && a.msg.from == a.sender.ident && (a.msg.to == a.sender.to || IsNotCda(a.msg))
  }

  ghost predicate AllDisciplined(h: Hist) {
    forall t :: 0 <= t < |h.accepted| ==> Disciplined(h.accepted[t])
  }

  ghost predicate MailOk(cfg: Config, h: Hist, q: seq<Queued>) {
    QueueOk(cfg, h, q) && FatesOk(h, q) && MarksOk(h) && AllDisciplined(h)
  }

  ghost predicate Inv(cfg: Config, s: State) {
    && Sound(s.net) && Balanced(cfg.limits, s.store)
    && OutsOk(cfg, s.hist, s.net) && MailOk(cfg, s.hist, s.store.queue) && PhaseOk(s)
  }
}
