/**
 Message threads: MIN/MRN correlation, the thread status machine and timeouts.
 Counters are unbounded here; in the program they are 32-bit.
 */
module Threads {
  import opened Options

  datatype Resp = WU | AN | R | NE | Y | N

  /** A segment with the attributes of its message-table row. */
  datatype Seg = Seg(isDl: bool, msgType: nat, resp: Resp, timeout: nat)

  /** `mrn` is None for CPDLC_INVALID_MSG_SEQ_NR. */
  datatype Msg = Msg(min: nat, mrn: Option<nat>, segs: seq<Seg>)

  datatype Status =
    | Open | Closed | Accepted | Rejected | TimedOut | Standby
    | Failed | Pending | Disregard | Error | ConnEnded

  datatype Bucket = Bucket(msg: Msg, sent: bool, time: int)

  /** `timeouts` counts the timeout errors the thread has emitted; it is history only. */
  datatype Thread = Thread(id: nat, status: Status, buckets: seq<Bucket>, dirty: bool, reviewed: bool, timeouts: nat)

  /** One sent message, where it sits, and the message its MRN was taken from. History only. */
  datatype Entry = Entry(msg: Msg, thr: nat, pos: nat, answers: Option<Msg>)

  /** `threads[0]` is the newest thread. `log[k]` is the message sent with MIN `k`. */
  datatype List = List(threads: seq<Thread>, min: nat, nextId: nat, log: seq<Entry>)

  const EMPTY := List([], 0, 0, [])

  datatype SendState = Sending | SendFailed | SentOrUnknown

  /** What the list asks of clock and client: `sending` is the send status of the message with that MIN. */
  datatype Env = Env(now: int, isAtc: bool, online: bool, sending: nat -> SendState)

  // ----- message predicates, on the first segment -----

  predicate Is(m: Msg, dl: bool, msgType: nat) {
    m.segs != [] && m.segs[0].isDl == dl && m.segs[0].msgType == msgType
  }

  predicate IsDlReq(m: Msg) {
    m.segs != [] && m.segs[0].isDl
    && var t := m.segs[0].msgType; 6 <= t <= 27 || 49 <= t <= 54 || t == 70 || t == 71
  }

  predicate ReqResp(m: Msg) {
    exists i :: 0 <= i < |m.segs| && m.segs[i].resp != N && m.segs[i].resp != NE
  }

  predicate IsStandby(m: Msg) { Is(m, true, 2) || Is(m, false, 1) }

  predicate IsAccept(m: Msg) { Is(m, true, 0) || Is(m, true, 4) || Is(m, false, 4) }

  predicate IsReject(m: Msg) {
    Is(m, true, 1) || Is(m, true, 5) || Is(m, true, 62) || Is(m, false, 0) || Is(m, false, 5) || Is(m, false, 159)
  }

  predicate IsErrorMsg(m: Msg) { Is(m, true, 62) || Is(m, false, 159) }

  predicate IsRoger(m: Msg) { Is(m, true, 3) || Is(m, false, 3) }

  predicate IsLinkMgmt(m: Msg) { Is(m, false, 161) || Is(m, false, 160) }

  predicate IsDisregard(m: Msg) { Is(m, false, 168) }

  predicate IsDl(m: Msg) { m.segs != [] && m.segs[0].isDl }

  predicate IsFinal(st: Status) {
    st == Closed || st == Accepted || st == Rejected || st == TimedOut
    || st == Disregard || st == Failed || st == Error || st == ConnEnded
  }

  // ----- timeout: the least non-zero timeout of any segment in the thread, 0 if there is none -----

  function LessTimeout(a: nat, b: nat): nat {
    if a == 0 then b else if b == 0 then a else if b < a then b else a
  }

  function SegsTimeout(segs: seq<Seg>): nat {
    if segs == [] then 0 else LessTimeout(segs[0].timeout, SegsTimeout(segs[1..]))
  }

  function BucketsTimeout(bs: seq<Bucket>): nat {
    if bs == [] then 0 else LessTimeout(SegsTimeout(bs[0].msg.segs), BucketsTimeout(bs[1..]))
  }

  const UINT32_MAX := 0xffff_ffff

  /** The thread's timeout; the code's own mark for "none" is the largest 32-bit number. */
  function ThreadTimeout(bs: seq<Bucket>): nat {
    if BucketsTimeout(bs) < UINT32_MAX then BucketsTimeout(bs) else 0
  }

  // ----- sending -----

  /** The newest bucket of the opposite direction. */
  function LatestOpposite(bs: seq<Bucket>, dl: bool): Option<Msg> {
    if bs == [] then None
    else if IsDl(bs[|bs| - 1].msg) != dl then Some(bs[|bs| - 1].msg)
    else LatestOpposite(bs[..|bs| - 1], dl)
  }

  /** The message as `msglist_send_impl` stamps it when it joins `bs`. */
  function Stamped(bs: seq<Bucket>, m: Msg, min: nat): Msg {
    var q := LatestOpposite(bs, IsDl(m));
    m.(min := min, mrn := if q.Some? then Some(q.value.min) else m.mrn)
  }

  datatype Sent = Sent(thr: Thread, entry: Entry)

  function Emit(t: Thread, m: Msg, min: nat, now: int): Sent {
    var m' := Stamped(t.buckets, m, min);
    Sent(t.(buckets := t.buckets + [Bucket(m', true, now)]),
         Entry(m', t.id, |t.buckets|, LatestOpposite(t.buckets, IsDl(m))))
  }

  function TimeoutError(last: Msg): Msg {
    Msg(0, Some(last.min), [Seg(true, 62, N, 0)])
  }

  // ----- status -----

  datatype Updated = Updated(thr: Thread, sent: Option<Entry>)

  predicate TimesOut(env: Env, t: Thread)
    requires t.buckets != []
  {
    var timeout := ThreadTimeout(t.buckets);
    t.status != Standby && timeout != 0 && env.now - t.buckets[|t.buckets| - 1].time > timeout
  }

  datatype Verdict = Keep | Become(st: Status, clear: bool) | Expire

  /** The cascade of `thr_status_upd` on a thread that is not finished. */
  function Judge(env: Env, t: Thread): Verdict
    requires t.buckets != []
  {
    var last := t.buckets[|t.buckets| - 1];
    if |t.buckets| == 1 && !ReqResp(last.msg) then Become(Closed, false)
    else if last.sent && !env.isAtc && IsDlReq(last.msg) then
      match env.sending(last.msg.min)
      case Sending => Become(Pending, false)
      case SendFailed => Become(Failed, false)
      case SentOrUnknown => Become(Open, false)
    else if IsStandby(last.msg) then Become(Standby, false)
    else if IsAccept(last.msg) then Become(Accepted, false)
    else if TimesOut(env, t) then Expire
    else if IsReject(last.msg) then Become(Rejected, false)
    else if IsRoger(last.msg) || IsLinkMgmt(last.msg) then Become(Closed, false)
    else if IsDisregard(last.msg) then Become(Disregard, false)
    else if IsErrorMsg(last.msg) then Become(Error, true)
    else if !env.online then Become(ConnEnded, true)
    else Keep
  }

  /** `thr_status_upd`; `min` is the next MIN, used if a timeout error has to be sent. */
  function StatusUpd(env: Env, t: Thread, min: nat): Updated
    requires t.buckets != []
  {
    if IsFinal(t.status) then Updated(t, None)
    else match Judge(env, t)
      case Keep => Updated(t, None)
      case Become(st, clear) => Updated(t.(status := st, dirty := t.dirty && !clear), None)
      case Expire =>
        var s := Emit(t, TimeoutError(t.buckets[|t.buckets| - 1].msg), min, env.now);
        Updated(s.thr.(status := TimedOut, dirty := false, timeouts := t.timeouts + 1), Some(s.entry))
  }

  function Tail(e: Option<Entry>): seq<Entry> {
    if e.Some? then [e.value] else []
  }

  /** Runs `thr_status_upd` on thread `i` and records what it sent. */
  function UpdAt(env: Env, l: List, i: nat): List
    requires i < |l.threads| && l.threads[i].buckets != []
  {
    var u := StatusUpd(env, l.threads[i], l.min);
    l.(threads := l.threads[i := u.thr], min := l.min + |Tail(u.sent)|, log := l.log + Tail(u.sent))
  }

  predicate AllNonEmpty(ts: seq<Thread>) {
    forall i :: 0 <= i < |ts| ==> ts[i].buckets != []
  }

  function UpdateFrom(env: Env, l: List, i: nat): List
    requires AllNonEmpty(l.threads)
    decreases |l.threads| - i
  {
    if i >= |l.threads| then l else UpdateFrom(env, UpdAt(env, l, i), i + 1)
  }

  // ----- finding threads -----

  function IndexOf(ts: seq<Thread>, id: nat): Option<nat> {
    if ts == [] then None
    else if ts[0].id == id then Some(0)
    else match IndexOf(ts[1..], id) case None => None case Some(i) => Some(i + 1)
  }

  predicate Matches(m: Msg, b: Bucket) {
    (if IsDisregard(m) then !b.sent else b.sent) && m.mrn == Some(b.msg.min)
  }

  predicate Holds(t: Thread, m: Msg) {
    t.status != Closed && exists a :: 0 <= a < |t.buckets| && Matches(m, t.buckets[a])
  }

  /** `msg_thr_find_by_mrn`: oldest thread first, closed threads skipped. */
  function FindByMrn(ts: seq<Thread>, m: Msg): Option<nat> {
    if m.mrn.None? || ts == [] then None
    else if Holds(ts[|ts| - 1], m) then Some(|ts| - 1)
    else FindByMrn(ts[..|ts| - 1], m)
  }

  // ----- operations -----

  function NewThread(id: nat): Thread {
    Thread(id, Open, [], false, false, 0)
  }

  /** Position of the thread to use, after making a new one at the head if none is given. */
  function WithThread(l: List, at: Option<nat>): List {
    if at.Some? then l else l.(threads := [NewThread(l.nextId)] + l.threads, nextId := l.nextId + 1)
  }

  function Send(env: Env, l: List, m: Msg, at: Option<nat>): List
    requires at.Some? ==> at.value < |l.threads|
  {
    var l1 := WithThread(l, at);
    var i := if at.Some? then at.value else 0;
    var s := Emit(l1.threads[i], m, l1.min, env.now);
    UpdAt(env, l1.(threads := l1.threads[i := s.thr], min := l1.min + 1, log := l1.log + [s.entry]), i)
  }

  function Filed(t: Thread, m: Msg, now: int): Thread {
    t.(buckets := t.buckets + [Bucket(m, false, now)], dirty := true, reviewed := false)
  }

  function Receive(env: Env, l: List, m: Msg): List
    requires var at := FindByMrn(l.threads, m); at.Some? ==> at.value < |l.threads|
  {
    var at := FindByMrn(l.threads, m);
    var l1 := WithThread(l, at);
    var i := if at.Some? then at.value else 0;
    UpdAt(env, l1.(threads := l1.threads[i := Filed(l1.threads[i], m, env.now)]), i)
  }

  function Close(l: List, i: nat): List
    requires i < |l.threads|
  {
    if IsFinal(l.threads[i].status) then l else l.(threads := l.threads[i := l.threads[i].(status := Closed)])
  }

  function Remove(l: List, i: nat): List
    requires i < |l.threads|
  {
    l.(threads := l.threads[..i] + l.threads[i + 1..])
  }

  datatype Op = DoSend(m: Msg, into: Option<nat>) | DoReceive(m: Msg) | DoUpdate | DoClose(thr: nat)
      | DoRemove(thr: nat)

  lemma IndexOfFound(ts: seq<Thread>, id: nat)
    ensures var r := IndexOf(ts, id);
            if r.Some? then r.value < |ts| && ts[r.value].id == id else forall i :: 0 <= i < |ts| ==> ts[i].id != id
  {
    if ts != [] && ts[0].id != id {
      IndexOfFound(ts[1..], id);
      assert forall i :: 0 < i < |ts| ==> ts[i] == ts[1..][i - 1];
    }
  }

  lemma {:induction false} FindByMrnFound(ts: seq<Thread>, m: Msg)
    ensures var r := FindByMrn(ts, m);
            if r.Some? then
              r.value < |ts| && m.mrn.Some? && Holds(ts[r.value], m)
              && forall j :: r.value < j < |ts| ==> !Holds(ts[j], m)
            else m.mrn.None? || forall i :: 0 <= i < |ts| ==> !Holds(ts[i], m)
  {
    if m.mrn.Some? && ts != [] && !Holds(ts[|ts| - 1], m) {
      FindByMrnFound(ts[..|ts| - 1], m);
      var p := ts[..|ts| - 1];
      assert forall i :: 0 <= i < |p| ==> ts[i] == p[i];
    }
  }

  /** An operation the caller may not make (sending into an unknown or finished thread, or a message
      without segments) fails an assertion of the program; here it changes nothing. */
  function Step(env: Env, l: List, op: Op): List
    requires AllNonEmpty(l.threads)
  {
    match op
    case DoSend(m, thr) =>
      if m.segs == [] then l
      else if thr.None? then Send(env, l, m, None)
      else
        IndexOfFound(l.threads, thr.value);
        var at := IndexOf(l.threads, thr.value);
        if at.None? || IsFinal(l.threads[at.value].status) then l else Send(env, l, m, at)
    case DoReceive(m) =>
      FindByMrnFound(l.threads, m);
      if m.segs == [] then l else Receive(env, l, m)
    case DoUpdate => UpdateFrom(env, l, 0)
    case DoClose(thr) =>
      IndexOfFound(l.threads, thr);
      var at := IndexOf(l.threads, thr);
      if at.None? then l else Close(l, at.value)
    case DoRemove(thr) =>
      IndexOfFound(l.threads, thr);
      var at := IndexOf(l.threads, thr);
      if at.None? then l else Remove(l, at.value)
  }

  // ----- what every operation keeps -----

  /** Every sent bucket is the log entry of its MIN, at its own place. */
  ghost predicate ThreadOk(t: Thread, log: seq<Entry>) {
    && (forall a :: 0 <= a < |t.buckets| && t.buckets[a].sent ==>
          t.buckets[a].msg.min < |log| && log[t.buckets[a].msg.min].msg == t.buckets[a].msg
          && log[t.buckets[a].msg.min].thr == t.id && log[t.buckets[a].msg.min].pos == a)
    && t.timeouts <= 1 && (t.timeouts == 1 ==> t.status == TimedOut)
    && t.status != Error
  }

  ghost predicate IdsOk(l: List) {
    && (forall i :: 0 <= i < |l.threads| ==> l.threads[i].id < l.nextId)
    && (forall i, j :: 0 <= i < j < |l.threads| ==> l.threads[i].id != l.threads[j].id)
  }

  ghost predicate LogOk(l: List) {
    l.min == |l.log| && forall k :: 0 <= k < |l.log| ==> l.log[k].msg.min == k
  }

  ghost predicate ListOk(l: List) {
    && IdsOk(l) && LogOk(l) && AllNonEmpty(l.threads)
    && forall i :: 0 <= i < |l.threads| ==> ThreadOk(l.threads[i], l.log)
  }

  /** Two sent buckets never share a MIN, so a reply's MRN can match at most one of them. */
  lemma SentMinsDistinct(l: List, i: nat, a: nat, j: nat, b: nat)
    requires ListOk(l)
    requires i < |l.threads| && a < |l.threads[i].buckets| && l.threads[i].buckets[a].sent
    requires j < |l.threads| && b < |l.threads[j].buckets| && l.threads[j].buckets[b].sent
    ensures l.threads[i].buckets[a].msg.min < l.min
    ensures l.threads[i].buckets[a].msg.min == l.threads[j].buckets[b].msg.min ==> i == j && a == b
  {
    assert ThreadOk(l.threads[i], l.log) && ThreadOk(l.threads[j], l.log);
  }

  lemma ThreadOkGrow(t: Thread, log: seq<Entry>, more: seq<Entry>)
    requires ThreadOk(t, log)
    ensures ThreadOk(t, log + more)
  {
  }

  lemma EmitOk(t: Thread, m: Msg, log: seq<Entry>, now: int)
    requires ThreadOk(t, log)
    ensures var s := Emit(t, m, |log|, now);
            ThreadOk(s.thr, log + [s.entry]) && s.entry.msg.min == |log|
  {
  }

  /** Errors count as rejections, which are tested first: the status ERROR is never given. */
  lemma NeverJudgedError(env: Env, t: Thread)
    requires t.buckets != []
    ensures Judge(env, t).Become? ==> Judge(env, t).st != Error && Judge(env, t).st != TimedOut
  {
  }

  /** One status update: the thread stays sound, a final status stays as it is. */
  lemma StatusUpdOk(env: Env, t: Thread, log: seq<Entry>)
    requires t.buckets != [] && ThreadOk(t, log)
    ensures var u := StatusUpd(env, t, |log|);
            && ThreadOk(u.thr, log + Tail(u.sent)) && u.thr.id == t.id && t.buckets <= u.thr.buckets
            && (u.sent.Some? ==> u.sent.value.msg.min == |log|)
            && (IsFinal(t.status) ==> u.thr == t)
  {
    var last := t.buckets[|t.buckets| - 1];
    EmitOk(t, TimeoutError(last.msg), log, env.now);
    NeverJudgedError(env, t);
    assert log + [] == log;
  }

  ghost predicate SameThreads(l: List, l': List) {
    && |l'.threads| == |l.threads| && l'.nextId == l.nextId
    && (forall i :: 0 <= i < |l.threads| ==>
          l'.threads[i].id == l.threads[i].id && l.threads[i].buckets <= l'.threads[i].buckets
          && (IsFinal(l.threads[i].status) ==> l'.threads[i].status == l.threads[i].status))
  }

  lemma UpdAtOk(env: Env, l: List, i: nat)
    requires ListOk(l) && i < |l.threads|
    ensures ListOk(UpdAt(env, l, i)) && SameThreads(l, UpdAt(env, l, i))
  {
    var l' := UpdAt(env, l, i);
    StatusUpdOk(env, l.threads[i], l.log);
    forall j | 0 <= j < |l'.threads| ensures ThreadOk(l'.threads[j], l'.log) {
      if j != i { ThreadOkGrow(l.threads[j], l.log, Tail(StatusUpd(env, l.threads[i], l.min).sent)); }
    }
  }

  lemma {:induction false} UpdateFromOk(env: Env, l: List, i: nat)
    requires ListOk(l)
    ensures ListOk(UpdateFrom(env, l, i)) && SameThreads(l, UpdateFrom(env, l, i))
    decreases |l.threads| - i
  {
    if i < |l.threads| {
      UpdAtOk(env, l, i);
      UpdateFromOk(env, UpdAt(env, l, i), i + 1);
    }
  }

  /** Everything but non-emptiness, which fails between making a thread and filling it. */
  lemma WithThreadOk(l: List, at: Option<nat>)
    requires ListOk(l)
    ensures var l1 := WithThread(l, at);
            IdsOk(l1) && LogOk(l1) && l1.log == l.log
            && forall i :: 0 <= i < |l1.threads| ==> ThreadOk(l1.threads[i], l1.log)
  {
  }

  /** Replacing one thread by a sound, non-empty one with the same id. */
  lemma ReplaceOk(l: List, i: nat, t: Thread, more: seq<Entry>)
    requires IdsOk(l) && LogOk(l) && i < |l.threads|
    requires forall j :: 0 <= j < |l.threads| ==>
               ThreadOk(l.threads[j], l.log) && (j != i ==> l.threads[j].buckets != [])
    requires t.id == l.threads[i].id && t.buckets != [] && ThreadOk(t, l.log + more)
    requires forall k :: 0 <= k < |more| ==> more[k].msg.min == |l.log| + k
    ensures ListOk(l.(threads := l.threads[i := t], min := l.min + |more|, log := l.log + more))
  {
    var l' := l.(threads := l.threads[i := t], min := l.min + |more|, log := l.log + more);
    forall j | 0 <= j < |l'.threads| ensures ThreadOk(l'.threads[j], l'.log) {
      if j != i { ThreadOkGrow(l.threads[j], l.log, more); }
    }
  }

  lemma SendOk(env: Env, l: List, m: Msg, at: Option<nat>)
    requires ListOk(l) && (at.Some? ==> at.value < |l.threads|)
    ensures ListOk(Send(env, l, m, at))
    ensures SameThreads(WithThread(l, at), Send(env, l, m, at))
  {
    WithThreadOk(l, at);
    var l1 := WithThread(l, at);
    var i := if at.Some? then at.value else 0;
    var s := Emit(l1.threads[i], m, l1.min, env.now);
    EmitOk(l1.threads[i], m, l1.log, env.now);
    ReplaceOk(l1, i, s.thr, [s.entry]);
    UpdAtOk(env, l1.(threads := l1.threads[i := s.thr], min := l1.min + 1, log := l1.log + [s.entry]), i);
  }

  lemma ReceiveOk(env: Env, l: List, m: Msg)
    requires ListOk(l)
    ensures var at := FindByMrn(l.threads, m); at.Some? ==> at.value < |l.threads|
    ensures ListOk(Receive(env, l, m))
    ensures SameThreads(WithThread(l, FindByMrn(l.threads, m)), Receive(env, l, m))
  {
    FindByMrnFound(l.threads, m);
    var at := FindByMrn(l.threads, m);
    WithThreadOk(l, at);
    var l1 := WithThread(l, at);
    var i := if at.Some? then at.value else 0;
    var t := Filed(l1.threads[i], m, env.now);
    assert ThreadOk(l1.threads[i], l1.log);
    assert l1.log + [] == l1.log;
    ReplaceOk(l1, i, t, []);
    UpdAtOk(env, l1.(threads := l1.threads[i := t]), i);
  }

  lemma StepOk(env: Env, l: List, op: Op)
    requires ListOk(l)
    ensures ListOk(Step(env, l, op))
  {
    match op
    case DoSend(m, thr) =>
      if thr.Some? { IndexOfFound(l.threads, thr.value); SendOk(env, l, m, IndexOf(l.threads, thr.value)); }
      else { SendOk(env, l, m, None); }
    case DoReceive(m) => ReceiveOk(env, l, m);
    case DoUpdate => UpdateFromOk(env, l, 0);
    case DoClose(thr) =>
      IndexOfFound(l.threads, thr);
      var at := IndexOf(l.threads, thr);
      if at.Some? && !IsFinal(l.threads[at.value].status) {
        var t := l.threads[at.value].(status := Closed);
        assert ThreadOk(l.threads[at.value], l.log);
        assert l.log + [] == l.log;
        ReplaceOk(l, at.value, t, []);
      }
    case DoRemove(thr) =>
      IndexOfFound(l.threads, thr);
      var at := IndexOf(l.threads, thr);
      if at.Some? { RemoveOk(l, at.value); }
  }

  lemma RemoveOk(l: List, i: nat)
    requires ListOk(l) && i < |l.threads|
    ensures ListOk(Remove(l, i))
  {
    var l' := Remove(l, i);
    forall j ensures 0 <= j < |l'.threads| ==> l'.threads[j] == l.threads[if j < i then j else j + 1] {}
  }

  // ----- runs -----

  datatype Call = Call(env: Env, op: Op)

  ghost function Run(l: List, calls: seq<Call>): List
    requires ListOk(l)
    ensures ListOk(Run(l, calls))
    decreases |calls|
  {
    if calls == [] then l
    else
      StepOk(calls[0].env, l, calls[0].op);
      Run(Step(calls[0].env, l, calls[0].op), calls[1..])
  }

  /** `l'` has no thread with an id issued before `l` unless `l` has it; then it holds all that was in it, in order,
      and a final status is kept. */
  ghost predicate Descends(l: List, l': List) {
    l.nextId <= l'.nextId
    && forall j :: 0 <= j < |l'.threads| && l'.threads[j].id < l.nextId ==> Inherits(l, l'.threads[j])
  }

  ghost predicate Inherits(l: List, t: Thread) {
    exists i :: 0 <= i < |l.threads| && l.threads[i].id == t.id && l.threads[i].buckets <= t.buckets
                && (IsFinal(l.threads[i].status) ==> t.status == l.threads[i].status)
  }

  lemma SameDescends(l: List, l': List)
    requires SameThreads(l, l')
    ensures Descends(l, l')
  {
  }

  lemma NewDescends(l: List, at: Option<nat>, l': List)
    requires SameThreads(WithThread(l, at), l')
    ensures Descends(l, l')
  {
    var l1 := WithThread(l, at);
    forall j | 0 <= j < |l'.threads| && l'.threads[j].id < l.nextId ensures Inherits(l, l'.threads[j]) {
      assert l1.threads[j].id == l'.threads[j].id;
      assert l1.threads[j] == if at.Some? then l.threads[j] else l.threads[j - 1];
    }
  }

  lemma CloseRemoveDescends(l: List, i: nat)
    requires i < |l.threads|
    ensures Descends(l, Close(l, i)) && Descends(l, Remove(l, i))
  {
    SameDescends(l, Close(l, i));
    var l' := Remove(l, i);
    forall j | 0 <= j < |l'.threads| ensures Inherits(l, l'.threads[j]) {
      assert l'.threads[j] == l.threads[if j < i then j else j + 1];
    }
  }

  lemma SendDescends(env: Env, l: List, m: Msg, into: Option<nat>)
    requires ListOk(l)
    ensures Descends(l, Step(env, l, DoSend(m, into)))
  {
    SameDescends(l, l);
    if into.Some? {
      IndexOfFound(l.threads, into.value);
      var at := IndexOf(l.threads, into.value);
      if at.Some? {
        SendOk(env, l, m, at);
        NewDescends(l, at, Send(env, l, m, at));
      }
    } else {
      SendOk(env, l, m, None);
      NewDescends(l, None, Send(env, l, m, None));
    }
  }

  lemma StepDescends(env: Env, l: List, op: Op)
    requires ListOk(l)
    ensures Descends(l, Step(env, l, op))
  {
    SameDescends(l, l);
    match op
    case DoSend(m, into) => SendDescends(env, l, m, into);
    case DoReceive(m) =>
      ReceiveOk(env, l, m);
      NewDescends(l, FindByMrn(l.threads, m), Receive(env, l, m));
    case DoUpdate =>
      UpdateFromOk(env, l, 0);
      SameDescends(l, UpdateFrom(env, l, 0));
    case DoClose(thr) =>
      IndexOfFound(l.threads, thr);
      if IndexOf(l.threads, thr).Some? { CloseRemoveDescends(l, IndexOf(l.threads, thr).value); }
    case DoRemove(thr) =>
      IndexOfFound(l.threads, thr);
      if IndexOf(l.threads, thr).Some? { CloseRemoveDescends(l, IndexOf(l.threads, thr).value); }
  }

  lemma DescendsTrans(l: List, l1: List, l2: List)
    requires Descends(l, l1) && Descends(l1, l2)
    ensures Descends(l, l2)
  {
    forall j | 0 <= j < |l2.threads| && l2.threads[j].id < l.nextId ensures Inherits(l, l2.threads[j]) {
      assert Inherits(l1, l2.threads[j]);
      var i :| 0 <= i < |l1.threads| && l1.threads[i].id == l2.threads[j].id
               && l1.threads[i].buckets <= l2.threads[j].buckets
               && (IsFinal(l1.threads[i].status) ==> l2.threads[j].status == l1.threads[i].status);
      assert Inherits(l, l1.threads[i]);
    }
  }

  /** Over every run: thread ids are never reused, a thread keeps its messages in order, and a final status never
      changes. */
  lemma {:induction false} RunDescends(l: List, calls: seq<Call>)
    requires ListOk(l)
    ensures Descends(l, Run(l, calls))
    decreases |calls|
  {
    if calls == [] {
      SameDescends(l, l);
    } else {
      StepOk(calls[0].env, l, calls[0].op);
      StepDescends(calls[0].env, l, calls[0].op);
      RunDescends(Step(calls[0].env, l, calls[0].op), calls[1..]);
      DescendsTrans(l, Step(calls[0].env, l, calls[0].op), Run(l, calls));
    }
  }

  /** What a reader gets from `RunDescends` for one thread. */
  lemma FinalStatusIsFinal(l: List, calls: seq<Call>, i: nat, j: nat)
    requires ListOk(l) && i < |l.threads| && IsFinal(l.threads[i].status)
    requires j < |Run(l, calls).threads| && Run(l, calls).threads[j].id == l.threads[i].id
    ensures Run(l, calls).threads[j].status == l.threads[i].status
  {
    RunDescends(l, calls);
    InheritsFrom(l, Run(l, calls).threads[j], i);
  }

  lemma InheritsFrom(l: List, t: Thread, i: nat)
    requires IdsOk(l) && Inherits(l, t) && i < |l.threads| && l.threads[i].id == t.id && IsFinal(l.threads[i].status)
    ensures t.status == l.threads[i].status
  {
  }

  lemma RemovedIdStaysGone(l: List, calls: seq<Call>, id: nat, j: nat)
    requires ListOk(l) && id < l.nextId && (forall i :: 0 <= i < |l.threads| ==> l.threads[i].id != id)
    requires j < |Run(l, calls).threads|
    ensures Run(l, calls).threads[j].id != id
  {
    RunDescends(l, calls);
    assert Run(l, calls).threads[j].id < l.nextId ==> Inherits(l, Run(l, calls).threads[j]);
  }

  /** Over every run from the empty list, a thread has sent at most one timeout error, and then it is timed out. */
  lemma OneTimeoutPerThread(calls: seq<Call>, i: nat)
    requires i < |Run(EMPTY, calls).threads|
    ensures var t := Run(EMPTY, calls).threads[i];
            t.timeouts <= 1 && (t.timeouts == 1 ==> t.status == TimedOut) && t.buckets != []
  {
    assert ThreadOk(Run(EMPTY, calls).threads[i], Run(EMPTY, calls).log);
  }
}
