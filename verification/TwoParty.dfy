/**
 An aircraft list and an ATC list joined by a link that keeps the order of messages, may lose them,
 and refuses those whose direction does not fit the sender's role.
 */
module TwoParty {
  import opened Options
  import opened Threads

  /** What one side has seen of its peer: the first `seen` messages the peer sent have passed the link. */
  datatype Link = Link(atc: bool, peer: seq<Entry>, seen: nat)

  /** A message this role may send: uplink from ATC, downlink from an aircraft. */
  predicate Fits(m: Msg, atc: bool) { m.segs != [] && IsDl(m) != atc }

  /** No segment of the message sets a timer. In the message table this holds of every downlink. */
  predicate Untimed(m: Msg) { forall i :: 0 <= i < |m.segs| ==> m.segs[i].timeout == 0 }

  ghost predicate FromPeer(m: Msg, k: Link) {
    m.min < k.seen <= |k.peer| && k.peer[m.min].msg == m && Fits(m, !k.atc)
  }

  // ----- what holds on one side -----

  ghost predicate BucketOk(t: Thread, b: Bucket, k: Link) {
    if b.sent then t.status == TimedOut || (Fits(b.msg, k.atc) && (k.atc || Untimed(b.msg))) else FromPeer(b.msg, k)
  }

  ghost predicate BucketsOk(t: Thread, k: Link) {
    forall a :: 0 <= a < |t.buckets| ==> BucketOk(t, t.buckets[a], k)
  }

  /** A message that may pass the link has the MRN of the message it answers, which the peer sent, or none. */
  ghost predicate EntryOk(e: Entry, k: Link) {
    Fits(e.msg, k.atc) ==>
      if e.answers.Some? then e.msg.mrn == Some(e.answers.value.min) && FromPeer(e.answers.value, k)
      else e.msg.mrn.None?
  }

  /** A sent message is still in its thread, if that thread still exists. */
  ghost predicate InPlace(t: Thread, e: Entry) {
    t.id == e.thr ==> e.pos < |t.buckets| && t.buckets[e.pos].sent && t.buckets[e.pos].msg == e.msg
  }

  ghost predicate Holding(t: Thread, q: Msg, before: nat) {
    exists b :: 0 <= b < |t.buckets| && b < before && t.buckets[b].sent && t.buckets[b].msg == q
  }

  /** A received reply follows the message it answers, or opened its thread. */
  ghost predicate FiledOk(t: Thread, k: Link) {
    forall a :: 0 < a < |t.buckets| && !t.buckets[a].sent && !IsDisregard(t.buckets[a].msg)
                && t.buckets[a].msg.min < |k.peer| && k.peer[t.buckets[a].msg.min].answers.Some? ==>
      Holding(t, k.peer[t.buckets[a].msg.min].answers.value, a)
  }

  ghost predicate ThreadFine(t: Thread, k: Link) { BucketsOk(t, k) && FiledOk(t, k) }

  ghost predicate ThreadsOk(ts: seq<Thread>, k: Link) {
    forall i :: 0 <= i < |ts| ==> ThreadFine(ts[i], k)
  }

  ghost predicate LogsOk(l: List, k: Link) {
    forall n :: 0 <= n < |l.log| ==>
      EntryOk(l.log[n], k) && l.log[n].thr < l.nextId
      && forall i :: 0 <= i < |l.threads| ==> InPlace(l.threads[i], l.log[n])
  }

  ghost predicate SideOk(l: List, k: Link) {
    ListOk(l) && ThreadsOk(l.threads, k) && LogsOk(l, k)
  }

  // ----- one side moves -----

  lemma {:induction false} LatestOppositeIn(bs: seq<Bucket>, dl: bool) returns (a: nat)
    ensures var q := LatestOpposite(bs, dl);
            q.Some? ==> a < |bs| && bs[a].msg == q.value && IsDl(q.value) != dl
  {
    a := 0;
    if bs != [] {
      if IsDl(bs[|bs| - 1].msg) != dl { a := |bs| - 1; }
      else { a := LatestOppositeIn(bs[..|bs| - 1], dl); }
    }
  }

  /** A message joining a thread that has not timed out answers something the peer sent. */
  lemma EmitAnswersPeer(t: Thread, m: Msg, min: nat, now: int, k: Link)
    requires BucketsOk(t, k) && t.status != TimedOut
    requires Fits(m, k.atc) && m.mrn.Some? ==> LatestOpposite(t.buckets, IsDl(m)).Some?
    ensures EntryOk(Emit(t, m, min, now).entry, k)
  {
    var a := LatestOppositeIn(t.buckets, IsDl(m));
    var q := LatestOpposite(t.buckets, IsDl(m));
    if q.Some? && Fits(m, k.atc) { assert BucketOk(t, t.buckets[a], k); }
  }

  lemma {:induction false} UntimedNoTimeout(segs: seq<Seg>)
    requires forall i :: 0 <= i < |segs| ==> segs[i].timeout == 0
    ensures SegsTimeout(segs) == 0
  {
    if segs != [] { UntimedNoTimeout(segs[1..]); }
  }

  /** A thread without messages of the other direction and without timed ones never times out. */
  lemma {:induction false} OneWayNoTimeout(bs: seq<Bucket>, dl: bool)
    requires forall a :: 0 <= a < |bs| ==> IsDl(bs[a].msg) == dl ==> Untimed(bs[a].msg)
    requires LatestOpposite(bs, dl).None?
    ensures BucketsTimeout(bs) == 0
  {
    if bs != [] {
      LatestOppositeNone(bs, dl);
      UntimedNoTimeout(bs[0].msg.segs);
      NoneLatestOpposite(bs[1..], dl);
      OneWayNoTimeout(bs[1..], dl);
    }
  }

  lemma {:induction false} LatestOppositeNone(bs: seq<Bucket>, dl: bool)
    requires LatestOpposite(bs, dl).None?
    ensures forall a :: 0 <= a < |bs| ==> IsDl(bs[a].msg) == dl
  {
    if bs != [] {
      LatestOppositeNone(bs[..|bs| - 1], dl);
      assert forall a :: 0 <= a < |bs| - 1 ==> bs[a] == bs[..|bs| - 1][a];
    }
  }

  lemma {:induction false} NoneLatestOpposite(bs: seq<Bucket>, dl: bool)
    requires forall a :: 0 <= a < |bs| ==> IsDl(bs[a].msg) == dl
    ensures LatestOpposite(bs, dl).None?
  {
    if bs != [] { NoneLatestOpposite(bs[..|bs| - 1], dl); }
  }

  /** When a thread of an aircraft times out it holds an uplink, so the error it sends answers one. */
  lemma ExpiryHasOpposite(env: Env, t: Thread, k: Link)
    requires BucketsOk(t, k) && t.buckets != [] && t.status != TimedOut && !k.atc && TimesOut(env, t)
    ensures LatestOpposite(t.buckets, true).Some?
  {
    if LatestOpposite(t.buckets, true).None? {
      forall a | 0 <= a < |t.buckets| ensures IsDl(t.buckets[a].msg) ==> Untimed(t.buckets[a].msg) {
        assert BucketOk(t, t.buckets[a], k);
      }
      OneWayNoTimeout(t.buckets, true);
    }
  }

  lemma FiledGrow(t: Thread, b: Bucket, k: Link)
    requires FiledOk(t, k) && b.sent
    ensures FiledOk(t.(buckets := t.buckets + [b]), k)
  {
    var t' := t.(buckets := t.buckets + [b]);
    forall a | 0 < a < |t'.buckets| && !t'.buckets[a].sent && !IsDisregard(t'.buckets[a].msg)
               && t'.buckets[a].msg.min < |k.peer| && k.peer[t'.buckets[a].msg.min].answers.Some?
      ensures Holding(t', k.peer[t'.buckets[a].msg.min].answers.value, a)
    {
      var q := k.peer[t'.buckets[a].msg.min].answers.value;
      assert t.buckets[a] == t'.buckets[a] && Holding(t, q, a);
      var b :| 0 <= b < |t.buckets| && b < a && t.buckets[b].sent && t.buckets[b].msg == q;
      assert t'.buckets[b] == t.buckets[b];
    }
  }

  lemma EmitFine(t: Thread, m: Msg, min: nat, now: int, k: Link)
    requires ThreadFine(t, k) && t.status != TimedOut
    requires Fits(m, k.atc) && m.mrn.Some? ==> LatestOpposite(t.buckets, IsDl(m)).Some?
    ensures EntryOk(Emit(t, m, min, now).entry, k)
    ensures FiledOk(Emit(t, m, min, now).thr, k)
    ensures Fits(m, k.atc) && (k.atc || Untimed(m)) ==> BucketsOk(Emit(t, m, min, now).thr, k)
    ensures BucketsOk(Emit(t, m, min, now).thr.(status := TimedOut), k)
  {
    EmitAnswersPeer(t, m, min, now, k);
    var b := Bucket(Stamped(t.buckets, m, min), true, now);
    FiledGrow(t, b, k);
    assert forall a :: 0 <= a < |t.buckets| ==> BucketOk(t, t.buckets[a], k);
  }

  lemma StatusUpdFine(env: Env, t: Thread, min: nat, k: Link)
    requires t.buckets != [] && ThreadFine(t, k)
    ensures var u := StatusUpd(env, t, min);
            ThreadFine(u.thr, k) && (u.sent.Some? ==> EntryOk(u.sent.value, k))
  {
    var u := StatusUpd(env, t, min);
    if !IsFinal(t.status) {
      var last := t.buckets[|t.buckets| - 1];
      if !Judge(env, t).Expire? {
        assert forall a :: 0 <= a < |t.buckets| ==> BucketOk(t, t.buckets[a], k);
        assert forall a :: 0 <= a < |t.buckets| ==> BucketOk(u.thr, t.buckets[a], k);
        SameFiled(t, u.thr, k);
      } else {
        if !k.atc { ExpiryHasOpposite(env, t, k); }
        EmitFine(t, TimeoutError(last.msg), min, env.now, k);
        SameFiled(Emit(t, TimeoutError(last.msg), min, env.now).thr, u.thr, k);
      }
    }
  }

  /** The error a thread sends when it times out is a downlink, which fits the aircraft's role and not the
      controller's. */
  lemma TimeoutFitsIff(env: Env, t: Thread, min: nat, atc: bool)
    requires t.buckets != [] && StatusUpd(env, t, min).sent.Some?
    ensures Fits(StatusUpd(env, t, min).sent.value.msg, atc) <==> !atc
  {
  }

  lemma SameFiled(t: Thread, t': Thread, k: Link)
    requires FiledOk(t, k) && t'.buckets == t.buckets
    ensures FiledOk(t', k)
  {
    forall q: Msg, a: nat | Holding(t, q, a) ensures Holding(t', q, a) {
      var b :| 0 <= b < |t.buckets| && b < a && t.buckets[b].sent && t.buckets[b].msg == q;
      assert t'.buckets[b] == t.buckets[b];
    }
  }

  /** Extending thread `i` and logging what it sent. */
  lemma ExtendFine(l: List, i: nat, t: Thread, more: seq<Entry>, k: Link)
    requires IdsOk(l) && ThreadsOk(l.threads, k) && LogsOk(l, k) && i < |l.threads|
    requires t.id == l.threads[i].id && l.threads[i].buckets <= t.buckets && ThreadFine(t, k)
    requires forall n :: 0 <= n < |more| ==> EntryOk(more[n], k) && more[n].thr == t.id && InPlace(t, more[n])
    ensures var l' := l.(threads := l.threads[i := t], min := l.min + |more|, log := l.log + more);
            ThreadsOk(l'.threads, k) && LogsOk(l', k)
  {
    var l' := l.(threads := l.threads[i := t], min := l.min + |more|, log := l.log + more);
    forall n | 0 <= n < |l'.log|
      ensures EntryOk(l'.log[n], k) && l'.log[n].thr < l'.nextId
      ensures forall j :: 0 <= j < |l'.threads| ==> InPlace(l'.threads[j], l'.log[n])
    {
      if n < |l.log| {
        assert InPlace(l.threads[i], l.log[n]);
        assert InPlace(t, l.log[n]);
      }
    }
  }

  lemma UpdAtFine(env: Env, l: List, i: nat, k: Link)
    requires SideOk(l, k) && i < |l.threads|
    ensures SideOk(UpdAt(env, l, i), k)
  {
    var t := l.threads[i];
    var u := StatusUpd(env, t, l.min);
    StatusUpdFine(env, t, l.min, k);
    StatusUpdOk(env, t, l.log);
    UpdAtOk(env, l, i);
    ExtendFine(l, i, u.thr, Tail(u.sent), k);
  }

  lemma {:induction false} UpdateFine(env: Env, l: List, i: nat, k: Link)
    requires SideOk(l, k)
    ensures SideOk(UpdateFrom(env, l, i), k)
    decreases |l.threads| - i
  {
    if i < |l.threads| {
      UpdAtFine(env, l, i, k);
      UpdateFine(env, UpdAt(env, l, i), i + 1, k);
    }
  }

  lemma WithThreadFine(l: List, at: Option<nat>, k: Link)
    requires SideOk(l, k)
    ensures var l1 := WithThread(l, at); IdsOk(l1) && ThreadsOk(l1.threads, k) && LogsOk(l1, k)
  {
    var l1 := WithThread(l, at);
    WithThreadOk(l, at);
    if at.None? {
      assert ThreadFine(NewThread(l.nextId), k);
      assert forall j :: 0 < j < |l1.threads| ==> l1.threads[j] == l.threads[j - 1];
    }
  }

  lemma SendFine(env: Env, l: List, m: Msg, at: Option<nat>, k: Link)
    requires SideOk(l, k) && (at.Some? ==> at.value < |l.threads| && !IsFinal(l.threads[at.value].status))
    requires Fits(m, k.atc) && m.mrn.None? && (k.atc || Untimed(m))
    ensures SideOk(Send(env, l, m, at), k)
  {
    WithThreadFine(l, at, k);
    WithThreadOk(l, at);
    var l1 := WithThread(l, at);
    var i := if at.Some? then at.value else 0;
    var s := Emit(l1.threads[i], m, l1.min, env.now);
    EmitFine(l1.threads[i], m, l1.min, env.now, k);
    EmitOk(l1.threads[i], m, l1.log, env.now);
    ReplaceOk(l1, i, s.thr, [s.entry]);
    ExtendFine(l1, i, s.thr, [s.entry], k);
    UpdAtFine(env, l1.(threads := l1.threads[i := s.thr], min := l1.min + 1, log := l1.log + [s.entry]), i, k);
  }

  lemma CloseRemoveFine(l: List, i: nat, k: Link)
    requires SideOk(l, k) && i < |l.threads|
    ensures SideOk(Remove(l, i), k)
    ensures SideOk(Close(l, i), k)
  {
    var l' := Remove(l, i);
    RemoveOk(l, i);
    forall j ensures 0 <= j < |l'.threads| ==> l'.threads[j] == l.threads[if j < i then j else j + 1] {}
    var t := l.threads[i];
    if !IsFinal(t.status) {
      var c := t.(status := Closed);
      assert ThreadOk(t, l.log) && ThreadFine(t, k);
      assert l.log + [] == l.log;
      ReplaceOk(l, i, c, []);
      SameFiled(t, c, k);
      forall a | 0 <= a < |c.buckets| ensures BucketOk(c, c.buckets[a], k) { assert BucketOk(t, t.buckets[a], k); }
      ExtendFine(l, i, c, [], k);
    }
  }

  /** What the users of a list do: they send in their role and leave the MRN to the list. */
  predicate Proper(op: Op, atc: bool) {
    match op
    case DoSend(m, _) => Fits(m, atc) && m.mrn.None? && (atc || Untimed(m))
    case DoReceive(_) => false
    case _ => true
  }

  lemma LocalFine(env: Env, l: List, op: Op, k: Link)
    requires SideOk(l, k) && Proper(op, k.atc)
    ensures SideOk(Step(env, l, op), k)
  {
    match op
    case DoSend(m, thr) =>
      if thr.None? { SendFine(env, l, m, None, k); }
      else {
        IndexOfFound(l.threads, thr.value);
        var at := IndexOf(l.threads, thr.value);
        if at.Some? && !IsFinal(l.threads[at.value].status) { SendFine(env, l, m, at, k); }
      }
    case DoUpdate => UpdateFine(env, l, 0, k);
    case DoClose(thr) =>
      IndexOfFound(l.threads, thr);
      if IndexOf(l.threads, thr).Some? { CloseRemoveFine(l, IndexOf(l.threads, thr).value, k); }
    case DoRemove(thr) =>
      IndexOfFound(l.threads, thr);
      if IndexOf(l.threads, thr).Some? { CloseRemoveFine(l, IndexOf(l.threads, thr).value, k); }
  }

  // ----- the link moves -----

  lemma FilledGrows(t: Thread, k: Link, k': Link)
    requires ThreadFine(t, k) && k'.atc == k.atc && k.peer <= k'.peer && k.seen <= k'.seen <= |k'.peer|
    ensures ThreadFine(t, k')
  {
    forall a | 0 <= a < |t.buckets| ensures BucketOk(t, t.buckets[a], k') { assert BucketOk(t, t.buckets[a], k); }
    forall a | 0 < a < |t.buckets| && !t.buckets[a].sent && !IsDisregard(t.buckets[a].msg)
               && t.buckets[a].msg.min < |k'.peer| && k'.peer[t.buckets[a].msg.min].answers.Some?
      ensures Holding(t, k'.peer[t.buckets[a].msg.min].answers.value, a)
    {
      assert BucketOk(t, t.buckets[a], k);
    }
  }

  /** The peer sending more, or more of it passing the link, takes nothing away. */
  lemma LinkGrows(l: List, k: Link, k': Link)
    requires SideOk(l, k) && k'.atc == k.atc && k.peer <= k'.peer && k.seen <= k'.seen <= |k'.peer|
    ensures SideOk(l, k')
  {
    forall i | 0 <= i < |l.threads| ensures ThreadFine(l.threads[i], k') { FilledGrows(l.threads[i], k, k'); }
    forall n | 0 <= n < |l.log| ensures EntryOk(l.log[n], k') { assert EntryOk(l.log[n], k); }
  }

  /** The next message to pass, and what the peer's own invariant says of it. */
  ghost predicate Arriving(l: List, k: Link, e: Entry) {
    && k.seen < |k.peer| && e == k.peer[k.seen] && e.msg.min == k.seen && Fits(e.msg, !k.atc)
    && (if e.answers.None? then e.msg.mrn.None?
        else var q := e.answers.value; e.msg.mrn == Some(q.min) && q.min < |l.log| && l.log[q.min].msg == q)
  }

  /** A sent bucket that a reply's MRN matches is the very message it answers. */
  lemma MatchIsAnswered(l: List, k: Link, e: Entry, i: nat)
    requires ListOk(l) && Arriving(l, k, e) && e.answers.Some? && !IsDisregard(e.msg)
    requires i < |l.threads| && Holds(l.threads[i], e.msg)
    ensures Holding(l.threads[i], e.answers.value, |l.threads[i].buckets|)
    ensures l.threads[i].id == l.log[e.answers.value.min].thr
  {
    var t := l.threads[i];
    var a :| 0 <= a < |t.buckets| && Matches(e.msg, t.buckets[a]);
    assert ThreadOk(t, l.log);
    assert t.buckets[a].sent && t.buckets[a].msg == e.answers.value;
  }

  lemma FiledFine(t: Thread, m: Msg, now: int, k: Link, e: Entry)
    requires ThreadFine(t, k) && FromPeer(m, k) && e == k.peer[m.min]
    requires t.buckets != [] && e.answers.Some? && !IsDisregard(m) ==> Holding(t, e.answers.value, |t.buckets|)
    ensures ThreadFine(Filed(t, m, now), k)
  {
    var t' := Filed(t, m, now);
    forall a | 0 <= a < |t'.buckets| ensures BucketOk(t', t'.buckets[a], k) {
      if a < |t.buckets| { assert BucketOk(t, t.buckets[a], k); }
    }
    forall a | 0 < a < |t'.buckets| && !t'.buckets[a].sent && !IsDisregard(t'.buckets[a].msg)
               && t'.buckets[a].msg.min < |k.peer| && k.peer[t'.buckets[a].msg.min].answers.Some?
      ensures Holding(t', k.peer[t'.buckets[a].msg.min].answers.value, a)
    {
      var q := k.peer[t'.buckets[a].msg.min].answers.value;
      assert Holding(t, q, a);
      var b :| 0 <= b < |t.buckets| && b < a && t.buckets[b].sent && t.buckets[b].msg == q;
      assert t'.buckets[b] == t.buckets[b];
    }
  }

  /** Filing a message in thread `i`, which may be a new one. */
  lemma FileFine(env: Env, l1: List, k: Link, i: nat, t: Thread)
    requires IdsOk(l1) && LogOk(l1) && ThreadsOk(l1.threads, k) && LogsOk(l1, k) && i < |l1.threads|
    requires forall j :: 0 <= j < |l1.threads| ==>
               ThreadOk(l1.threads[j], l1.log) && (j != i ==> l1.threads[j].buckets != [])
    requires t.id == l1.threads[i].id && l1.threads[i].buckets < t.buckets && ThreadOk(t, l1.log) && ThreadFine(t, k)
    ensures SideOk(UpdAt(env, l1.(threads := l1.threads[i := t]), i), k)
  {
    assert l1.log + [] == l1.log;
    ReplaceOk(l1, i, t, []);
    ExtendFine(l1, i, t, [], k);
    UpdAtFine(env, l1.(threads := l1.threads[i := t]), i, k);
  }

  lemma FiledOkThread(t: Thread, m: Msg, now: int, log: seq<Entry>)
    requires ThreadOk(t, log)
    ensures ThreadOk(Filed(t, m, now), log)
  {
  }

  lemma ReceiveFine(env: Env, l: List, k: Link, e: Entry)
    requires SideOk(l, k) && Arriving(l, k, e)
    ensures var at := FindByMrn(l.threads, e.msg); at.Some? ==> at.value < |l.threads|
    ensures SideOk(Receive(env, l, e.msg), k.(seen := k.seen + 1))
  {
    var k' := k.(seen := k.seen + 1);
    LinkGrows(l, k, k');
    var at := FindByMrn(l.threads, e.msg);
    FindByMrnFound(l.threads, e.msg);
    WithThreadFine(l, at, k');
    WithThreadOk(l, at);
    var l1 := WithThread(l, at);
    var i := if at.Some? then at.value else 0;
    if at.Some? && e.answers.Some? && !IsDisregard(e.msg) { MatchIsAnswered(l, k, e, i); }
    FiledFine(l1.threads[i], e.msg, env.now, k', e);
    FiledOkThread(l1.threads[i], e.msg, env.now, l1.log);
    FileFine(env, l1, k', i, Filed(l1.threads[i], e.msg, env.now));
  }

  // ----- where a reply ends up -----

  ghost predicate Usable(l: List, id: nat, i: nat) {
    i < |l.threads| && l.threads[i].id == id && l.threads[i].status != Closed
  }

  /** `l'` is `l` with `m` filed at the end of thread `i`. */
  ghost predicate FiledAt(l: List, l': List, i: nat, m: Msg, now: int) {
    && i < |l.threads| == |l'.threads|
    && l'.threads[i].id == l.threads[i].id
    && l'.threads[i].buckets == l.threads[i].buckets + [Bucket(m, false, now)]
    && forall j :: 0 <= j < |l.threads| && j != i ==> l'.threads[j] == l.threads[j]
  }

  /** `l'` is `l` with a new thread at the head that holds `m` alone. */
  ghost predicate FiledFresh(l: List, l': List, m: Msg, now: int) {
    && |l'.threads| == |l.threads| + 1
    && l'.threads[0].id == l.nextId < l'.nextId
    && l'.threads[0].buckets == [Bucket(m, false, now)]
    && l'.threads[1..] == l.threads
  }

  /** Nothing times out in the moment a message is filed. */
  lemma FilingSendsNothing(env: Env, t: Thread, m: Msg, min: nat)
    ensures StatusUpd(env, Filed(t, m, env.now), min).sent.None?
    ensures StatusUpd(env, Filed(t, m, env.now), min).thr.buckets == Filed(t, m, env.now).buckets
    ensures StatusUpd(env, Filed(t, m, env.now), min).thr.id == t.id
  {
  }

  lemma ReceiveFiles(env: Env, l: List, m: Msg)
    ensures var at := FindByMrn(l.threads, m);
            && (at.Some? ==> at.value < |l.threads| && FiledAt(l, Receive(env, l, m), at.value, m, env.now))
            && (at.None? ==> FiledFresh(l, Receive(env, l, m), m, env.now))
  {
    FindByMrnFound(l.threads, m);
    var at := FindByMrn(l.threads, m);
    var l1 := WithThread(l, at);
    var i := if at.Some? then at.value else 0;
    FilingSendsNothing(env, l1.threads[i], m, l1.min);
  }

  /** The thread a reply belongs to, if it can still be used, is the one the search by MRN finds. */
  lemma SearchFindsOrigin(l: List, k: Link, e: Entry, i: nat)
    requires SideOk(l, k) && Arriving(l, k, e) && e.answers.Some? && !IsDisregard(e.msg)
    requires Usable(l, l.log[e.answers.value.min].thr, i)
    ensures FindByMrn(l.threads, e.msg) == Some(i)
  {
    var q := e.answers.value;
    assert InPlace(l.threads[i], l.log[q.min]);
    var pos := l.log[q.min].pos;
    assert Matches(e.msg, l.threads[i].buckets[pos]);
    FindByMrnFound(l.threads, e.msg);
    MatchIsAnswered(l, k, e, FindByMrn(l.threads, e.msg).value);
  }

  /** Where a message that passes the link has to end up: a reply in the one thread that holds the message
      it answers, or alone in a fresh thread when that thread was closed or removed; a message that
      answers nothing alone in a fresh thread. */
  ghost predicate FiledRight(l: List, l': List, e: Entry, now: int) {
    if e.answers.None? then FiledFresh(l, l', e.msg, now)
    else
      var q := e.answers.value;
      && q.min < |l.log| && l.log[q.min].msg == q
      && (forall i: nat :: Usable(l, l.log[q.min].thr, i) ==>
            Holding(l.threads[i], q, |l.threads[i].buckets|) && FiledAt(l, l', i, e.msg, now))
      && ((forall i: nat :: !Usable(l, l.log[q.min].thr, i)) ==> FiledFresh(l, l', e.msg, now))
  }

  lemma ReplyFiled(env: Env, l: List, k: Link, e: Entry)
    requires SideOk(l, k) && Arriving(l, k, e) && !IsDisregard(e.msg)
    ensures var at := FindByMrn(l.threads, e.msg); at.Some? ==> at.value < |l.threads|
    ensures FiledRight(l, Receive(env, l, e.msg), e, env.now)
  {
    ReceiveFiles(env, l, e.msg);
    FindByMrnFound(l.threads, e.msg);
    if e.answers.Some? {
      var q := e.answers.value;
      var id := l.log[q.min].thr;
      forall i: nat | Usable(l, id, i)
        ensures FindByMrn(l.threads, e.msg) == Some(i) && Holding(l.threads[i], q, |l.threads[i].buckets|)
      {
        SearchFindsOrigin(l, k, e, i);
        MatchIsAnswered(l, k, e, i);
      }
      var at := FindByMrn(l.threads, e.msg);
      if at.Some? {
        MatchIsAnswered(l, k, e, at.value);
        assert Usable(l, id, at.value);
      }
    }
  }

  // ----- where a DISREGARD ends up -----

  ghost predicate HoldsReceived(t: Thread, min: nat) {
    t.status != Closed && exists a :: 0 <= a < |t.buckets| && !t.buckets[a].sent && t.buckets[a].msg.min == min
  }

  /** Thread `i` is the oldest one, closed ones aside, that holds a received message of this MIN. */
  ghost predicate OldestReceived(l: List, min: nat, i: nat) {
    && i < |l.threads| && HoldsReceived(l.threads[i], min)
    && forall j :: i < j < |l.threads| ==> !HoldsReceived(l.threads[j], min)
  }

  ghost predicate NoneReceived(l: List, min: nat) {
    forall i :: 0 <= i < |l.threads| ==> !HoldsReceived(l.threads[i], min)
  }

  /** The received message whose number is that of the disregarded one sits in the same thread, or neither thread is
      there. */
  ghost predicate NumbersAgree(l: List, q: Msg)
    requires q.min < |l.log|
  {
    var id := l.log[q.min].thr;
    || (exists i: nat :: OldestReceived(l, q.min, i) && l.threads[i].id == id)
    || (NoneReceived(l, q.min) && forall i: nat :: !Usable(l, id, i))
  }

  lemma DisregardHolds(t: Thread, m: Msg, min: nat)
    requires IsDisregard(m) && m.mrn == Some(min)
    ensures Holds(t, m) <==> HoldsReceived(t, min)
  {
    if Holds(t, m) {
      var a :| 0 <= a < |t.buckets| && Matches(m, t.buckets[a]);
      assert !t.buckets[a].sent && t.buckets[a].msg.min == min;
    }
    if HoldsReceived(t, min) {
      var a :| 0 <= a < |t.buckets| && !t.buckets[a].sent && t.buckets[a].msg.min == min;
      assert Matches(m, t.buckets[a]);
    }
  }

  /** The search for a DISREGARD finds the oldest thread that received a message of that number. */
  lemma DisregardFound(l: List, m: Msg, min: nat)
    requires IsDisregard(m) && m.mrn == Some(min)
    ensures var at := FindByMrn(l.threads, m);
            if at.Some? then OldestReceived(l, min, at.value) else NoneReceived(l, min)
  {
    FindByMrnFound(l.threads, m);
    forall i | 0 <= i < |l.threads| ensures Holds(l.threads[i], m) <==> HoldsReceived(l.threads[i], min) {
      DisregardHolds(l.threads[i], m, min);
    }
  }

  lemma OldestIsOne(l: List, min: nat, i: nat, j: nat)
    requires OldestReceived(l, min, i) && OldestReceived(l, min, j)
    ensures i == j
  {
  }

  /** The thread of a sent message, if usable, holds it. */
  lemma OriginHolds(l: List, k: Link, q: Msg, i: nat)
    requires SideOk(l, k) && q.min < |l.log| && l.log[q.min].msg == q && Usable(l, l.log[q.min].thr, i)
    ensures Holding(l.threads[i], q, |l.threads[i].buckets|)
  {
    assert InPlace(l.threads[i], l.log[q.min]);
    var b := l.log[q.min].pos;
    assert l.threads[i].buckets[b].sent && l.threads[i].buckets[b].msg == q;
  }

  lemma FiledAtOne(l: List, l': List, i: nat, j: nat, m: Msg, now: int)
    requires FiledAt(l, l', i, m, now) && FiledAt(l, l', j, m, now)
    ensures i == j
  {
    assert |l'.threads[i].buckets| == |l.threads[i].buckets| + 1;
  }

  /** Filed in thread `at`: right exactly if that is the thread of the message answered. */
  lemma FiledThereIff(l: List, k: Link, l': List, e: Entry, at: nat, now: int)
    requires SideOk(l, k) && e.answers.Some? && FiledAt(l, l', at, e.msg, now) && l.threads[at].status != Closed
    requires e.answers.value.min < |l.log| && l.log[e.answers.value.min].msg == e.answers.value
    ensures FiledRight(l, l', e, now) <==> l.threads[at].id == l.log[e.answers.value.min].thr
  {
    var q := e.answers.value;
    var id := l.log[q.min].thr;
    if l.threads[at].id == id {
      assert Usable(l, id, at);
      forall i: nat | Usable(l, id, i) ensures i == at && Holding(l.threads[i], q, |l.threads[i].buckets|) {
        OriginHolds(l, k, q, i);
      }
    } else if FiledRight(l, l', e, now) {
      if i: nat :| Usable(l, id, i) { FiledAtOne(l, l', i, at, e.msg, now); }
    }
  }

  lemma FiledFreshIff(l: List, l': List, e: Entry, now: int)
    requires e.answers.Some? && FiledFresh(l, l', e.msg, now)
    requires e.answers.value.min < |l.log| && l.log[e.answers.value.min].msg == e.answers.value
    ensures FiledRight(l, l', e, now) <==> forall i: nat :: !Usable(l, l.log[e.answers.value.min].thr, i)
  {
  }

  /** Exactly when a DISREGARD is filed right: the MRN it bears is the number of a message this side sent, but it is
      looked up among the received ones, so it is right when the oldest thread with a received message of that
      number is the thread of the message disregarded, or when there is neither such a thread nor a usable thread of
      that message. */
  lemma DisregardFiledIff(env: Env, l: List, k: Link, e: Entry)
    requires SideOk(l, k) && Arriving(l, k, e) && IsDisregard(e.msg)
    ensures var at := FindByMrn(l.threads, e.msg); at.Some? ==> at.value < |l.threads|
    ensures FiledRight(l, Receive(env, l, e.msg), e, env.now) <==> e.answers.None? || NumbersAgree(l, e.answers.value)
  {
    ReceiveFiles(env, l, e.msg);
    if e.answers.Some? {
      var q, l' := e.answers.value, Receive(env, l, e.msg);
      var id, at := l.log[q.min].thr, FindByMrn(l.threads, e.msg);
      DisregardFound(l, e.msg, q.min);
      if at.Some? {
        FiledThereIff(l, k, l', e, at.value, env.now);
        forall i: nat | OldestReceived(l, q.min, i) ensures i == at.value { OldestIsOne(l, q.min, i, at.value); }
      } else {
        FiledFreshIff(l, l', e, env.now);
      }
    }
  }

  // ----- both sides -----

  /** `toAtc` and `toAir` count the messages of the aircraft and of ATC that have passed the link. */
  datatype World = World(air: List, gnd: List, toAtc: nat, toAir: nat)

  const START := World(EMPTY, EMPTY, 0, 0)

  /** A user of one list acts, or the next message of the link is delivered or lost on its way to ATC or the
      aircraft. */
  datatype Event = Act(atc: bool, env: Env, op: Op) | Pass(atc: bool, env: Env, lost: bool)

  function AirLink(w: World): Link { Link(false, w.gnd.log, w.toAir) }

  function AtcLink(w: World): Link { Link(true, w.air.log, w.toAtc) }

  ghost predicate WorldOk(w: World) {
    && SideOk(w.air, AirLink(w)) && SideOk(w.gnd, AtcLink(w))
    && w.toAtc <= |w.air.log| && w.toAir <= |w.gnd.log|
  }

  ghost predicate Enabled(w: World, ev: Event) {
    match ev
    case Act(atc, env, op) => Proper(op, atc) && env.isAtc == atc
    case Pass(atc, env, _) => env.isAtc == atc && if atc then w.toAtc < |w.air.log| else w.toAir < |w.gnd.log|
  }

  /** The message the next `Pass` in this direction carries. */
  ghost function Next(w: World, atc: bool): Entry
    requires if atc then w.toAtc < |w.air.log| else w.toAir < |w.gnd.log|
  {
    if atc then w.air.log[w.toAtc] else w.gnd.log[w.toAir]
  }

  ghost function StepWorld(w: World, ev: Event): World
    requires WorldOk(w) && Enabled(w, ev)
  {
    match ev
    case Act(atc, env, op) => if atc then w.(gnd := Step(env, w.gnd, op)) else w.(air := Step(env, w.air, op))
    case Pass(atc, env, lost) =>
      var m := Next(w, atc).msg;
      var drop := lost || !Fits(m, !atc);
      if atc then w.(gnd := if drop then w.gnd else Step(env, w.gnd, DoReceive(m)), toAtc := w.toAtc + 1)
      else w.(air := if drop then w.air else Step(env, w.air, DoReceive(m)), toAir := w.toAir + 1)
  }

  lemma {:induction false} UpdateLogGrows(env: Env, l: List, i: nat)
    requires AllNonEmpty(l.threads)
    ensures l.log <= UpdateFrom(env, l, i).log
    decreases |l.threads| - i
  {
    if i < |l.threads| { UpdateLogGrows(env, UpdAt(env, l, i), i + 1); }
  }

  lemma LogGrows(env: Env, l: List, op: Op)
    requires AllNonEmpty(l.threads)
    ensures l.log <= Step(env, l, op).log
  {
    if op.DoUpdate? { UpdateLogGrows(env, l, 0); }
  }

  /** What each side knows of the next message, seen from the other side. */
  lemma NextArrives(w: World, atc: bool)
    requires WorldOk(w) && if atc then w.toAtc < |w.air.log| else w.toAir < |w.gnd.log|
    requires Fits(Next(w, atc).msg, !atc)
    ensures atc ==> Arriving(w.gnd, AtcLink(w), Next(w, atc))
    ensures !atc ==> Arriving(w.air, AirLink(w), Next(w, atc))
  {
    assert atc ==> EntryOk(w.air.log[w.toAtc], AirLink(w));
    assert !atc ==> EntryOk(w.gnd.log[w.toAir], AtcLink(w));
  }

  lemma ActKeeps(w: World, ev: Event)
    requires WorldOk(w) && Enabled(w, ev) && ev.Act?
    ensures WorldOk(StepWorld(w, ev))
  {
    var w' := StepWorld(w, ev);
    if ev.atc {
      LocalFine(ev.env, w.gnd, ev.op, AtcLink(w));
      LogGrows(ev.env, w.gnd, ev.op);
      LinkGrows(w.air, AirLink(w), AirLink(w'));
    } else {
      LocalFine(ev.env, w.air, ev.op, AirLink(w));
      LogGrows(ev.env, w.air, ev.op);
      LinkGrows(w.gnd, AtcLink(w), AtcLink(w'));
    }
  }

  lemma LossKeeps(w: World, w': World)
    requires WorldOk(w) && w'.air == w.air && w'.gnd == w.gnd
    requires w.toAtc <= w'.toAtc <= |w.air.log| && w.toAir <= w'.toAir <= |w.gnd.log|
    ensures WorldOk(w')
  {
    LinkGrows(w.air, AirLink(w), AirLink(w'));
    LinkGrows(w.gnd, AtcLink(w), AtcLink(w'));
  }

  /** A delivery, seen from the receiver `me` over the link `k` and from its peer over the link `back`. */
  lemma BothKeep(env: Env, me: List, me': List, k: Link, peer: List, back: Link, e: Entry)
    requires SideOk(me, k) && SideOk(peer, back) && back.peer == me.log && back.seen <= |me.log|
    requires Arriving(me, k, e) && me' == Step(env, me, DoReceive(e.msg))
    ensures SideOk(me', k.(seen := k.seen + 1)) && SideOk(peer, back.(peer := me'.log)) && |me.log| <= |me'.log|
  {
    ReceiveFine(env, me, k, e);
    LogGrows(env, me, DoReceive(e.msg));
    LinkGrows(peer, back, back.(peer := me'.log));
  }

  lemma SidesOk(w: World, atc: Link, air: Link)
    requires atc == AtcLink(w) && air == AirLink(w) && SideOk(w.gnd, atc) && SideOk(w.air, air)
    requires w.toAtc <= |w.air.log| && w.toAir <= |w.gnd.log|
    ensures WorldOk(w)
  {
  }

  lemma DeliveryToAtcKeeps(w: World, env: Env, w': World)
    requires WorldOk(w) && w.toAtc < |w.air.log| && Fits(Next(w, true).msg, false)
    requires w' == w.(gnd := Step(env, w.gnd, DoReceive(Next(w, true).msg)), toAtc := w.toAtc + 1)
    ensures WorldOk(w')
  {
    NextArrives(w, true);
    BothKeep(env, w.gnd, w'.gnd, AtcLink(w), w.air, AirLink(w), Next(w, true));
    SidesOk(w', AtcLink(w).(seen := w.toAtc + 1), AirLink(w).(peer := w'.gnd.log));
  }

  lemma DeliveryToAirKeeps(w: World, env: Env, w': World)
    requires WorldOk(w) && w.toAir < |w.gnd.log| && Fits(Next(w, false).msg, true)
    requires w' == w.(air := Step(env, w.air, DoReceive(Next(w, false).msg)), toAir := w.toAir + 1)
    ensures WorldOk(w')
  {
    NextArrives(w, false);
    BothKeep(env, w.air, w'.air, AirLink(w), w.gnd, AtcLink(w), Next(w, false));
    SidesOk(w', AtcLink(w).(peer := w'.air.log), AirLink(w).(seen := w.toAir + 1));
  }

  lemma WorldStepOk(w: World, ev: Event)
    requires WorldOk(w) && Enabled(w, ev)
    ensures WorldOk(StepWorld(w, ev))
  {
    if ev.Act? { ActKeeps(w, ev); }
    else if ev.lost || !Fits(Next(w, ev.atc).msg, !ev.atc) { LossKeeps(w, StepWorld(w, ev)); }
    else if ev.atc { DeliveryToAtcKeeps(w, ev.env, StepWorld(w, ev)); }
    else { DeliveryToAirKeeps(w, ev.env, StepWorld(w, ev)); }
  }

  ghost predicate Moves(w: World, ev: Event, w': World) {
    WorldOk(w) ==> Enabled(w, ev) && w' == StepWorld(w, ev)
  }

  /** `ws` are the states that the events `evs` lead through, from two empty lists. */
  ghost predicate Behaves(ws: seq<World>, evs: seq<Event>) {
    |ws| == |evs| + 1 && ws[0] == START && forall i :: 0 <= i < |evs| ==> Moves(ws[i], evs[i], ws[i + 1])
  }

  lemma {:induction false} EveryStateOk(ws: seq<World>, evs: seq<Event>, i: nat)
    requires Behaves(ws, evs) && i < |ws|
    ensures WorldOk(ws[i])
  {
    if i > 0 {
      EveryStateOk(ws, evs, i - 1);
      assert Moves(ws[i - 1], evs[i - 1], ws[i - 1 + 1]);
      WorldStepOk(ws[i - 1], evs[i - 1]);
    }
  }

  function Side(w: World, atc: bool): List { if atc then w.gnd else w.air }

  function LinkOf(w: World, atc: bool): Link { if atc then AtcLink(w) else AirLink(w) }

  /** In every run, a message that is delivered and is no DISREGARD is filed where it belongs. */
  lemma EveryDeliveryFiledRight(ws: seq<World>, evs: seq<Event>, i: nat)
    requires Behaves(ws, evs) && i < |evs| && evs[i].Pass? && !evs[i].lost
    ensures WorldOk(ws[i]) && Enabled(ws[i], evs[i])
    ensures var atc := evs[i].atc; var e := Next(ws[i], atc);
            Fits(e.msg, !atc) && !IsDisregard(e.msg) ==>
              FiledRight(Side(ws[i], atc), Side(ws[i + 1], atc), e, evs[i].env.now)
  {
    EveryStateOk(ws, evs, i);
    var w, ev, atc := ws[i], evs[i], evs[i].atc;
    assert Moves(w, ev, ws[i + 1]);
    var e := Next(w, atc);
    if Fits(e.msg, !atc) && !IsDisregard(e.msg) {
      NextArrives(w, atc);
      ReplyFiled(ev.env, Side(w, atc), LinkOf(w, atc), e);
    }
  }

  /** In every run, a DISREGARD that is delivered is filed where it belongs exactly when the numbers agree. */
  lemma EveryDisregardFiledIff(ws: seq<World>, evs: seq<Event>, i: nat)
    requires Behaves(ws, evs) && i < |evs| && evs[i].Pass? && !evs[i].lost
    ensures WorldOk(ws[i]) && Enabled(ws[i], evs[i])
    ensures var atc := evs[i].atc; var e := Next(ws[i], atc); var l := Side(ws[i], atc);
            Fits(e.msg, !atc) && IsDisregard(e.msg) ==>
              && (e.answers.Some? ==> e.answers.value.min < |l.log|)
              && (FiledRight(l, Side(ws[i + 1], atc), e, evs[i].env.now)
                  <==> e.answers.None? || NumbersAgree(l, e.answers.value))
  {
    EveryStateOk(ws, evs, i);
    var w, ev, atc := ws[i], evs[i], evs[i].atc;
    assert Moves(w, ev, ws[i + 1]);
    var e := Next(w, atc);
    if Fits(e.msg, !atc) && IsDisregard(e.msg) {
      NextArrives(w, atc);
      DisregardFiledIff(ev.env, Side(w, atc), LinkOf(w, atc), e);
    }
  }

  /** In every reachable state a received reply that did not open its thread sits behind the very message
      it answers, on both sides. */
  lemma RepliesFollowTheirQuestions(ws: seq<World>, evs: seq<Event>, n: nat, atc: bool, i: nat, a: nat)
    requires Behaves(ws, evs) && n < |ws|
    requires i < |Side(ws[n], atc).threads| && 0 < a < |Side(ws[n], atc).threads[i].buckets|
    requires var b := Side(ws[n], atc).threads[i].buckets[a]; !b.sent && !IsDisregard(b.msg) && b.msg.mrn.Some?
    ensures var t := Side(ws[n], atc).threads[i]; var m := t.buckets[a].msg; var peer := Side(ws[n], !atc).log;
            && m.min < |peer| && peer[m.min].msg == m
            && exists c :: 0 <= c < a && t.buckets[c].sent && peer[m.min].answers == Some(t.buckets[c].msg)
                           && t.buckets[c].msg.min == m.mrn.value
  {
    EveryStateOk(ws, evs, n);
    var w := ws[n];
    var k := LinkOf(w, atc);
    var t := Side(w, atc).threads[i];
    var b := t.buckets[a];
    assert ThreadFine(t, k) && BucketOk(t, b, k);
    assert EntryOk(k.peer[b.msg.min], LinkOf(w, !atc));
    assert Holding(t, k.peer[b.msg.min].answers.value, a);
  }

  // ----- a run in which a DISREGARD goes astray -----

  const CLIMB := Msg(0, None, [Seg(false, 20, WU, 100)])
  const REQUEST := Msg(0, None, [Seg(true, 9, Y, 0)])
  const CANCEL := Msg(0, None, [Seg(false, 168, R, 0)])
  const DISREGARD := Msg(1, Some(0), [Seg(false, 168, R, 0)])

  function At0(atc: bool): Env { Env(0, atc, true, (_: nat) => SentOrUnknown) }

  const GND1 := List([Thread(0, Open, [Bucket(CLIMB, true, 0)], false, false, 0)], 1, 1, [Entry(CLIMB, 0, 0, None)])
  const AIR2 := List([Thread(0, Open, [Bucket(CLIMB, false, 0)], true, false, 0)], 0, 1, [])
  const AIR3 := List([Thread(1, Open, [Bucket(REQUEST, true, 0)], false, false, 0),
                      Thread(0, Open, [Bucket(CLIMB, false, 0)], true, false, 0)], 1, 2, [Entry(REQUEST, 1, 0, None)])
  const GND4 := List([Thread(1, Open, [Bucket(REQUEST, false, 0)], true, false, 0),
                      Thread(0, Open, [Bucket(CLIMB, true, 0)], false, false, 0)], 1, 2, [Entry(CLIMB, 0, 0, None)])
  const GND5 := List([Thread(1, Disregard, [Bucket(REQUEST, false, 0), Bucket(DISREGARD, true, 0)], true, false, 0),
                      Thread(0, Open, [Bucket(CLIMB, true, 0)], false, false, 0)], 2, 2,
                     [Entry(CLIMB, 0, 0, None), Entry(DISREGARD, 1, 1, Some(REQUEST))])

  lemma ClimbSent()
    ensures Step(At0(true), EMPTY, DoSend(CLIMB, None)) == GND1
  {
    var l := WithThread(EMPTY, None);
    assert l.threads == [NewThread(0)];
    var s := Emit(l.threads[0], CLIMB, 0, 0);
    assert s.thr.buckets == [Bucket(CLIMB, true, 0)];
    OneOpen(At0(true), s.thr, 1);
    assert EMPTY.log + [s.entry] == GND1.log && GND1.log + [] == GND1.log;
    assert l.threads[0 := s.thr][0 := s.thr] == GND1.threads;
  }

  /** A thread with one fresh message that wants an answer stays open. */
  lemma OneOpen(env: Env, t: Thread, min: nat)
    requires t.status == Open && |t.buckets| == 1 && t.buckets[0].time == 0 && env == At0(env.isAtc)
    requires t.buckets[0].msg == CLIMB || t.buckets[0].msg == REQUEST
    ensures StatusUpd(env, t, min) == Updated(t, None)
  {
    assert t.buckets[0].msg.segs[0].resp != N;
  }

  lemma ClimbReceived()
    ensures Step(At0(false), EMPTY, DoReceive(CLIMB)) == AIR2
  {
    var l := WithThread(EMPTY, None);
    assert l.threads == [NewThread(0)];
    var t := Filed(l.threads[0], CLIMB, 0);
    assert t.buckets == [Bucket(CLIMB, false, 0)];
    OneOpen(At0(false), t, 0);
    assert EMPTY.log + [] == EMPTY.log;
    assert l.threads[0 := t][0 := t] == AIR2.threads;
  }

  lemma RequestSent()
    ensures Step(At0(false), AIR2, DoSend(REQUEST, None)) == AIR3
  {
    var l := WithThread(AIR2, None);
    assert l.threads == [NewThread(1), AIR2.threads[0]];
    var s := Emit(l.threads[0], REQUEST, 0, 0);
    assert s.thr.buckets == [Bucket(REQUEST, true, 0)];
    OneOpen(At0(false), s.thr, 1);
    assert AIR2.log + [s.entry] == AIR3.log && AIR3.log + [] == AIR3.log;
    assert l.threads[0 := s.thr][0 := s.thr] == AIR3.threads;
  }

  lemma RequestReceived()
    ensures Step(At0(true), GND1, DoReceive(REQUEST)) == GND4
  {
    var l := WithThread(GND1, None);
    assert l.threads == [NewThread(1), GND1.threads[0]];
    var t := Filed(l.threads[0], REQUEST, 0);
    assert t.buckets == [Bucket(REQUEST, false, 0)];
    OneOpen(At0(true), t, 1);
    assert GND1.log + [] == GND1.log;
    assert l.threads[0 := t][0 := t] == GND4.threads;
  }

  lemma CancelSent()
    ensures Step(At0(true), GND4, DoSend(CANCEL, Some(1))) == GND5
  {
    assert IndexOf(GND4.threads, 1) == Some(0);
    var t := GND4.threads[0];
    assert LatestOpposite(t.buckets, false) == Some(REQUEST);
    var s := Emit(t, CANCEL, 1, 0);
    assert s.thr.buckets == [Bucket(REQUEST, false, 0), Bucket(DISREGARD, true, 0)];
    CancelJudged(s.thr);
    assert GND4.log + [s.entry] == GND5.log && GND5.log + [] == GND5.log;
    assert GND4.threads[0 := s.thr][0 := s.thr.(status := Disregard)] == GND5.threads;
  }

  lemma CancelJudged(t: Thread)
    requires t.status == Open && t.buckets == [Bucket(REQUEST, false, 0), Bucket(DISREGARD, true, 0)]
    ensures StatusUpd(At0(true), t, 2) == Updated(t.(status := Disregard), None)
  {
    assert t.buckets[1..] == [Bucket(DISREGARD, true, 0)];
    assert BucketsTimeout(t.buckets[1..]) == 0;
  }

  /** The aircraft's request and the controller's clearance bear the same number, 0. */
  lemma NumbersDisagree()
    ensures !NumbersAgree(AIR3, REQUEST)
  {
    assert HoldsReceived(AIR3.threads[1], 0) by { assert AIR3.threads[1].buckets[0].msg.min == 0; }
    assert !HoldsReceived(AIR3.threads[0], 0);
  }

  const WORLDS := [START, World(EMPTY, GND1, 0, 0), World(AIR2, GND1, 0, 1), World(AIR3, GND1, 0, 1),
                   World(AIR3, GND4, 1, 1), World(AIR3, GND5, 1, 1)]

  const EVENTS := [Act(true, At0(true), DoSend(CLIMB, None)), Pass(false, At0(false), false),
                   Act(false, At0(false), DoSend(REQUEST, None)), Pass(true, At0(true), false),
                   Act(true, At0(true), DoSend(CANCEL, Some(1))), Pass(false, At0(false), false)]

  lemma WorldsMove(i: nat)
    requires i < 5
    ensures Moves(WORLDS[i], EVENTS[i], WORLDS[i + 1])
  {
    if i == 0 { ClimbSent(); }
    else if i == 1 { ClimbReceived(); }
    else if i == 2 { RequestSent(); }
    else if i == 3 { RequestReceived(); }
    else { CancelSent(); }
  }

  /** A run in which a DISREGARD goes astray. ATC clears a climb, the aircraft asks for something else, and ATC
      disregards that request. All six messages and actions go through, but the aircraft files the DISREGARD under
      the climb. */
  lemma DisregardMisfiled() returns (ws: seq<World>)
    ensures Behaves(ws, EVENTS) && WorldOk(ws[5]) && ws[5] == WORLDS[5] && Enabled(ws[5], EVENTS[5])
    ensures var e := Next(ws[5], false);
            IsDisregard(e.msg) && e.answers == Some(REQUEST) && !FiledRight(ws[5].air, ws[6].air, e, 0)
  {
    var w6 := World(Step(At0(false), AIR3, DoReceive(DISREGARD)), GND5, 1, 2);
    ws := WORLDS + [w6];
    assert Moves(ws[5], EVENTS[5], ws[6]);
    forall i | 0 <= i < 6 ensures Moves(ws[i], EVENTS[i], ws[i + 1]) {
      if i < 5 { WorldsMove(i); }
    }
    EveryDisregardFiledIff(ws, EVENTS, 5);
    NumbersDisagree();
  }

  // ----- a run in which a controller's thread times out -----

  const LATER := Env(101, true, true, (_: nat) => SentOrUnknown)
  const DOWNLINK_ERROR := Msg(1, Some(0), [Seg(true, 62, N, 0)])
  const GND_TIMED_OUT := List(
    [Thread(0, TimedOut, [Bucket(CLIMB, true, 0), Bucket(DOWNLINK_ERROR, true, 101)], false, false, 1)], 2, 1,
    [Entry(CLIMB, 0, 0, None), Entry(DOWNLINK_ERROR, 0, 1, Some(CLIMB))])

  const TIMEOUT := [Act(true, At0(true), DoSend(CLIMB, None)), Act(true, LATER, DoUpdate)]

  lemma ClimbTimesOut(t: Thread)
    requires t == GND1.threads[0]
    ensures Judge(LATER, t) == Expire && LatestOpposite(t.buckets, true) == Some(CLIMB)
  {
    assert t.buckets[1..] == [] && CLIMB.segs[1..] == [];
    assert SegsTimeout(CLIMB.segs) == 100 && BucketsTimeout(t.buckets) == 100;
    assert CLIMB.segs[0].resp != N;
  }

  lemma UpdateOne(env: Env, l: List)
    requires |l.threads| == 1 && AllNonEmpty(l.threads)
    ensures UpdateFrom(env, l, 0) == UpdAt(env, l, 0)
  {
    assert UpdateFrom(env, UpdAt(env, l, 0), 1) == UpdAt(env, l, 0);
  }

  lemma ClimbUpdated()
    ensures Step(LATER, GND1, DoUpdate) == GND_TIMED_OUT
  {
    var t := GND1.threads[0];
    ClimbTimesOut(t);
    var s := Emit(t, TimeoutError(CLIMB), 1, 101);
    assert s.thr.buckets == GND_TIMED_OUT.threads[0].buckets && s.entry == GND_TIMED_OUT.log[1];
    assert GND1.threads[0 := GND_TIMED_OUT.threads[0]] == GND_TIMED_OUT.threads;
    assert GND1.log + [s.entry] == GND_TIMED_OUT.log;
    assert UpdAt(LATER, GND1, 0) == GND_TIMED_OUT;
    UpdateOne(LATER, GND1);
  }

  /** A clearance that is not answered in time: the controller's list sends a downlink, which no link takes from it. */
  lemma ControllerTimesOut() returns (ws: seq<World>)
    ensures Behaves(ws, TIMEOUT) && |ws[2].gnd.log| == 2
    ensures Is(ws[2].gnd.log[1].msg, true, 62) && !Fits(ws[2].gnd.log[1].msg, true)
  {
    ClimbSent();
    ClimbUpdated();
    ws := [START, World(EMPTY, GND1, 0, 0), World(EMPTY, GND_TIMED_OUT, 0, 0)];
    assert Moves(ws[0], TIMEOUT[0], ws[1]) && Moves(ws[1], TIMEOUT[1], ws[2]);
  }
}
