/** The message list as the program runs it: fields updated in place, searches as loops. */
module MsgListImpl {
  import opened Options
  import opened Threads

  /** A least timeout as the loops hold it: UINT32_MAX stands for "none yet". */
  ghost function Capped(t: nat): nat { if t == 0 || t > UINT32_MAX then UINT32_MAX else t }

  ghost function Min(a: nat, b: nat): nat { if a < b then a else b }

  lemma {:induction false} SegsTimeoutSnoc(s: seq<Seg>, x: Seg)
    ensures SegsTimeout(s + [x]) == LessTimeout(SegsTimeout(s), x.timeout)
  {
    if s == [] {
      assert s + [x] == [x] && [x][1..] == [];
    } else {
      assert (s + [x])[1..] == s[1..] + [x];
      SegsTimeoutSnoc(s[1..], x);
    }
  }

  lemma {:induction false} BucketsTimeoutSnoc(bs: seq<Bucket>, b: Bucket)
    ensures BucketsTimeout(bs + [b]) == LessTimeout(BucketsTimeout(bs), SegsTimeout(b.msg.segs))
  {
    if bs == [] {
      assert bs + [b] == [b] && [b][1..] == [];
    } else {
      assert (bs + [b])[1..] == bs[1..] + [b];
      BucketsTimeoutSnoc(bs[1..], b);
    }
  }

  /** The inner loop of `thr_get_timeout`. */
  method LeastOf(segs: seq<Seg>, start: nat) returns (timeout: nat)
    requires start <= UINT32_MAX
    ensures timeout == Min(start, Capped(SegsTimeout(segs)))
  {
    timeout := start;
    var i := 0;
    while i < |segs|
      invariant i <= |segs| && timeout == Min(start, Capped(SegsTimeout(segs[..i])))
    {
      assert segs[..i + 1] == segs[..i] + [segs[i]];
      SegsTimeoutSnoc(segs[..i], segs[i]);
      if segs[i].timeout != 0 && segs[i].timeout < timeout { timeout := segs[i].timeout; }
      i := i + 1;
    }
    assert segs[..i] == segs;
  }

  /** `thr_get_timeout`: the least timeout of any segment of any message of the thread, 0 if none has one. */
  method GetTimeout(bs: seq<Bucket>) returns (r: nat)
    ensures r == ThreadTimeout(bs)
  {
    var timeout := UINT32_MAX;
    var a := 0;
    while a < |bs|
      invariant a <= |bs| && timeout == Capped(BucketsTimeout(bs[..a]))
    {
      assert bs[..a + 1] == bs[..a] + [bs[a]];
      BucketsTimeoutSnoc(bs[..a], bs[a]);
      timeout := LeastOf(bs[a].msg.segs, timeout);
      a := a + 1;
    }
    assert bs[..a] == bs;
    r := if timeout < UINT32_MAX then timeout else 0;
  }

  /** The least-timeout fold means what its name says. */
  lemma {:induction false} BucketsTimeoutIsLeast(bs: seq<Bucket>, a: nat, i: nat)
    requires a < |bs| && i < |bs[a].msg.segs| && bs[a].msg.segs[i].timeout != 0
    ensures 0 < BucketsTimeout(bs) <= bs[a].msg.segs[i].timeout
  {
    if a == 0 { SegsTimeoutIsLeast(bs[0].msg.segs, i); }
    else { BucketsTimeoutIsLeast(bs[1..], a - 1, i); }
  }

  lemma {:induction false} SegsTimeoutIsLeast(segs: seq<Seg>, i: nat)
    requires i < |segs| && segs[i].timeout != 0
    ensures 0 < SegsTimeout(segs) <= segs[i].timeout
  {
    if i > 0 { SegsTimeoutIsLeast(segs[1..], i - 1); }
  }

  /** `msg_req_resp`. */
  method NeedsResponse(m: Msg) returns (r: bool)
    ensures r == ReqResp(m)
  {
    var i := 0;
    while i < |m.segs|
      invariant i <= |m.segs| && forall j :: 0 <= j < i ==> m.segs[j].resp == N || m.segs[j].resp == NE
    {
      if m.segs[i].resp != N && m.segs[i].resp != NE { return true; }
      i := i + 1;
    }
    return false;
  }

  /** The bucket search of `msg_thr_find_by_mrn`, newest bucket first. */
  method SearchThread(t: Thread, m: Msg) returns (r: bool)
    ensures r == Holds(t, m)
  {
    if t.status == Closed { return false; }
    var a := |t.buckets|;
    while a > 0
      invariant 0 <= a <= |t.buckets| && forall j :: a <= j < |t.buckets| ==> !Matches(m, t.buckets[j])
    {
      a := a - 1;
      if Matches(m, t.buckets[a]) { return true; }
    }
    return false;
  }

  /** `msg_thr_find_by_mrn`, oldest thread first. */
  method FindThread(ts: seq<Thread>, m: Msg) returns (at: Option<nat>)
    ensures at == FindByMrn(ts, m)
    ensures at.Some? ==> at.value < |ts|
  {
    if m.mrn.None? { return None; }
    var n := |ts|;
    assert ts[..n] == ts;
    while n > 0
      invariant 0 <= n <= |ts| && FindByMrn(ts, m) == FindByMrn(ts[..n], m)
    {
      var found := SearchThread(ts[n - 1], m);
      if found { return Some(n - 1); }
      n := n - 1;
      assert ts[..n + 1][..n] == ts[..n];
    }
    assert ts[..n] == [];
    return None;
  }

  /** The loop of `msglist_send_impl` that picks the MRN. */
  method Stamp(bs: seq<Bucket>, m: Msg, min: nat) returns (r: Msg)
    ensures r == Stamped(bs, m, min)
  {
    r := m.(min := min);
    var n := |bs|;
    assert bs[..n] == bs;
    while n > 0
      invariant 0 <= n <= |bs| && LatestOpposite(bs, IsDl(m)) == LatestOpposite(bs[..n], IsDl(m))
      invariant r == m.(min := min)
    {
      if IsDl(bs[n - 1].msg) != IsDl(m) {
        r := r.(mrn := Some(bs[n - 1].msg.min));
        return;
      }
      n := n - 1;
      assert bs[..n + 1][..n] == bs[..n];
    }
    assert bs[..n] == [];
  }

  /** The cascade of `thr_status_upd`. */
  method Decide(env: Env, t: Thread) returns (v: Verdict)
    requires t.buckets != []
    ensures v == Judge(env, t)
  {
    var last := t.buckets[|t.buckets| - 1];
    var timeout := GetTimeout(t.buckets);
    var resp := NeedsResponse(last.msg);
    if |t.buckets| == 1 && !resp { v := Become(Closed, false); }
    else if last.sent && !env.isAtc && IsDlReq(last.msg) {
      match env.sending(last.msg.min)
      case Sending => v := Become(Pending, false);
      case SendFailed => v := Become(Failed, false);
      case SentOrUnknown => v := Become(Open, false);
    } else if IsStandby(last.msg) { v := Become(Standby, false); }
    else if IsAccept(last.msg) { v := Become(Accepted, false); }
    else if t.status != Standby && timeout != 0 && env.now - last.time > timeout { v := Expire; }
    else if IsReject(last.msg) { v := Become(Rejected, false); }
    else if IsRoger(last.msg) || IsLinkMgmt(last.msg) { v := Become(Closed, false); }
    else if IsDisregard(last.msg) { v := Become(Disregard, false); }
    else if IsErrorMsg(last.msg) { v := Become(Error, true); }
    else if !env.online { v := Become(ConnEnded, true); }
    else { v := Keep; }
  }

  /** The search of `find_msg_thr` for a given id. */
  method FindId(ts: seq<Thread>, id: nat) returns (at: Option<nat>)
    ensures at == IndexOf(ts, id)
    ensures if at.Some? then at.value < |ts| && ts[at.value].id == id else forall i :: 0 <= i < |ts| ==> ts[i].id != id
  {
    var i := 0;
    while i < |ts|
      invariant i <= |ts| && forall j :: 0 <= j < i ==> ts[j].id != id
    {
      if ts[i].id == id { FirstWithId(ts, id, i); return Some(i); }
      i := i + 1;
    }
    IndexOfFound(ts, id);
    return None;
  }

  lemma {:induction false} FirstWithId(ts: seq<Thread>, id: nat, i: nat)
    requires i < |ts| && ts[i].id == id && forall j :: 0 <= j < i ==> ts[j].id != id
    ensures IndexOf(ts, id) == Some(i)
  {
    if i > 0 {
      assert forall j :: 0 <= j < |ts| - 1 ==> ts[1..][j] == ts[j + 1];
      FirstWithId(ts[1..], id, i - 1);
    }
  }

  class MsgList {
    var threads: seq<Thread>
    var min: nat
    var nextId: nat
    ghost var log: seq<Entry>

    ghost function Value(): List
      reads this
    {
      List(threads, min, nextId, log)
    }

    ghost predicate Valid()
      reads this
    {
      ListOk(Value())
    }

    constructor ()
      ensures Valid() && Value() == EMPTY
    {
      threads, min, nextId, log := [], 0, 0, [];
    }

    /** `find_msg_thr` for CPDLC_NO_MSG_THR_ID: a new thread at the head. */
    method AddThread()
      modifies this
      ensures Value() == WithThread(old(Value()), None)
    {
      threads, nextId := [NewThread(nextId)] + threads, nextId + 1;
    }

    /** The body of `msglist_send_impl` once the thread is known. */
    method Append(i: nat, m: Msg, now: int)
      requires i < |threads|
      modifies this
      ensures var s := old(Emit(threads[i], m, min, now));
              Value() == old(Value()).(threads := old(threads)[i := s.thr], min := old(min) + 1,
                                       log := old(log) + [s.entry])
    {
      var t := threads[i];
      var m' := Stamp(t.buckets, m, min);
      log := log + [Entry(m', t.id, |t.buckets|, LatestOpposite(t.buckets, IsDl(m)))];
      threads := threads[i := t.(buckets := t.buckets + [Bucket(m', true, now)])];
      min := min + 1;
    }

    /** `thr_status_upd`. */
    method UpdateStatus(env: Env, i: nat)
      requires i < |threads| && threads[i].buckets != []
      modifies this
      ensures Value() == UpdAt(env, old(Value()), i)
    {
      var t := threads[i];
      assert log + [] == log;
      assert threads[i := t] == threads;
      if IsFinal(t.status) { return; }
      var v := Decide(env, t);
      match v
      case Keep =>
      case Become(st, clear) => threads := threads[i := t.(status := st, dirty := t.dirty && !clear)];
      case Expire =>
        Append(i, TimeoutError(t.buckets[|t.buckets| - 1].msg), env.now);
        threads := threads[i := threads[i].(status := TimedOut, dirty := false, timeouts := threads[i].timeouts + 1)];
    }

    /** `cpdlc_msglist_send` once the thread is known. */
    method SendInto(env: Env, m: Msg, i: nat)
      requires i < |threads|
      modifies this
      ensures Value() == Threads.Send(env, old(Value()), m, Some(i))
    {
      Append(i, m, env.now);
      UpdateStatus(env, i);
    }

    method SendNew(env: Env, m: Msg)
      modifies this
      ensures Value() == Threads.Send(env, old(Value()), m, None)
    {
      AddThread();
      SendInto(env, m, 0);
    }

    method TrySend(env: Env, m: Msg, thr: Option<nat>) returns (ok: bool)
      requires AllNonEmpty(threads)
      modifies this
      ensures Value() == Step(env, old(Value()), DoSend(m, thr))
      ensures !ok ==> Value() == old(Value())
    {
      if m.segs == [] { return false; }
      if thr.None? {
        SendNew(env, m);
        return true;
      }
      var at := FindId(threads, thr.value);
      if at.None? || IsFinal(threads[at.value].status) { return false; }
      SendInto(env, m, at.value);
      return true;
    }

    /** `cpdlc_msglist_send`; `thr` is None for CPDLC_NO_MSG_THR_ID. Sending into an unknown or finished
        thread trips an assertion of the program and is refused here. */
    method Send(env: Env, m: Msg, thr: Option<nat>) returns (ok: bool)
      requires Valid()
      modifies this
      ensures Valid() && Value() == Step(env, old(Value()), DoSend(m, thr))
      ensures !ok ==> Value() == old(Value())
    {
      StepOk(env, Value(), DoSend(m, thr));
      ok := TrySend(env, m, thr);
    }

    /** One turn of the loop of `msg_recv_cb`. */
    method Receive(env: Env, m: Msg)
      requires Valid() && m.segs != []
      modifies this
      ensures Valid() && Value() == Step(env, old(Value()), DoReceive(m))
    {
      StepOk(env, Value(), DoReceive(m));
      var at := FindThread(threads, m);
      if at.None? { AddThread(); }
      var i := if at.Some? then at.value else 0;
      threads := threads[i := Filed(threads[i], m, env.now)];
      UpdateStatus(env, i);
    }

    /** `cpdlc_msglist_update`. */
    method Update(env: Env)
      requires Valid()
      modifies this
      ensures Valid() && Value() == Step(env, old(Value()), DoUpdate)
    {
      var i := 0;
      while i < |threads|
        invariant i <= |threads| && Valid()
        invariant UpdateFrom(env, Value(), i) == UpdateFrom(env, old(Value()), 0)
        decreases |threads| - i
      {
        UpdAtOk(env, Value(), i);
        UpdateStatus(env, i);
        i := i + 1;
      }
    }

    /** `cpdlc_msglist_thr_close`. */
    method Close(env: Env, thr: nat)
      requires Valid()
      modifies this
      ensures Valid() && Value() == Step(env, old(Value()), DoClose(thr))
    {
      StepOk(env, Value(), DoClose(thr));
      var at := FindId(threads, thr);
      if at.Some? && !IsFinal(threads[at.value].status) {
        threads := threads[at.value := threads[at.value].(status := Closed)];
      }
    }

    /** `cpdlc_msglist_remove_thr`. */
    method Remove(env: Env, thr: nat)
      requires Valid()
      modifies this
      ensures Valid() && Value() == Step(env, old(Value()), DoRemove(thr))
    {
      StepOk(env, Value(), DoRemove(thr));
      var at := FindId(threads, thr);
      if at.Some? { threads := threads[..at.value] + threads[at.value + 1..]; }
    }
  }
}
