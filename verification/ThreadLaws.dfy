/** What a sent message answers and which status a thread gets, in terms of positions and message numbers. */
module ThreadLaws {
  import opened Options
  import opened Threads

  /** The message starts with a downlink. */
  predicate Down(m: Msg) { m.segs != [] && m.segs[0].isDl }

  /** The message starts with a downlink of one of these numbers. */
  predicate DM(m: Msg, nrs: set<nat>) { m.segs != [] && m.segs[0].isDl && m.segs[0].msgType in nrs }

  predicate UM(m: Msg, nrs: set<nat>) { m.segs != [] && !m.segs[0].isDl && m.segs[0].msgType in nrs }

  // ----- which message a sent one answers -----

  /** Of the first `n` messages, the one at `b` is the last of the direction other than `dl`. */
  ghost predicate LastOther(bs: seq<Bucket>, n: nat, dl: bool, b: nat) {
    b < n <= |bs| && Down(bs[b].msg) != dl && forall x :: b < x < n ==> Down(bs[x].msg) == dl
  }

  ghost predicate NoOther(bs: seq<Bucket>, n: nat, dl: bool) {
    n <= |bs| && forall x :: 0 <= x < n ==> Down(bs[x].msg) == dl
  }

  lemma {:induction false} LatestOppositeAt(bs: seq<Bucket>, dl: bool, b: nat)
    requires LastOther(bs, |bs|, dl, b)
    ensures LatestOpposite(bs, dl) == Some(bs[b].msg)
  {
    if b < |bs| - 1 {
      var p := bs[..|bs| - 1];
      assert Down(bs[|bs| - 1].msg) == dl && LastOther(p, |p|, dl, b);
      LatestOppositeAt(p, dl, b);
    }
  }

  lemma {:induction false} LatestOppositeNowhere(bs: seq<Bucket>, dl: bool)
    requires NoOther(bs, |bs|, dl)
    ensures LatestOpposite(bs, dl) == None
  {
    if bs != [] { LatestOppositeNowhere(bs[..|bs| - 1], dl); }
  }

  /** A sent message gets the next MIN, and as MRN the MIN of the last message of the other direction in its thread;
      where there is none it keeps its own. */
  lemma SentAnswersLast(t: Thread, m: Msg, min: nat, now: int, b: nat)
    ensures var s := Emit(t, m, min, now);
            && s.thr == t.(buckets := t.buckets + [Bucket(s.entry.msg, true, now)])
            && s.entry.msg.segs == m.segs && s.entry.msg.min == min && s.entry.thr == t.id && s.entry.pos == |t.buckets|
    ensures LastOther(t.buckets, |t.buckets|, Down(m), b) ==>
              var e := Emit(t, m, min, now).entry;
              e.msg.mrn == Some(t.buckets[b].msg.min) && e.answers == Some(t.buckets[b].msg)
    ensures NoOther(t.buckets, |t.buckets|, Down(m)) ==>
              var e := Emit(t, m, min, now).entry; e.msg.mrn == m.mrn && e.answers == None
  {
    if LastOther(t.buckets, |t.buckets|, Down(m), b) { LatestOppositeAt(t.buckets, Down(m), b); }
    if NoOther(t.buckets, |t.buckets|, Down(m)) { LatestOppositeNowhere(t.buckets, Down(m)); }
  }

  // ----- the status table -----

  /** A message that needs no response, alone in its thread. */
  ghost predicate Lone(t: Thread) {
    |t.buckets| == 1 && forall i :: 0 <= i < |t.buckets[0].msg.segs| ==> t.buckets[0].msg.segs[i].resp in {N, NE}
  }

  ghost predicate RequestNr(n: nat) { 6 <= n <= 27 || 49 <= n <= 54 || n == 70 || n == 71 }

  /** The last message is a request that this aircraft sent. */
  ghost predicate OwnRequest(env: Env, b: Bucket) {
    b.sent && !env.isAtc && b.msg.segs != [] && b.msg.segs[0].isDl && RequestNr(b.msg.segs[0].msgType)
  }

  /** Some segment in the thread has a timeout, and that time has passed since the last message. */
  ghost predicate Late(env: Env, t: Thread)
    requires t.buckets != []
  {
    t.status != Standby
    && exists a, i :: 0 <= a < |t.buckets| && 0 <= i < |t.buckets[a].msg.segs|
                      && 0 < t.buckets[a].msg.segs[i].timeout < 0xffff_ffff
                      && env.now - t.buckets[|t.buckets| - 1].time > t.buckets[a].msg.segs[i].timeout
  }

  lemma {:induction false} SegsLeast(segs: seq<Seg>, x: int)
    ensures 0 < SegsTimeout(segs) < x <==> exists i :: 0 <= i < |segs| && 0 < segs[i].timeout < x
  {
    if segs != [] {
      SegsLeast(segs[1..], x);
      assert forall i :: 0 < i < |segs| ==> segs[i] == segs[1..][i - 1];
      if i :| 0 <= i < |segs[1..]| && 0 < segs[1..][i].timeout < x { assert segs[i + 1] == segs[1..][i]; }
    }
  }

  ghost predicate TimedSeg(b: Bucket, x: int) { exists i :: 0 <= i < |b.msg.segs| && 0 < b.msg.segs[i].timeout < x }

  lemma {:induction false} BucketsLeast(bs: seq<Bucket>, x: int)
    ensures 0 < BucketsTimeout(bs) < x <==> exists a :: 0 <= a < |bs| && TimedSeg(bs[a], x)
  {
    if bs != [] {
      SegsLeast(bs[0].msg.segs, x);
      BucketsLeast(bs[1..], x);
      assert forall a :: 0 < a < |bs| ==> bs[a] == bs[1..][a - 1];
      if a :| 0 <= a < |bs[1..]| && TimedSeg(bs[1..][a], x) { assert bs[a + 1] == bs[1..][a]; }
    }
  }

  lemma LateIff(env: Env, t: Thread)
    requires t.buckets != []
    ensures Late(env, t) <==> TimesOut(env, t)
  {
    var d := env.now - t.buckets[|t.buckets| - 1].time;
    var x := if d < 0xffff_ffff then d else 0xffff_ffff;
    BucketsLeast(t.buckets, x);
    BucketsLeast(t.buckets, 0xffff_ffff);
    if TimesOut(env, t) {
      var a :| 0 <= a < |t.buckets| && TimedSeg(t.buckets[a], x);
    }
    if Late(env, t) {
      var a, i :| 0 <= a < |t.buckets| && 0 <= i < |t.buckets[a].msg.segs|
                  && 0 < t.buckets[a].msg.segs[i].timeout < 0xffff_ffff && d > t.buckets[a].msg.segs[i].timeout;
      assert TimedSeg(t.buckets[a], x);
    }
  }

  /** A finished thread is left alone. */
  lemma FinishedStays(env: Env, t: Thread, min: nat)
    requires t.buckets != []
    requires t.status in {Closed, Accepted, Rejected, TimedOut, Disregard, Failed, Error, ConnEnded}
    ensures StatusUpd(env, t, min) == Updated(t, None)
  {
  }

  /** The status of an unfinished thread whose last message is `last`, if it is neither alone nor a request. */
  ghost function TableStatus(env: Env, before: Status, last: Msg, late: bool): Status {
    if DM(last, {2}) || UM(last, {1}) then Standby
    else if DM(last, {0, 4}) || UM(last, {4}) then Accepted
    else if late then TimedOut
    else if DM(last, {1, 5, 62}) || UM(last, {0, 5, 159}) then Rejected
    else if DM(last, {3}) || UM(last, {3, 160, 161}) then Closed
    else if UM(last, {168}) then Disregard
    else if env.online then before
    else ConnEnded
  }

  /** The tests of the program, by numbers. */
  lemma Kinds(m: Msg)
    ensures IsStandby(m) <==> DM(m, {2}) || UM(m, {1})
    ensures IsAccept(m) <==> DM(m, {0, 4}) || UM(m, {4})
    ensures IsReject(m) <==> DM(m, {1, 5, 62}) || UM(m, {0, 5, 159})
    ensures IsRoger(m) || IsLinkMgmt(m) <==> DM(m, {3}) || UM(m, {3, 160, 161})
    ensures IsDisregard(m) <==> UM(m, {168})
    ensures IsErrorMsg(m) ==> IsReject(m)
  {
  }

  lemma LoneIff(t: Thread)
    requires t.buckets != []
    ensures Lone(t) <==> |t.buckets| == 1 && !ReqResp(t.buckets[|t.buckets| - 1].msg)
  {
  }

  /** What the cascade makes of a thread whose last message is neither alone nor a request. */
  lemma TableCase(env: Env, t: Thread, last: Msg, j: Verdict)
    requires t.buckets != [] && last == t.buckets[|t.buckets| - 1].msg && j == Judge(env, t)
    requires !Lone(t) && !OwnRequest(env, t.buckets[|t.buckets| - 1])
    ensures var st := TableStatus(env, t.status, last, Late(env, t));
            match j
            case Keep => st == t.status
            case Become(x, _) => st == x && st != TimedOut
            case Expire => st == TimedOut
  {
    LoneIff(t);
    LateIff(env, t);
    Kinds(last);
  }

  /** The status table: what an update makes of an unfinished thread. */
  lemma StatusTable(env: Env, t: Thread, min: nat)
    requires t.buckets != [] && t.status in {Open, Standby, Pending}
    ensures var st, last := StatusUpd(env, t, min).thr.status, t.buckets[|t.buckets| - 1];
            st == if Lone(t) then Closed
                  else if OwnRequest(env, last) then
                    (match env.sending(last.msg.min)
                     case Sending => Pending
                     case SendFailed => Failed
                     case SentOrUnknown => Open)
                  else TableStatus(env, t.status, last.msg, Late(env, t))
  {
    LoneIff(t);
    if !Lone(t) && !OwnRequest(env, t.buckets[|t.buckets| - 1]) {
      TableCase(env, t, t.buckets[|t.buckets| - 1].msg, Judge(env, t));
    }
  }

  /** An update sends exactly the error of a thread that times out, DM62, and changes no message. */
  lemma UpdateSends(env: Env, t: Thread, min: nat)
    requires t.buckets != [] && t.status in {Open, Standby, Pending}
    ensures var u := StatusUpd(env, t, min);
            if u.thr.status == TimedOut then
              && u.sent.Some? && u.thr.buckets == t.buckets + [Bucket(u.sent.value.msg, true, env.now)]
              && u.sent.value.msg.segs == [Seg(true, 62, N, 0)] && !u.thr.dirty
            else
              && u.sent == None && u.thr.buckets == t.buckets
              && u.thr.dirty == (t.dirty && u.thr.status != ConnEnded)
  {
    NeverJudgedError(env, t);
  }

  /** A received message is the last of its thread from then on, the thread is not reviewed any more and, unless the
      connection has ended, marked as changed. It never times out at once. */
  lemma ReceivedIsNews(env: Env, t: Thread, m: Msg, min: nat)
    ensures var u := StatusUpd(env, Filed(t, m, env.now), min);
            && u.thr.buckets == t.buckets + [Bucket(m, false, env.now)] && u.sent == None && !u.thr.reviewed
            && (u.thr.status != ConnEnded ==> u.thr.dirty)
  {
    var t1 := Filed(t, m, env.now);
    assert t1.status.Open? || t1.status.Standby? || t1.status.Pending? || IsFinal(t1.status);
    if t1.status in {Open, Standby, Pending} {
      StatusTable(env, t1, min);
      UpdateSends(env, t1, min);
    } else {
      FinishedStays(env, t1, min);
    }
  }

  // ----- where each call lands -----

  /** Thread `i` becomes `t`, and no other changes. */
  ghost predicate OnlyAt(l: List, l': List, i: nat, t: Thread) {
    |l'.threads| == |l.threads| && i < |l.threads| && l'.threads[i] == t
    && forall j :: 0 <= j < |l.threads| && j != i ==> l'.threads[j] == l.threads[j]
  }

  lemma IndexIs(ts: seq<Thread>, i: nat)
    requires i < |ts| && forall j, k :: 0 <= j < k < |ts| ==> ts[j].id != ts[k].id
    ensures IndexOf(ts, ts[i].id) == Some(i)
  {
    IndexOfFound(ts, ts[i].id);
  }

  /** Closing a thread closes it, unless it is finished, and touches no other. */
  lemma CloseCloses(env: Env, l: List, i: nat)
    requires ListOk(l) && i < |l.threads|
    ensures var t := l.threads[i];
            OnlyAt(l, Step(env, l, DoClose(t.id)), i,
                   if t.status in {Open, Standby, Pending} then t.(status := Closed) else t)
  {
    IndexIs(l.threads, i);
    assert l.threads[i].status.Open? || l.threads[i].status.Standby? || l.threads[i].status.Pending?
           || IsFinal(l.threads[i].status);
  }

  /** Removing a thread removes it, and no other. */
  lemma RemoveRemoves(env: Env, l: List, i: nat)
    requires ListOk(l) && i < |l.threads|
    ensures Step(env, l, DoRemove(l.threads[i].id)).threads == l.threads[..i] + l.threads[i + 1..]
  {
    IndexIs(l.threads, i);
  }

  /** A message sent into an unfinished thread joins it, behind what it holds, with the next MIN; nothing else changes
      but that thread's status. Into a finished thread nothing is sent. */
  lemma SendLands(env: Env, l: List, m: Msg, i: nat)
    requires ListOk(l) && i < |l.threads| && m.segs != []
    ensures var t, l' := l.threads[i], Step(env, l, DoSend(m, Some(l.threads[i].id)));
            if t.status in {Open, Standby, Pending} then
              && OnlyAt(l, l', i, StatusUpd(env, Emit(t, m, l.min, env.now).thr, l.min + 1).thr)
              && l'.threads[i].buckets == t.buckets + [Bucket(Emit(t, m, l.min, env.now).entry.msg, true, env.now)]
            else l' == l
  {
    IndexIs(l.threads, i);
    var t := l.threads[i];
    assert t.status.Open? || t.status.Standby? || t.status.Pending? || IsFinal(t.status);
    if t.status in {Open, Standby, Pending} {
      var t1 := Emit(t, m, l.min, env.now).thr;
      StatusTable(env, t1, l.min + 1);
      UpdateSends(env, t1, l.min + 1);
    }
  }

  /** A message sent into no thread opens one in front, with a fresh number and nothing else in it. */
  lemma SendOpens(env: Env, l: List, m: Msg)
    requires ListOk(l) && m.segs != []
    ensures var l' := Step(env, l, DoSend(m, None));
            && l'.nextId == l.nextId + 1 && |l'.threads| == |l.threads| + 1 && l'.threads[1..] == l.threads
            && l'.threads[0].id == l.nextId
            && l'.threads[0].buckets == [Bucket(m.(min := l.min), true, env.now)]
  {
    var t := NewThread(l.nextId);
    var t1 := Emit(t, m, l.min, env.now).thr;
    assert t1.buckets == [Bucket(m.(min := l.min), true, env.now)];
    StatusTable(env, t1, l.min + 1);
    UpdateSends(env, t1, l.min + 1);
  }

  // ----- all that can happen to one thread in one call -----

  /** `t'` is `t` after a status update that used MIN `min`, if any; what it sent is in the log. */
  ghost predicate RefreshedWith(env: Env, t: Thread, t': Thread, min: nat, log: seq<Entry>)
    requires t.buckets != []
  {
    var u := StatusUpd(env, t, min);
    t' == u.thr && (u.sent.Some? ==> min < |log| && log[min] == u.sent.value)
  }

  ghost predicate Refreshed(env: Env, t: Thread, t': Thread, log: seq<Entry>) {
    t.buckets != [] && exists min :: RefreshedWith(env, t, t', min, log)
  }

  /** `t'` comes of `t` by the operation. */
  ghost predicate Comes(env: Env, op: Op, t: Thread, t': Thread, min: nat, log: seq<Entry>) {
    match op
    case DoSend(m, _) =>
      t' == t || (var s := Emit(t, m, min, env.now);
                  min < |log| && log[min] == s.entry && Refreshed(env, s.thr, t', log))
    case DoReceive(m) => t' == t || Refreshed(env, Filed(t, m, env.now), t', log)
    case DoUpdate => Refreshed(env, t, t', log)
    case DoClose(id) => t' == t || (t.id == id && !IsFinal(t.status) && t' == t.(status := Closed))
    case DoRemove(_) => t' == t
  }

  /** The thread `t` was in the list, or is the one the operation makes. */
  ghost predicate Before(l: List, t: Thread) { t in l.threads || t == NewThread(l.nextId) }

  lemma UpdAtComes(env: Env, l: List, i: nat)
    requires LogOk(l) && i < |l.threads| && l.threads[i].buckets != []
    ensures var l' := UpdAt(env, l, i);
            |l'.threads| == |l.threads| && l.log <= l'.log
                && RefreshedWith(env, l.threads[i], l'.threads[i], l.min, l'.log)
            && forall j :: 0 <= j < |l.threads| && j != i ==> l'.threads[j] == l.threads[j]
  {
  }

  lemma RefreshedLater(env: Env, t: Thread, t': Thread, log: seq<Entry>, log': seq<Entry>)
    requires Refreshed(env, t, t', log) && log <= log'
    ensures Refreshed(env, t, t', log')
  {
    var min :| RefreshedWith(env, t, t', min, log);
    assert RefreshedWith(env, t, t', min, log');
  }

  lemma {:induction false} UpdateFromComes(env: Env, l: List, i: nat, j: nat)
    requires ListOk(l) && j < |l.threads|
    ensures From(env, l, UpdateFrom(env, l, i), i, j)
    decreases |l.threads| - i
  {
    if i < |l.threads| {
      var l1 := UpdAt(env, l, i);
      UpdAtComes(env, l, i);
      UpdAtOk(env, l, i);
      UpdateFromComes(env, l1, i + 1, j);
      assert UpdateFrom(env, l, i) == UpdateFrom(env, l1, i + 1);
      ComesThrough(env, l, l1, UpdateFrom(env, l1, i + 1), i, j);
    }
  }

  ghost predicate From(env: Env, l: List, l': List, i: nat, j: nat) {
    |l'.threads| == |l.threads| && l.log <= l'.log && j < |l.threads|
    && if j < i then l'.threads[j] == l.threads[j] else Refreshed(env, l.threads[j], l'.threads[j], l'.log)
  }

  lemma ComesThrough(env: Env, l: List, l1: List, l2: List, i: nat, j: nat)
    requires |l1.threads| == |l.threads| && l.log <= l1.log && i < |l.threads| && l.threads[i].buckets != []
    requires RefreshedWith(env, l.threads[i], l1.threads[i], l.min, l1.log)
    requires forall k :: 0 <= k < |l.threads| && k != i ==> l1.threads[k] == l.threads[k]
    requires From(env, l1, l2, i + 1, j)
    ensures From(env, l, l2, i, j)
  {
    if j == i { RefreshedLater(env, l.threads[j], l1.threads[j], l1.log, l2.log); }
  }

  lemma SendComes(env: Env, l: List, m: Msg, into: Option<nat>, at: Option<nat>, j: nat) returns (t: Thread)
    requires ListOk(l) && (at.Some? ==> at.value < |l.threads|) && j < |Send(env, l, m, at).threads|
    ensures var l' := Send(env, l, m, at);
            && Before(l, t) && t.id == l'.threads[j].id && l.log <= l'.log
            && Comes(env, DoSend(m, into), t, l'.threads[j], l.min, l'.log)
  {
    var l1 := WithThread(l, at);
    var i := if at.Some? then at.value else 0;
    var s := Emit(l1.threads[i], m, l1.min, env.now);
    var l2 := l1.(threads := l1.threads[i := s.thr], min := l1.min + 1, log := l1.log + [s.entry]);
    WithThreadOk(l, at);
    UpdAtComes(env, l2, i);
    UpdAtSame(env, l2, i, j);
    t := l1.threads[j];
    assert l2.log <= Send(env, l, m, at).log;
  }

  lemma UpdAtSame(env: Env, l: List, i: nat, j: nat)
    requires i < |l.threads| && l.threads[i].buckets != [] && j < |l.threads|
    ensures UpdAt(env, l, i).threads[j].id == l.threads[j].id
  {
  }

  lemma ReceiveComes(env: Env, l: List, m: Msg, j: nat) returns (t: Thread)
    requires ListOk(l)
    requires FindByMrn(l.threads, m).Some? ==> FindByMrn(l.threads, m).value < |l.threads|
    requires j < |Receive(env, l, m).threads|
    ensures var l' := Receive(env, l, m);
            && Before(l, t) && t.id == l'.threads[j].id && l.log <= l'.log
            && Comes(env, DoReceive(m), t, l'.threads[j], l.min, l'.log)
  {
    var at := FindByMrn(l.threads, m);
    var l1 := WithThread(l, at);
    var i := if at.Some? then at.value else 0;
    var l2 := l1.(threads := l1.threads[i := Filed(l1.threads[i], m, env.now)]);
    WithThreadOk(l, at);
    UpdAtComes(env, l2, i);
    UpdAtSame(env, l2, i, j);
    t := l1.threads[j];
  }

  lemma StepComes(env: Env, l: List, op: Op, j: nat) returns (t: Thread)
    requires ListOk(l) && j < |Step(env, l, op).threads|
    ensures var l' := Step(env, l, op);
            && Before(l, t) && t.id == l'.threads[j].id && l.log <= l'.log
            && Comes(env, op, t, l'.threads[j], l.min, l'.log)
  {
    var l' := Step(env, l, op);
    match op
    case DoSend(m, thr) =>
      if thr.Some? { IndexOfFound(l.threads, thr.value); }
      if l' == l { t := l.threads[j]; }
      else { t := SendComes(env, l, m, thr, if thr.None? then None else IndexOf(l.threads, thr.value), j); }
    case DoReceive(m) =>
      FindByMrnFound(l.threads, m);
      if m.segs == [] { t := l.threads[j]; } else { t := ReceiveComes(env, l, m, j); }
    case DoUpdate =>
      UpdateFromOk(env, l, 0);
      UpdateFromComes(env, l, 0, j);
      t := l.threads[j];
    case DoClose(thr) =>
      IndexOfFound(l.threads, thr);
      t := l.threads[j];
    case DoRemove(thr) =>
      IndexOfFound(l.threads, thr);
      t := l'.threads[j];
      var at := IndexOf(l.threads, thr);
      if at.Some? { assert t == l.threads[if j < at.value then j else j + 1]; }
  }
}
