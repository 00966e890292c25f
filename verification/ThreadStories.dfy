/** Over every run of a message list: what each sent message answers, and what gave each thread its status. */
module ThreadStories {
  import opened Options
  import opened Threads
  import opened ThreadLaws
  import T = TwoParty

  // ----- what each sent message answers -----

  /** The message at `a` answers the last one of the other direction before it, and the log says so. */
  ghost predicate ReplyRight(bs: seq<Bucket>, a: nat, log: seq<Entry>)
    requires a < |bs|
  {
    var m := bs[a].msg;
    && m.min < |log|
    && (forall b: nat :: LastOther(bs, a, Down(m), b) ==>
          m.mrn == Some(bs[b].msg.min) && log[m.min].answers == Some(bs[b].msg))
    && (NoOther(bs, a, Down(m)) ==> log[m.min].answers == None)
  }

  ghost predicate RepliesRight(bs: seq<Bucket>, log: seq<Entry>) {
    forall a :: 0 <= a < |bs| && bs[a].sent ==> ReplyRight(bs, a, log)
  }

  lemma ReplyStays(bs: seq<Bucket>, bs': seq<Bucket>, a: nat, log: seq<Entry>, log': seq<Entry>)
    requires a < |bs| && bs <= bs' && log <= log' && ReplyRight(bs, a, log)
    ensures ReplyRight(bs', a, log')
  {
    var dl := Down(bs[a].msg);
    forall b: nat | LastOther(bs', a, dl, b)
      ensures bs'[a].msg.mrn == Some(bs'[b].msg.min) && log'[bs'[a].msg.min].answers == Some(bs'[b].msg)
    {
      assert LastOther(bs, a, dl, b);
    }
    assert NoOther(bs', a, dl) ==> NoOther(bs, a, dl);
  }

  lemma RepliesStay(bs: seq<Bucket>, log: seq<Entry>, log': seq<Entry>)
    requires RepliesRight(bs, log) && log <= log'
    ensures RepliesRight(bs, log')
  {
    forall a | 0 <= a < |bs| && bs[a].sent ensures ReplyRight(bs, a, log') { ReplyStays(bs, bs, a, log, log'); }
  }

  lemma RepliesGrow(bs: seq<Bucket>, b: Bucket, log: seq<Entry>)
    requires RepliesRight(bs, log) && (b.sent ==> ReplyRight(bs + [b], |bs|, log))
    ensures RepliesRight(bs + [b], log)
  {
    forall a | 0 <= a < |bs + [b]| && (bs + [b])[a].sent ensures ReplyRight(bs + [b], a, log) {
      if a < |bs| { ReplyStays(bs, bs + [b], a, log, log); }
    }
  }

  lemma PrefixOther(bs: seq<Bucket>, b: Bucket, dl: bool, x: nat)
    ensures LastOther(bs + [b], |bs|, dl, x) ==> LastOther(bs, |bs|, dl, x)
    ensures NoOther(bs + [b], |bs|, dl) ==> NoOther(bs, |bs|, dl)
  {
    assert forall y :: 0 <= y < |bs| ==> bs[y] == (bs + [b])[y];
  }

  lemma EmitReplies(t: Thread, m: Msg, min: nat, now: int, log: seq<Entry>)
    requires RepliesRight(t.buckets, log) && min < |log| && log[min] == Emit(t, m, min, now).entry
    ensures RepliesRight(Emit(t, m, min, now).thr.buckets, log)
  {
    var s := Emit(t, m, min, now);
    var bs, b := t.buckets, Bucket(s.entry.msg, true, now);
    SentAnswersLast(t, m, min, now, 0);
    forall x: nat | LastOther(bs + [b], |bs|, Down(b.msg), x)
      ensures b.msg.mrn == Some(bs[x].msg.min) && log[min].answers == Some(bs[x].msg)
    {
      PrefixOther(bs, b, Down(m), x);
      SentAnswersLast(t, m, min, now, x);
    }
    PrefixOther(bs, b, Down(m), 0);
    RepliesGrow(bs, b, log);
  }

  lemma RefreshReplies(env: Env, t: Thread, t': Thread, log: seq<Entry>)
    requires Refreshed(env, t, t', log) && RepliesRight(t.buckets, log)
    ensures RepliesRight(t'.buckets, log)
  {
    var min :| RefreshedWith(env, t, t', min, log);
    if StatusUpd(env, t, min).sent.Some? {
      EmitReplies(t, TimeoutError(t.buckets[|t.buckets| - 1].msg), min, env.now, log);
    }
  }

  lemma ComesReplies(env: Env, op: Op, t: Thread, t': Thread, min: nat, log: seq<Entry>)
    requires Comes(env, op, t, t', min, log) && RepliesRight(t.buckets, log)
    ensures RepliesRight(t'.buckets, log)
  {
    if t' != t {
      match op
      case DoSend(m, _) =>
        EmitReplies(t, m, min, env.now, log);
        RefreshReplies(env, Emit(t, m, min, env.now).thr, t', log);
      case DoReceive(m) =>
        RepliesGrow(t.buckets, Bucket(m, false, env.now), log);
        RefreshReplies(env, Filed(t, m, env.now), t', log);
      case DoUpdate => RefreshReplies(env, t, t', log);
      case DoClose(_) =>
      case DoRemove(_) =>
    }
  }

  ghost predicate AllRepliesRight(l: List) {
    forall i :: 0 <= i < |l.threads| ==> RepliesRight(l.threads[i].buckets, l.log)
  }

  /** Every call keeps it so. */
  lemma StepReplies(env: Env, l: List, op: Op)
    requires ListOk(l) && AllRepliesRight(l)
    ensures AllRepliesRight(Step(env, l, op))
  {
    var l' := Step(env, l, op);
    forall j | 0 <= j < |l'.threads| ensures RepliesRight(l'.threads[j].buckets, l'.log) {
      var t := StepComes(env, l, op, j);
      RepliesStay(t.buckets, l.log, l'.log);
      ComesReplies(env, op, t, l'.threads[j], l.min, l'.log);
    }
  }

  lemma {:induction false} RunReplies(l: List, calls: seq<Call>)
    requires ListOk(l) && AllRepliesRight(l)
    ensures AllRepliesRight(Run(l, calls))
    decreases |calls|
  {
    if calls != [] {
      StepOk(calls[0].env, l, calls[0].op);
      StepReplies(calls[0].env, l, calls[0].op);
      RunReplies(Step(calls[0].env, l, calls[0].op), calls[1..]);
    }
  }

  /** Over every run: a message that was sent into a thread answers the last message of the other direction that the
      thread held before it, by its MRN and in the log. */
  lemma RepliesAnswerLast(calls: seq<Call>, i: nat, a: nat, b: nat)
    requires i < |Run(EMPTY, calls).threads|
    requires var bs := Run(EMPTY, calls).threads[i].buckets;
             a < |bs| && bs[a].sent && LastOther(bs, a, Down(bs[a].msg), b)
    ensures var l := Run(EMPTY, calls);
            var m, q := l.threads[i].buckets[a].msg, l.threads[i].buckets[b].msg;
            m.mrn == Some(q.min) && m.min < |l.log| && l.log[m.min].msg == m && l.log[m.min].answers == Some(q)
  {
    RunReplies(EMPTY, calls);
    assert ThreadOk(Run(EMPTY, calls).threads[i], Run(EMPTY, calls).log);
    assert RepliesRight(Run(EMPTY, calls).threads[i].buckets, Run(EMPTY, calls).log);
  }

  // ----- the same with a peer -----

  ghost predicate BothReplyRight(w: T.World) { AllRepliesRight(w.air) && AllRepliesRight(w.gnd) }

  lemma {:induction false} EveryStateReplies(ws: seq<T.World>, evs: seq<T.Event>, n: nat)
    requires T.Behaves(ws, evs) && n < |ws|
    ensures T.WorldOk(ws[n]) && BothReplyRight(ws[n])
  {
    T.EveryStateOk(ws, evs, n);
    if n > 0 {
      EveryStateReplies(ws, evs, n - 1);
      assert T.Moves(ws[n - 1], evs[n - 1], ws[n - 1 + 1]);
      WorldReplies(ws[n - 1], evs[n - 1]);
    }
  }

  lemma WorldReplies(w: T.World, ev: T.Event)
    requires T.WorldOk(w) && T.Enabled(w, ev) && BothReplyRight(w)
    ensures BothReplyRight(T.StepWorld(w, ev))
  {
    var op := if ev.Act? then ev.op else DoReceive(T.Next(w, ev.atc).msg);
    StepReplies(ev.env, w.air, op);
    StepReplies(ev.env, w.gnd, op);
  }

  /** Of the messages before `a`, the one at `b` is the last that was received. */
  ghost predicate LastReceived(bs: seq<Bucket>, a: nat, b: nat) {
    b < a <= |bs| && !bs[b].sent && forall x :: b < x < a ==> bs[x].sent
  }

  /** In every run of two lists over a link: each message sent into a thread answers the last message of the peer
      that the thread held when it was sent. (A thread that timed out may hold an error that does not fit its
      sender's role.) */
  lemma EveryReplyAnswersLast(ws: seq<T.World>, evs: seq<T.Event>, n: nat, atc: bool, i: nat, a: nat, b: nat)
    requires T.Behaves(ws, evs) && n < |ws| && i < |T.Side(ws[n], atc).threads|
    requires T.Side(ws[n], atc).threads[i].status != TimedOut
    requires var bs := T.Side(ws[n], atc).threads[i].buckets; a < |bs| && bs[a].sent && LastReceived(bs, a, b)
    ensures var l := T.Side(ws[n], atc); var bs := l.threads[i].buckets;
            && bs[a].msg.mrn == Some(bs[b].msg.min)
            && bs[a].msg.min < |l.log| && l.log[bs[a].msg.min].answers == Some(bs[b].msg)
  {
    EveryStateReplies(ws, evs, n);
    var l := T.Side(ws[n], atc);
    var t := l.threads[i];
    assert RepliesRight(t.buckets, l.log) && T.ThreadFine(t, T.LinkOf(ws[n], atc));
    assert forall x :: 0 <= x < |t.buckets| ==> T.BucketOk(t, t.buckets[x], T.LinkOf(ws[n], atc));
    assert LastOther(t.buckets, a, Down(t.buckets[a].msg), b);
  }

  // ----- what gave each thread its status -----

  /** The last message of a thread when it gets such a status. */
  ghost predicate Why(st: Status, last: Bucket) {
    match st
    case Accepted => DM(last.msg, {0, 4}) || UM(last.msg, {4})
    case Rejected => DM(last.msg, {1, 5, 62}) || UM(last.msg, {0, 5, 159})
    case Disregard => UM(last.msg, {168})
    case TimedOut => last.sent && DM(last.msg, {62})
    case Failed => last.sent && last.msg.segs != [] && last.msg.segs[0].isDl && RequestNr(last.msg.segs[0].msgType)
    case _ => true
  }

  const EXPLAINED := {Accepted, Rejected, Disregard, TimedOut, Failed}

  ghost predicate WhyNow(t: Thread) { t.buckets != [] && Why(t.status, t.buckets[|t.buckets| - 1]) }

  lemma RefreshWhy(env: Env, t: Thread, t': Thread, log: seq<Entry>)
    requires Refreshed(env, t, t', log) && t'.status in EXPLAINED
    ensures (t'.status == t.status && t'.buckets == t.buckets) || WhyNow(t')
  {
    var min :| RefreshedWith(env, t, t', min, log);
    if t.status in {Open, Standby, Pending} {
      StatusTable(env, t, min);
      UpdateSends(env, t, min);
    } else {
      FinishedStays(env, t, min);
    }
  }

  lemma ComesWhy(env: Env, op: Op, t: Thread, t': Thread, min: nat, log: seq<Entry>)
    requires Comes(env, op, t, t', min, log) && t'.status in EXPLAINED
    ensures (t'.status == t.status && t.buckets <= t'.buckets) || WhyNow(t')
  {
    if t' != t {
      match op
      case DoSend(m, _) => RefreshWhy(env, Emit(t, m, min, env.now).thr, t', log);
      case DoReceive(m) => RefreshWhy(env, Filed(t, m, env.now), t', log);
      case DoUpdate => RefreshWhy(env, t, t', log);
      case DoClose(_) =>
      case DoRemove(_) =>
    }
  }

  lemma {:induction false} RunLast(l: List, calls: seq<Call>, c: Call)
    requires ListOk(l)
    ensures Run(l, calls + [c]) == Step(c.env, Run(l, calls), c.op)
    decreases |calls|
  {
    if calls == [] {
      assert (calls + [c])[1..] == [];
    } else {
      assert (calls + [c])[1..] == calls[1..] + [c];
      StepOk(calls[0].env, l, calls[0].op);
      RunLast(Step(calls[0].env, l, calls[0].op), calls[1..], c);
    }
  }

  /** Over every run: a thread that is accepted, rejected, disregarded, timed out or failed became so by a call (the one
      at `k`) behind which its last message was one that says so; it has had that status since, and only grown. */
  lemma {:induction false} StatusStory(calls: seq<Call>, i: nat) returns (k: nat, j: nat)
    requires i < |Run(EMPTY, calls).threads| && Run(EMPTY, calls).threads[i].status in EXPLAINED
    ensures k < |calls| && j < |Run(EMPTY, calls[..k + 1]).threads|
    ensures var t, t' := Run(EMPTY, calls[..k + 1]).threads[j], Run(EMPTY, calls).threads[i];
            WhyNow(t) && t.id == t'.id && t.status == t'.status && t.buckets <= t'.buckets
    decreases |calls|
  {
    var n := |calls| - 1;
    var p, c := calls[..n], calls[n];
    var l, t' := Run(EMPTY, p), Run(EMPTY, calls).threads[i];
    assert calls == p + [c];
    RunLast(EMPTY, p, c);
    var t := StepComes(c.env, l, c.op, i);
    ComesWhy(c.env, c.op, t, t', l.min, Run(EMPTY, calls).log);
    if WhyNow(t') {
      k, j := n, i;
      assert calls[..k + 1] == calls;
    } else {
      var x :| 0 <= x < |l.threads| && l.threads[x] == t;
      k, j := StatusStory(p, x);
      assert calls[..k + 1] == p[..k + 1];
    }
  }
}
