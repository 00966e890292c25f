/**
 The delayed-delivery queue with its two byte accounts: the global counter
 `queued_msg_bytes` and the per-sender quota of msgquota.c.
 */
module MailStore {
  import opened Wire

  /** A stored message; `ticket` is its position in the acceptance log. */
  datatype Queued = Queued(from: Ident, to: Ident, isAtc: bool, created: int, text: string, ticket: nat)

  type Quota = map<Ident, nat>

  datatype Store = Store(queue: seq<Queued>, bytes: nat, quota: Quota)

  /** Zero means unlimited. */
  datatype Limits = Limits(maxBytes: nat, maxQuota: nat)

  const QUEUED_MSG_TIMEOUT := 600
  const EMPTY_STORE := Store([], 0, map[])

  function QuotaOf(q: Quota, id: Ident): nat {
    if id in q then q[id] else 0
  }

  datatype QuotaResult = QuotaResult(quota: Quota, ok: bool)

  /** `mq_get` creates the entry even when the increment is then refused. */
  function QuotaIncr(lim: Limits, q: Quota, id: Ident, n: nat): QuotaResult {
    if lim.maxQuota > 0 && QuotaOf(q, id) + n > lim.maxQuota then
      QuotaResult(q[id := QuotaOf(q, id)], false)
    else
      QuotaResult(q[id := QuotaOf(q, id) + n], true)
  }

  function QuotaDecr(q: Quota, id: Ident, n: nat): Quota
    requires n <= QuotaOf(q, id)
  {
    if QuotaOf(q, id) == n then q - {id} else q[id := QuotaOf(q, id) - n]
  }

  datatype StoreResult = StoreResult(store: Store, ok: bool)

  function StoreMsg(lim: Limits, st: Store, e: Queued): StoreResult {
    if lim.maxBytes != 0 && st.bytes + |e.text| > lim.maxBytes then StoreResult(st, false)
    else
      var r := if e.isAtc then QuotaResult(st.quota, true) else QuotaIncr(lim, st.quota, e.from, |e.text|);
      if r.ok then StoreResult(Store(st.queue + [e], st.bytes + |e.text|, r.quota), true)
      else StoreResult(st.(quota := r.quota), false)
  }

  /** Total size of the stored texts. */
  function TotalBytes(q: seq<Queued>): nat {
    if q == [] then 0 else |q[0].text| + TotalBytes(q[1..])
  }

  /** Size of the texts charged to `id`: its stored messages that are not marked as coming from ATC. */
  function Charged(q: seq<Queued>, id: Ident): nat {
    if q == [] then 0
    else (if !q[0].isAtc && q[0].from == id then |q[0].text| else 0) + Charged(q[1..], id)
  }

  ghost predicate Balanced(lim: Limits, st: Store) {
    && st.bytes == TotalBytes(st.queue)
    && (forall id :: QuotaOf(st.quota, id) == Charged(st.queue, id))
    && (lim.maxBytes != 0 ==> st.bytes <= lim.maxBytes)
    && (lim.maxQuota != 0 ==> forall id :: QuotaOf(st.quota, id) <= lim.maxQuota)
  }

  function Without(q: seq<Queued>, i: nat): seq<Queued>
    requires i < |q|
  {
    q[..i] + q[i + 1..]
  }

  lemma {:induction false} SumsSplit(p: seq<Queued>, q: seq<Queued>, id: Ident)
    ensures TotalBytes(p + q) == TotalBytes(p) + TotalBytes(q)
    ensures Charged(p + q, id) == Charged(p, id) + Charged(q, id)
  {
    if p == [] {
      assert p + q == q;
    } else {
      SumsSplit(p[1..], q, id);
      assert (p + q)[1..] == p[1..] + q;
    }
  }

  /** Taking out one message lowers both accounts by its size: neither subtraction underflows. */
  lemma SumsWithout(q: seq<Queued>, i: nat, id: Ident)
    requires i < |q|
    ensures TotalBytes(q) == TotalBytes(Without(q, i)) + |q[i].text|
    ensures Charged(q, id) == Charged(Without(q, i), id) + (if !q[i].isAtc && q[i].from == id then |q[i].text| else 0)
  {
    var l, m, r := q[..i], [q[i]], q[i + 1..];
    assert q == l + (m + r);
    SumsSplit(l, m + r, id);
    SumsSplit(m, r, id);
    SumsSplit(l, r, id);
    assert m[1..] == [];
  }

  function Dequeue(st: Store, i: nat): Store
    requires i < |st.queue| && |st.queue[i].text| <= st.bytes
    requires st.queue[i].isAtc || |st.queue[i].text| <= QuotaOf(st.quota, st.queue[i].from)
  {
    var e := st.queue[i];
    Store(Without(st.queue, i), st.bytes - |e.text|,
          if e.isAtc then st.quota else QuotaDecr(st.quota, e.from, |e.text|))
  }

  lemma StoreBalanced(lim: Limits, st: Store, e: Queued)
    requires Balanced(lim, st)
    ensures Balanced(lim, StoreMsg(lim, st, e).store)
    ensures StoreMsg(lim, st, e).store.queue == if StoreMsg(lim, st, e).ok then st.queue + [e] else st.queue
    ensures StoreMsg(lim, st, e).ok <==>
            (lim.maxBytes == 0 || TotalBytes(st.queue) + |e.text| <= lim.maxBytes)
            && (e.isAtc || lim.maxQuota == 0 || Charged(st.queue, e.from) + |e.text| <= lim.maxQuota)
  {
    var st' := StoreMsg(lim, st, e).store;
    forall id
      ensures Charged(st.queue + [e], id) == Charged(st.queue, id) + (if !e.isAtc && e.from == id then |e.text| else 0)
      ensures TotalBytes(st.queue + [e]) == TotalBytes(st.queue) + |e.text|
    {
      SumsSplit(st.queue, [e], id);
      assert [e][1..] == [];
    }
    assert QuotaOf(st.quota, e.from) == Charged(st.queue, e.from);
  }

  lemma DequeueBalanced(lim: Limits, st: Store, i: nat)
    requires Balanced(lim, st) && i < |st.queue|
    ensures |st.queue[i].text| <= st.bytes
    ensures st.queue[i].isAtc || |st.queue[i].text| <= QuotaOf(st.quota, st.queue[i].from)
    ensures Balanced(lim, Dequeue(st, i))
  {
    SumsWithout(st.queue, i, st.queue[i].from);
    assert QuotaOf(st.quota, st.queue[i].from) == Charged(st.queue, st.queue[i].from);
    var st' := Dequeue(st, i);
    forall id ensures QuotaOf(st'.quota, id) == Charged(st'.queue, id) <= QuotaOf(st.quota, id) {
      SumsWithout(st.queue, i, id);
      assert QuotaOf(st.quota, id) == Charged(st.queue, id);
    }
  }
}
