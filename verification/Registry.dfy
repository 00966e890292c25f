/** Sequences without repetition, and removal of the first match. */
module Lists {
  ghost predicate NoDup<T>(xs: seq<T>) {
    forall i, j :: 0 <= i < j < |xs| ==> xs[i] != xs[j]
  }

  /** The list walk of the daemon: stop at the first node equal to `x` and unlink it. */
  function RemoveFirst<T(==,!new)>(xs: seq<T>, x: T): (r: seq<T>)
    ensures NoDup(xs) ==> NoDup(r) && forall y :: y in r <==> y in xs && y != x
    ensures x !in xs ==> r == xs
  {
    if xs == [] then []
    else if xs[0] == x then
      assert xs == [xs[0]] + xs[1..];
      assert NoDup(xs) ==> forall y :: y in xs[1..] <==> y in xs && y != x;
      xs[1..]
    else
      var r := RemoveFirst(xs[1..], x);
      assert xs == [xs[0]] + xs[1..];
      assert NoDup(xs) ==> NoDup(xs[1..]) && xs[0] !in xs[1..];
      [xs[0]] + r
  }

  lemma {:induction false} RemoveFirstAt<T(!new)>(xs: seq<T>, x: T, i: nat)
    requires i < |xs| && xs[i] == x && x !in xs[..i]
    ensures RemoveFirst(xs, x) == xs[..i] + xs[i + 1..]
  {
    if i > 0 {
      assert xs[0] in xs[..i];
      assert xs[1..][..i - 1] == xs[1..i] && forall y :: y in xs[1..i] ==> y in xs[..i];
      RemoveFirstAt(xs[1..], x, i - 1);
      assert xs[1..][i..] == xs[i + 1..];
      assert xs[..i] == [xs[0]] + xs[1..i];
    }
  }

  method UnlinkFirst<T(==,!new)>(xs: seq<T>, x: T) returns (r: seq<T>, found: bool)
    ensures r == RemoveFirst(xs, x) && (found <==> x in xs)
  {
    var i := 0;
    while i < |xs| && xs[i] != x
      invariant 0 <= i <= |xs| && x !in xs[..i]
    {
      i := i + 1;
    }
    found := i < |xs|;
    if found {
      RemoveFirstAt(xs, x, i);
      r := xs[..i] + xs[i + 1..];
    } else {
      assert xs[..i] == xs;
      r := xs;
    }
  }

  lemma NonEmptyHasMember<T>(xs: seq<T>)
    ensures xs != [] ==> exists x :: x in xs
  {
    if xs != [] { assert xs[0] in xs; }
  }

  lemma NoDupAppend<T>(xs: seq<T>, x: T)
    requires NoDup(xs) && x !in xs
    ensures NoDup(xs + [x])
  {
  }
}

/** Messages as the daemon sees them after decoding: headers and the kind of each segment. */
module Wire {
  type Ident = string

  datatype Pkt = Cpdlc | Ping | Pong

  datatype Seg = Seg(isDl: bool, msgType: nat)

  datatype Msg = Msg(
    pkt: Pkt, from: Ident, to: Ident, isLogon: bool, isLogoff: bool,
    min: nat, segs: seq<Seg>, opts: seq<string>, plain: bool, arinc622: bool)

  const UM161_END_SVC: nat := 161
  const DM63_NOT_CURRENT_DATA_AUTHORITY: nat := 63
  const DM73_VERSION: nat := 73

  datatype ErrInfo = AppError | InsuffStorage | InsuffData | UnexpctData

  /** One item appended to a connection's output buffer. `Delivery` is a forwarded message:
      `ticket` is its position in the acceptance log, `to` the identity it was addressed to. */
  datatype Out =
    | ErrorReply(err: ErrInfo, mrn: nat)
    | PongReply(mrn: nat)
    | SvcUnavail(mrn: nat)
    | LogonReply(success: bool)
    | Delivery(ticket: nat, to: Ident, text: string)

  predicate IsEndSvc(m: Msg) {
    exists i :: 0 <= i < |m.segs| && !m.segs[i].isDl && m.segs[i].msgType == UM161_END_SVC
  }

  predicate IsNotCda(m: Msg) {
    |m.segs| == 1 && m.segs[0].isDl && m.segs[0].msgType == DM63_NOT_CURRENT_DATA_AUTHORITY
  }
}

/**
 Connections, the identity index `conns_by_from` and the authentication sessions.
 Every function is one critical section of the daemon; `Sound` is what all of them keep.
 A connection is named by a number standing for its address; after it closes, the number
 may be used again for a new connection.
 */
module Registry {
  import opened Lists
  import opened Wire

  type ConnId = nat

  datatype LogonStatus = LogonNone | Started | Completing | Complete

  datatype Conn = Conn(
    status: LogonStatus, fromList: seq<Ident>, to: Ident,
    logonFrom: Ident, logonTo: Ident, logonSuccess: bool,
    authKey: nat, isAtc: bool, plain: bool, arinc622: bool, out: seq<Out>)

  datatype Session = Session(conn: ConnId, kill: bool)

  type Index = map<Ident, seq<ConnId>>

  datatype Net = Net(conns: map<ConnId, Conn>, byFrom: Index, sessions: map<nat, Session>, nextKey: nat)

  const FRESH_CONN := Conn(LogonNone, [], "", "", "", false, 0, false, false, false, [])

  const EMPTY_NET := Net(map[], map[], map[], 0)

  /** `htbl_lookup_multi`, with "no list" and "empty list" identified as the callers do. */
  function Lookup(index: Index, id: Ident): seq<ConnId> {
    if id in index then index[id] else []
  }

  function IndexAdd(index: Index, id: Ident, c: ConnId): Index {
    index[id := Lookup(index, id) + [c]]
  }

  function IndexRemove(index: Index, id: Ident, c: ConnId): Index {
    if id in index then index[id := RemoveFirst(index[id], c)] else index
  }

  /** Takes `c` out of the index under every identity of `ids`, head first. */
  function Unlink(index: Index, ids: seq<Ident>, c: ConnId): Index
    decreases |ids|
  {
    if ids == [] then index else Unlink(IndexRemove(index, ids[0], c), ids[1..], c)
  }

  function KillSession(sessions: map<nat, Session>, key: nat): map<nat, Session> {
    if key in sessions then sessions[key := sessions[key].(kill := true)] else sessions
  }

  function Send(n: Net, c: ConnId, o: Out): Net
    requires c in n.conns
  {
    n.(conns := n.conns[c := n.conns[c].(out := n.conns[c].out + [o])])
  }

  /** `handle_accepts` and `conn_established_lws`: a zeroed connection joins the list. */
  function OpenConn(n: Net, c: ConnId): Net {
    n.(conns := n.conns[c := FRESH_CONN])
  }

  function ResetConn(conn: Conn): Conn {
    var k := conn.(fromList := [], status := LogonNone, logonSuccess := false);
    if conn.status == Complete then k.(isAtc := false, to := "", logonFrom := "", logonTo := "") else k
  }

  function ResetLogon(n: Net, c: ConnId): Net
    requires c in n.conns
  {
    var conn := n.conns[c];
    n.(conns := n.conns[c := ResetConn(conn)],
       byFrom := Unlink(n.byFrom, conn.fromList, c),
       sessions := if conn.status == Started then KillSession(n.sessions, conn.authKey) else n.sessions)
  }

  function CloseConn(n: Net, c: ConnId): Net
    requires c in n.conns
  {
    var r := ResetLogon(n, c);
    r.(conns := r.conns - {c})
  }

  /** The end of `auth_worker`: unless killed, run `logon_done_cb` on the connection; then unregister. */
  function WorkerDone(n: Net, key: nat, ok: bool, atc: bool): Net
    requires key in n.sessions && (n.sessions[key].kill || n.sessions[key].conn in n.conns)
  {
    var s := n.sessions[key];
    var n' := n.(sessions := n.sessions - {key});
    if s.kill then n' else n'.(conns := n.conns[s.conn := LogonDone(n.conns[s.conn], ok, atc)])
  }

  function LogonDone(conn: Conn, ok: bool, atc: bool): Conn {
    conn.(status := Completing, logonSuccess := ok, isAtc := atc)
  }

  function CompleteLogon(n: Net, c: ConnId): Net
    requires c in n.conns
  {
    var conn := n.conns[c];
    if conn.status != Completing then n
    else
      var done := conn.(logonTo := "", logonFrom := "");
      if conn.logonSuccess && !conn.isAtc && conn.logonTo == "" then
        Send(n.(conns := n.conns[c := done.(status := LogonNone)]), c, ErrorReply(InsuffData, 0))
      else if conn.logonSuccess then
        var k := done.(status := Complete, to := conn.logonTo, fromList := conn.fromList + [conn.logonFrom]);
        Send(n.(conns := n.conns[c := k], byFrom := IndexAdd(n.byFrom, conn.logonFrom, c)), c, LogonReply(true))
      else
        Send(n.(conns := n.conns[c := done.(status := LogonNone)]), c, LogonReply(false))
  }

  function RemoveIdent(n: Net, c: ConnId, id: Ident): Net
    requires c in n.conns
  {
    var conn := n.conns[c];
    if id !in conn.fromList then n
    else n.(conns := n.conns[c := conn.(fromList := RemoveFirst(conn.fromList, id))],
            byFrom := IndexRemove(n.byFrom, id, c))
  }

  /** The authenticator's answer when it is local (no URL, or a password file); `Remote` opens a session. */
  datatype Auth = Remote | Local(ok: bool, atc: bool)

  /** Forget the identities a LOGON or LOGOFF replaces: all of them, or on ATC just the one named. */
  function Forget(n: Net, c: ConnId, id: Ident): Net
    requires c in n.conns
  {
    if n.conns[c].isAtc then RemoveIdent(n, c, id) else ResetLogon(n, c)
  }

  /** A connection left without identities is logged off. */
  function SettleConn(k: Conn): Conn {
    if k.fromList == [] then k.(status := LogonNone, logonSuccess := false, isAtc := false) else k
  }

  function Settle(n: Net, c: ConnId): Net
    requires c in n.conns
  {
    n.(conns := n.conns[c := SettleConn(n.conns[c])])
  }

  function ClearForLogon(n: Net, c: ConnId, id: Ident): Net
    requires c in n.conns
  {
    Settle(Forget(n, c, id), c)
  }

  function StartLogon(n: Net, c: ConnId, m: Msg, auth: Auth): Net
    requires c in n.conns
  {
    var conn := n.conns[c].(
      logonTo := m.to, logonFrom := m.from, status := Started,
      plain := "PLAIN" in m.opts || m.opts == [], arinc622 := "ARINC622" in m.opts);
    match auth
    case Remote =>
      n.(conns := n.conns[c := conn.(authKey := n.nextKey)],
         sessions := n.sessions[n.nextKey := Session(c, false)], nextKey := n.nextKey + 1)
    case Local(ok, atc) =>
      n.(conns := n.conns[c := LogonDone(conn, ok, atc).(authKey := 0)])
  }

  function ProcessLogon(n: Net, c: ConnId, m: Msg, auth: Auth): Net
    requires c in n.conns
  {
    if n.conns[c].status == Started || n.conns[c].status == Completing then
      Send(n, c, ErrorReply(UnexpctData, m.min))
    else
      var n1 := ClearForLogon(n, c, m.from);
      if m.isLogoff then n1 else StartLogon(n1, c, m, auth)
  }

  // ----- what every critical section keeps -----

  /** `conns_by_from` is exactly the inverse of all `from_list`s and holds only open connections. */
  ghost predicate IndexAgrees(n: Net) {
    && (forall c :: c in n.conns ==> NoDup(n.conns[c].fromList))
    && (forall id :: NoDup(Lookup(n.byFrom, id)))
    && (forall id, c :: c in Lookup(n.byFrom, id) <==> c in n.conns && id in n.conns[c].fromList)
  }

  ghost predicate IsLive(n: Net, key: nat) {
    key in n.sessions && !n.sessions[key].kill
  }

  /** Started connections and unkilled sessions name each other. */
  ghost predicate AuthAgrees(n: Net) {
    && (forall k :: k in n.sessions ==> k < n.nextKey)
    && (forall k :: IsLive(n, k) ==>
          n.sessions[k].conn in n.conns && n.conns[n.sessions[k].conn].status == Started
          && n.conns[n.sessions[k].conn].authKey == k)
    && (forall c :: c in n.conns && n.conns[c].status == Started ==>
          IsLive(n, n.conns[c].authKey) && n.sessions[n.conns[c].authKey].conn == c)
  }

  ghost predicate ConnOk(k: Conn) {
    && (k.status == Complete ==> k.fromList != [] && (k.isAtc || k.to != ""))
    && (k.status == Started || k.status == Completing ==> k.logonFrom !in k.fromList)
  }

  ghost predicate LogonsOk(n: Net) {
    forall c :: c in n.conns ==> ConnOk(n.conns[c])
  }

  ghost predicate Sound(n: Net) {
    IndexAgrees(n) && AuthAgrees(n) && LogonsOk(n)
  }

  // ----- proofs -----

  lemma {:induction false} UnlinkLookup(index: Index, ids: seq<Ident>, c: ConnId, id: Ident)
    requires NoDup(ids)
    ensures Lookup(Unlink(index, ids, c), id)
         == if id in ids then RemoveFirst(Lookup(index, id), c) else Lookup(index, id)
    decreases |ids|
  {
    if ids != [] {
      assert ids == [ids[0]] + ids[1..];
      assert NoDup(ids[1..]) && ids[0] !in ids[1..];
      UnlinkLookup(IndexRemove(index, ids[0], c), ids[1..], c, id);
    }
  }

  /** A step that touches one connection, and the index only in its entries for that connection. */
  lemma ReindexOne(n: Net, n': Net, c: ConnId)
    requires IndexAgrees(n)
    requires forall d :: d != c ==> (d in n'.conns <==> d in n.conns)
    requires forall d :: d in n.conns && d != c ==> n'.conns[d].fromList == n.conns[d].fromList
    requires c in n'.conns ==> NoDup(n'.conns[c].fromList)
    requires forall id :: NoDup(Lookup(n'.byFrom, id))
    requires forall id, d :: d != c ==> (d in Lookup(n'.byFrom, id) <==> d in Lookup(n.byFrom, id))
    requires forall id :: c in Lookup(n'.byFrom, id) <==> c in n'.conns && id in n'.conns[c].fromList
    ensures IndexAgrees(n')
  {
  }

  lemma SendSound(n: Net, c: ConnId, o: Out)
    requires Sound(n) && c in n.conns
    ensures Sound(Send(n, c, o))
  {
  }

  lemma OpenSound(n: Net, c: ConnId)
    requires Sound(n) && c !in n.conns
    ensures Sound(OpenConn(n, c))
  {
    ReindexOne(n, OpenConn(n, c), c);
  }

  lemma ResetIndex(n: Net, c: ConnId)
    requires IndexAgrees(n) && c in n.conns
    ensures IndexAgrees(ResetLogon(n, c))
    ensures forall id, d :: d in Lookup(ResetLogon(n, c).byFrom, id) <==> d != c && d in Lookup(n.byFrom, id)
  {
    var n' := ResetLogon(n, c);
    forall id ensures NoDup(Lookup(n'.byFrom, id))
              ensures forall d :: d in Lookup(n'.byFrom, id) <==> d != c && d in Lookup(n.byFrom, id)
    {
      UnlinkLookup(n.byFrom, n.conns[c].fromList, c, id);
      assert NoDup(Lookup(n.byFrom, id));
      assert id !in n.conns[c].fromList ==> c !in Lookup(n.byFrom, id);
    }
    ReindexOne(n, n', c);
  }

  lemma ResetSound(n: Net, c: ConnId)
    requires Sound(n) && c in n.conns
    ensures Sound(ResetLogon(n, c))
  {
    ResetIndex(n, c);
  }

  lemma CloseSound(n: Net, c: ConnId)
    requires Sound(n) && c in n.conns
    ensures Sound(CloseConn(n, c))
  {
    ResetSound(n, c);
    var r := ResetLogon(n, c);
    assert r.conns[c].fromList == [];
    ReindexOne(r, CloseConn(n, c), c);
  }

  lemma WorkerSound(n: Net, key: nat, ok: bool, atc: bool)
    requires Sound(n) && key in n.sessions
    ensures n.sessions[key].kill || n.sessions[key].conn in n.conns
    ensures Sound(WorkerDone(n, key, ok, atc))
  {
    assert IsLive(n, key) || n.sessions[key].kill;
    var n' := WorkerDone(n, key, ok, atc);
    assert n'.byFrom == n.byFrom;
    assert n'.conns.Keys == n.conns.Keys;
    assert IndexAgrees(n');
    forall k ensures IsLive(n', k) ==> IsLive(n, k) && k != key {
    }
  }

  lemma IndexAddAgrees(n: Net, n': Net, c: ConnId, id: Ident)
    requires IndexAgrees(n) && c in n.conns && id !in n.conns[c].fromList
    requires c in n'.conns && n'.conns[c].fromList == n.conns[c].fromList + [id]
    requires n'.conns.Keys == n.conns.Keys
    requires forall d :: d in n.conns && d != c ==> n'.conns[d] == n.conns[d]
    requires n'.byFrom == IndexAdd(n.byFrom, id, c)
    ensures IndexAgrees(n')
  {
    assert c !in Lookup(n.byFrom, id);
    NoDupAppend(Lookup(n.byFrom, id), c);
    NoDupAppend(n.conns[c].fromList, id);
    forall x ensures Lookup(n'.byFrom, x) == if x == id then Lookup(n.byFrom, id) + [c] else Lookup(n.byFrom, x) {
    }
    ReindexOne(n, n', c);
  }

  lemma CompleteSound(n: Net, c: ConnId)
    requires Sound(n) && c in n.conns
    ensures Sound(CompleteLogon(n, c))
  {
    var conn := n.conns[c];
    if conn.status == Completing {
      var done := conn.(logonTo := "", logonFrom := "");
      if conn.logonSuccess && (conn.isAtc || conn.logonTo != "") {
        var k := done.(status := Complete, to := conn.logonTo, fromList := conn.fromList + [conn.logonFrom]);
        var n1 := n.(conns := n.conns[c := k], byFrom := IndexAdd(n.byFrom, conn.logonFrom, c));
        IndexAddAgrees(n, n1, c, conn.logonFrom);
        ReplaceConn(n, n1, c);
        SendSound(n1, c, LogonReply(true));
      } else {
        var n1 := n.(conns := n.conns[c := done.(status := LogonNone)]);
        ReplaceConn(n, n1, c);
        SendSound(n1, c, if conn.logonSuccess then ErrorReply(InsuffData, 0) else LogonReply(false));
      }
    }
  }

  /** Authentication is untouched by a step on one connection that is not Started before or after. */
  lemma ReplaceConn(n: Net, n': Net, c: ConnId)
    requires AuthAgrees(n) && LogonsOk(n) && c in n.conns
    requires c in n'.conns && n'.conns == n.conns[c := n'.conns[c]]
    requires n'.sessions == n.sessions && n'.nextKey == n.nextKey
    requires n.conns[c].status != Started && n'.conns[c].status != Started && ConnOk(n'.conns[c])
    ensures AuthAgrees(n') && LogonsOk(n')
  {
  }

  lemma RemoveIdentSound(n: Net, c: ConnId, id: Ident)
    requires Sound(n) && c in n.conns
    ensures IndexAgrees(RemoveIdent(n, c, id)) && AuthAgrees(RemoveIdent(n, c, id))
    ensures var k := RemoveIdent(n, c, id).conns[c]; id !in k.fromList
    ensures forall x, d :: d in Lookup(RemoveIdent(n, c, id).byFrom, x) ==> d in Lookup(n.byFrom, x)
  {
    if id in n.conns[c].fromList {
      var n' := RemoveIdent(n, c, id);
      forall x
        ensures Lookup(n'.byFrom, x) == if x == id then RemoveFirst(Lookup(n.byFrom, id), c) else Lookup(n.byFrom, x)
      {
      }
      assert NoDup(Lookup(n.byFrom, id));
      ReindexOne(n, n', c);
    }
  }

  lemma ForgetIndex(n: Net, c: ConnId, id: Ident)
    requires Sound(n) && c in n.conns
    requires n.conns[c].status == LogonNone || n.conns[c].status == Complete
    ensures var n' := Forget(n, c, id);
            IndexAgrees(n') && n'.sessions == n.sessions && n'.nextKey == n.nextKey
            && n'.conns == n.conns[c := n'.conns[c]] && id !in n'.conns[c].fromList
            && (n'.conns[c].status == LogonNone || n'.conns[c] == n.conns[c].(fromList := n'.conns[c].fromList))
    ensures forall x, d :: d in Lookup(Forget(n, c, id).byFrom, x) ==> d in Lookup(n.byFrom, x)
  {
    if n.conns[c].isAtc {
      RemoveIdentSound(n, c, id);
    } else {
      ResetIndex(n, c);
    }
  }

  lemma ClearSound(n: Net, c: ConnId, id: Ident)
    requires Sound(n) && c in n.conns
    requires n.conns[c].status == LogonNone || n.conns[c].status == Complete
    ensures var n' := ClearForLogon(n, c, id);
            Sound(n') && n'.conns == n.conns[c := n'.conns[c]] && n'.sessions == n.sessions && n'.nextKey == n.nextKey
            && (n'.conns[c].status == LogonNone || n'.conns[c].status == Complete)
            && id !in n'.conns[c].fromList
    ensures forall x, d :: d in Lookup(ClearForLogon(n, c, id).byFrom, x) ==> d in Lookup(n.byFrom, x)
  {
    ForgetIndex(n, c, id);
    SettleSound(n, Forget(n, c, id), c);
  }

  lemma SettleSound(n: Net, n1: Net, c: ConnId)
    requires AuthAgrees(n) && LogonsOk(n) && c in n.conns && c in n1.conns
    requires n.conns[c].status == LogonNone || n.conns[c].status == Complete
    requires IndexAgrees(n1) && n1.sessions == n.sessions && n1.nextKey == n.nextKey
    requires n1.conns == n.conns[c := n1.conns[c]]
    requires n1.conns[c].status == LogonNone || n1.conns[c] == n.conns[c].(fromList := n1.conns[c].fromList)
    ensures var n' := Settle(n1, c);
            Sound(n') && n'.conns == n.conns[c := n'.conns[c]] && n'.conns[c].fromList == n1.conns[c].fromList
            && n'.byFrom == n1.byFrom && n'.sessions == n.sessions && n'.nextKey == n.nextKey
            && (n'.conns[c].status == LogonNone || n'.conns[c].status == Complete)
  {
    var n' := Settle(n1, c);
    assert n'.conns == n.conns[c := n'.conns[c]];
    assert ConnOk(n.conns[c]) && ConnOk(n'.conns[c]);
    SameLists(n1, n');
    ReplaceConn(n, n', c);
  }

  lemma SameLists(n: Net, n': Net)
    requires IndexAgrees(n) && n'.byFrom == n.byFrom && n'.conns.Keys == n.conns.Keys
    requires forall c :: c in n.conns ==> n'.conns[c].fromList == n.conns[c].fromList
    ensures IndexAgrees(n')
  {
  }

  lemma StartSound(n: Net, c: ConnId, m: Msg, auth: Auth)
    requires Sound(n) && c in n.conns && m.from !in n.conns[c].fromList
    requires n.conns[c].status == LogonNone || n.conns[c].status == Complete
    ensures Sound(StartLogon(n, c, m, auth))
  {
    var n' := StartLogon(n, c, m, auth);
    assert IndexAgrees(n');
    forall k | IsLive(n', k) && k != n.nextKey ensures IsLive(n, k) {
    }
  }

  lemma ProcessLogonSound(n: Net, c: ConnId, m: Msg, auth: Auth)
    requires Sound(n) && c in n.conns
    ensures Sound(ProcessLogon(n, c, m, auth))
    ensures forall x, d :: d in Lookup(ProcessLogon(n, c, m, auth).byFrom, x) ==> d in Lookup(n.byFrom, x)
  {
    if n.conns[c].status == Started || n.conns[c].status == Completing {
      SendSound(n, c, ErrorReply(UnexpctData, m.min));
    } else {
      ClearSound(n, c, m.from);
      if !m.isLogoff { StartSound(ClearForLogon(n, c, m.from), c, m, auth); }
    }
  }

  /** What `AuthAgrees` says to a reader: a connection is Started exactly when one live session
      points at it, and then only one does. */
  lemma StartedIffOneLiveSession(n: Net, c: ConnId)
    requires AuthAgrees(n) && c in n.conns
    ensures n.conns[c].status == Started <==> exists k :: IsLive(n, k) && n.sessions[k].conn == c
    ensures forall k, l :: IsLive(n, k) && IsLive(n, l) && n.sessions[k].conn == n.sessions[l].conn ==> k == l
  {
    if n.conns[c].status == Started {
      assert IsLive(n, n.conns[c].authKey);
    }
  }
}
