/** Splitting a string at a separator: `cpdlc_strsplit`. */
module Split {
  import opened Options

  predicate At(s: string, sep: string, i: nat) {
    i + |sep| <= |s| && s[i..i + |sep|] == sep
  }

  /** `strstr` */
  function FindSub(s: string, sep: string): (r: Option<nat>)
    ensures r.Some? ==> At(s, sep, r.value)
  {
    if |s| < |sep| then None
    else if s[..|sep|] == sep then Some(0)
    else match FindSub(s[1..], sep)
      case None => None
      case Some(i) => assert s[1..][i..i + |sep|] == s[i + 1..i + 1 + |sep|]; Some(i + 1)
  }

  lemma AtShifted(s: string, sep: string, i: nat)
    requires s != ""
    ensures At(s[1..], sep, i) == At(s, sep, i + 1)
  {
    if i + 1 + |sep| <= |s| { assert s[1..][i..i + |sep|] == s[i + 1..i + 1 + |sep|]; }
  }

  lemma {:induction false} FindSubIsFirst(s: string, sep: string, i: nat)
    requires sep != "" && var f := FindSub(s, sep); f.None? || i < f.value
    ensures !At(s, sep, i)
  {
    if |s| < |sep| || s[..|sep|] == sep {
    } else if i == 0 {
      assert s[0..|sep|] == s[..|sep|];
    } else {
      FindSubIsFirst(s[1..], sep, i - 1);
      AtShifted(s, sep, i - 1);
    }
  }

  lemma {:induction false} FindChar(t: string, c: char, rest: string)
    requires c !in t
    ensures FindSub(t + [c] + rest, [c]) == Some(|t|)
  {
    var s := t + [c] + rest;
    if t == "" {
      assert s[..1] == [c];
    } else {
      assert s[..1][0] == t[0];
      assert s[1..] == t[1..] + [c] + rest;
      FindChar(t[1..], c, rest);
    }
  }

  lemma {:induction false} FindNoChar(t: string, c: char)
    requires c !in t
    ensures FindSub(t, [c]) == None
  {
    if t != "" {
      assert t[..1][0] == t[0];
      FindNoChar(t[1..], c);
    }
  }

  function Pieces(s: string, sep: string): (ps: seq<string>)
    requires sep != ""
    ensures ps != []
  {
    match FindSub(s, sep)
    case None => [s]
    case Some(k) => [s[..k]] + Pieces(s[k + |sep|..], sep)
  }

  function NonEmpty(ps: seq<string>): seq<string> {
    if ps == [] then [] else (if ps[0] == "" then [] else [ps[0]]) + NonEmpty(ps[1..])
  }

  function Join(ps: seq<string>, sep: string): string {
    if ps == [] then "" else if |ps| == 1 then ps[0] else ps[0] + sep + Join(ps[1..], sep)
  }

  /** Joining the pieces with the separator gives back the string. */
  lemma {:induction false} JoinPieces(s: string, sep: string)
    requires sep != ""
    ensures Join(Pieces(s, sep), sep) == s
  {
    var f := FindSub(s, sep);
    if f.Some? {
      var k := f.value;
      JoinPieces(s[k + |sep|..], sep);
      assert Pieces(s, sep)[1..] == Pieces(s[k + |sep|..], sep);
      assert s == s[..k] + s[k..k + |sep|] + s[k + |sep|..];
    }
  }

  /** No piece contains the separator. */
  lemma {:induction false} PiecesFree(s: string, sep: string, n: nat, i: nat)
    requires sep != "" && n < |Pieces(s, sep)|
    ensures !At(Pieces(s, sep)[n], sep, i)
  {
    var f := FindSub(s, sep);
    if f.Some? {
      var k := f.value;
      if n == 0 {
        if i + |sep| <= k {
          assert s[..k][i..i + |sep|] == s[i..i + |sep|];
          FindSubIsFirst(s, sep, i);
        }
      } else {
        PiecesFree(s[k + |sep|..], sep, n - 1, i);
      }
    } else {
      FindSubIsFirst(s, sep, i);
    }
  }

  /** What both passes go through: the text before each separator, unless it is empty and empty text is skipped. */
  function Kept(p: string, skipEmpty: bool): seq<string> { if skipEmpty && p == "" then [] else [p] }

  function Wanted(s: string, sep: string, skipEmpty: bool): seq<string>
    requires sep != ""
  {
    match FindSub(s, sep)
    case None => Kept(s, skipEmpty)
    case Some(k) => Kept(s[..k], skipEmpty) + Wanted(s[k + |sep|..], sep, skipEmpty)
  }

  lemma {:induction false} WantedIs(s: string, sep: string, skipEmpty: bool)
    requires sep != ""
    ensures Wanted(s, sep, skipEmpty) == if skipEmpty then NonEmpty(Pieces(s, sep)) else Pieces(s, sep)
  {
    var f := FindSub(s, sep);
    if f.None? {
      assert Pieces(s, sep)[1..] == [];
    } else {
      WantedIs(s[f.value + |sep|..], sep, skipEmpty);
      assert Pieces(s, sep)[1..] == Pieces(s[f.value + |sep|..], sep);
    }
  }

  /** The counting pass. */
  method Count(s: string, sep: string, skipEmpty: bool) returns (n: nat)
    requires sep != ""
    ensures n == |Wanted(s, sep, skipEmpty)|
  {
    n := 0;
    var a := 0;
    ghost var rest := s;
    while true
      invariant 0 <= a <= |s| && rest == s[a..] && n + |Wanted(rest, sep, skipEmpty)| == |Wanted(s, sep, skipEmpty)|
      decreases |rest|
    {
      var f := FindSub(s[a..], sep);
      ghost var kept := Kept(if f.None? then rest else rest[..f.value], skipEmpty);
      ghost var more := if f.None? then [] else Wanted(rest[f.value + |sep|..], sep, skipEmpty);
      assert Wanted(rest, sep, skipEmpty) == kept + more;
      if f.None? {
        if a != |s| || !skipEmpty { n := n + 1; }
        return;
      }
      if !(f.value == 0 && skipEmpty) { n := n + 1; }
      rest := rest[f.value + |sep|..];
      a := a + f.value + |sep|;
    }
  }

  method Put(result: array<string>, i: nat, piece: string, skipEmpty: bool) returns (i': nat)
    requires i + |Kept(piece, skipEmpty)| <= result.Length
    modifies result
    ensures i' == i + |Kept(piece, skipEmpty)| && result[..i'] == old(result[..i]) + Kept(piece, skipEmpty)
  {
    i' := i;
    if !(piece == "" && skipEmpty) {
      result[i] := piece;
      i' := i + 1;
    }
  }

  lemma MovePiece(done: seq<string>, kept: seq<string>, more: seq<string>, all: seq<string>)
    requires done + (kept + more) == all
    ensures (done + kept) + more == all && |done| + |kept| + |more| == |all|
  {
    assert (done + kept) + more == done + (kept + more);
  }

  lemma {:induction false} WantedLast(s: string, sep: string, skipEmpty: bool)
    requires sep != "" && FindSub(s, sep).None?
    ensures Wanted(s, sep, skipEmpty) == Kept(s, skipEmpty)
  {
  }

  lemma {:induction false} WantedNext(s: string, sep: string, skipEmpty: bool, k: nat)
    requires sep != "" && FindSub(s, sep) == Some(k)
    ensures k + |sep| <= |s|
    ensures Wanted(s, sep, skipEmpty) == Kept(s[..k], skipEmpty) + Wanted(s[k + |sep|..], sep, skipEmpty)
  {
    assert At(s, sep, k);
  }

  /** One turn of the filling pass: the piece up to the next separator, and where the rest starts, if anything is
      left. */
  method FillOne(s: string, a: nat, sep: string, skipEmpty: bool, result: array<string>, i: nat, ghost all: seq<string>)
    returns (i': nat, next: Option<nat>)
    requires sep != "" && a <= |s| && i <= result.Length == |all| && result[..i] + Wanted(s[a..], sep, skipEmpty) == all
    modifies result
    ensures i' <= result.Length && (next.None? ==> result[..i'] == all)
    ensures next.Some? ==> a < next.value <= |s| && result[..i'] + Wanted(s[next.value..], sep, skipEmpty) == all
  {
    var f := FindSub(s[a..], sep);
    if f.None? {
      WantedLast(s[a..], sep, skipEmpty);
      i' := Put(result, i, s[a..], skipEmpty);
      return i', None;
    }
    var k := f.value;
    WantedNext(s[a..], sep, skipEmpty, k);
    assert s[a..][k + |sep|..] == s[a + k + |sep|..];
    MovePiece(result[..i], Kept(s[a..][..k], skipEmpty), Wanted(s[a + k + |sep|..], sep, skipEmpty), all);
    i' := Put(result, i, s[a..][..k], skipEmpty);
    next := Some(a + k + |sep|);
  }

  /** The filling pass: it writes exactly the slots the counting pass made. */
  method Fill(s: string, sep: string, skipEmpty: bool, result: array<string>)
    requires sep != "" && result.Length == |Wanted(s, sep, skipEmpty)|
    modifies result
    ensures result[..] == Wanted(s, sep, skipEmpty)
  {
    var a, i := 0, 0;
    ghost var all := Wanted(s, sep, skipEmpty);
    assert s[0..] == s;
    while true
      invariant 0 <= a <= |s| && 0 <= i <= result.Length == |all| && result[..i] + Wanted(s[a..], sep, skipEmpty) == all
      decreases |s| - a
    {
      var next;
      i, next := FillOne(s, a, sep, skipEmpty, result, i, all);
      if next.None? {
        assert result[..i] == result[..];
        return;
      }
      a := next.value;
    }
  }

  /** `cpdlc_strsplit`: the pieces of the string, without the empty ones if these are skipped. */
  method StrSplit(s: string, sep: string, skipEmpty: bool) returns (result: array<string>)
    requires sep != ""
    ensures fresh(result)
    ensures result[..] == if skipEmpty then NonEmpty(Pieces(s, sep)) else Pieces(s, sep)
  {
    var n := Count(s, sep, skipEmpty);
    WantedIs(s, sep, skipEmpty);
    result := new string[n](_ => "");
    Fill(s, sep, skipEmpty, result);
  }
}
