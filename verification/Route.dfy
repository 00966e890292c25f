/** The route sub-language: `serialize_route` in its machine form and `parse_route`. */
module Route {
  import opened Text
  import Split
  import Printer

  /** `typed` says that the procedure's kind has been set. */
  datatype Proc = Proc(typed: bool, name: string, trans: string)

  /** Components without coordinates; the others are not part of this model. */
  datatype Info = Fix(name: string) | Awy(name: string) | Token(name: string)

  datatype Route = Route(
    orig: string, dest: string, origRwy: string, destRwy: string,
    sid: Proc, star: Proc, appch: Proc, info: seq<Info>)

  const NO_PROC := Proc(false, "", "")
  const EMPTY := Route("", "", "", "", NO_PROC, NO_PROC, NO_PROC, [])

  const NAME_CAP := 8
  const TOKEN_CAP := 24
  const MAX_INFO := 128

  // ----- printing -----

  function Opt(key: string, value: string): seq<string> {
    if value == "" then [] else [key + value]
  }

  function ProcTokens(key: string, transKey: string, p: Proc): seq<string> {
    if p.name == "" then [] else [key + p.name] + Opt(transKey, p.trans)
  }

  function InfoToken(i: Info): string {
    match i
    case Fix(n) => "FIX:" + n
    case Awy(n) => "AWY:" + n
    case Token(n) => n
  }

  function InfoTokens(infos: seq<Info>): seq<string> {
    if infos == [] then [] else InfoTokens(infos[..|infos| - 1]) + [InfoToken(infos[|infos| - 1])]
  }

  function Ends(r: Route): seq<string> { Opt("ORIG:", r.orig) + Opt("DEST:", r.dest) }

  function Runways(r: Route): seq<string> { Opt("ORWY:", r.origRwy) + Opt("DRWY:", r.destRwy) }

  function Body(r: Route): seq<string> {
    ProcTokens("SID:", "SIDTR:", r.sid) + InfoTokens(r.info)
    + ProcTokens("STAR:", "STARTR:", r.star) + ProcTokens("APP:", "APPTR:", r.appch)
  }

  function Tokens(r: Route): seq<string> { Ends(r) + (Runways(r) + Body(r)) }

  predicate IsDirect(r: Route) { r.sid.name == "" && r.star.name == "" && r.appch.name == "" && r.info == [] }

  /** Every token is followed by a space. */
  function Spaced(ts: seq<string>): string {
    if ts == [] then "" else ts[0] + " " + Spaced(ts[1..])
  }

  function Serialize(r: Route): string {
    Spaced(Tokens(r)) + if IsDirect(r) then " " else ""
  }

  // ----- parsing -----

  /** `Unspecified`: the component has coordinates, or the parser reads past its end. */
  datatype Outcome = Ok(route: Route) | Malformed | Unspecified

  function AddInfo(r: Route, i: Info): Outcome {
    if |r.info| == MAX_INFO then Malformed else Ok(r.(info := r.info + [i]))
  }

  function Name(v: string): string { Trunc(v, NAME_CAP) }

  /** The effect of one component `key` + `v`; runways are read two bytes behind their key. */
  function Assign(r: Route, key: string, v: string): Outcome {
    if key == "ORIG:" then Ok(r.(orig := Name(v)))
    else if key == "DEST:" then Ok(r.(dest := Name(v)))
    else if key == "ORWY:" then
      if |v| < 2 then Unspecified else Ok(r.(origRwy := Name(v[2..])))
    else if key == "DRWY:" then
      if |v| < 2 then Unspecified else Ok(r.(destRwy := Name(v[2..])))
    else if key == "SID:" then Ok(r.(sid := r.sid.(typed := true, name := Name(v))))
    else if key == "SIDTR:" then Ok(r.(sid := r.sid.(typed := true, trans := Name(v))))
    else if key == "STAR:" then Ok(r.(star := r.star.(typed := true, name := Name(v))))
    else if key == "STARTR:" then Ok(r.(star := r.star.(typed := true, trans := Name(v))))
    else if key == "APP:" then Ok(r.(appch := r.appch.(typed := true, name := Name(v))))
    else if key == "APPTR:" then Ok(r.(appch := r.appch.(typed := true, trans := Name(v))))
    else if key == "FIX:" then
      if '(' in v then Unspecified else AddInfo(r, Fix(Name(v)))
    else if key == "AWY:" then AddInfo(r, Awy(Name(v)))
    else if key == "LATLON:" || key == "PBPB:" || key == "PBD:" || key == "TRK:" then Unspecified
    else Malformed
  }

  /** `parse_route_info`. Every key ends at its only colon, so testing prefixes is testing the text up to the
      first colon. */
  function ParseInfo(r: Route, comp: string): Outcome {
    var k := Find(comp, ':');
    if k == |comp| then AddInfo(r, Token(Trunc(comp, TOKEN_CAP)))
    else Assign(r, comp[..k + 1], comp[k + 1..])
  }

  function ParseAll(r: Route, comps: seq<string>): Outcome
    decreases |comps|
  {
    if comps == [] then Ok(r)
    else match ParseInfo(r, comps[0])
      case Ok(r') => ParseAll(r', comps[1..])
      case Malformed => Malformed
      case Unspecified => Unspecified
  }

  function Parse(buf: string): Outcome {
    var comps := Split.NonEmpty(Split.Pieces(buf, " "));
    if |comps| > MAX_INFO then Malformed else ParseAll(EMPTY, comps)
  }

  // ----- routes that can be printed without loss -----

  predicate NameOk(s: string) { |s| < 8 && ' ' !in s }

  predicate ProcOk(p: Proc) {
    NameOk(p.name) && NameOk(p.trans) && (p.typed <==> p.name != "") && (p.trans != "" ==> p.name != "")
  }

  predicate InfoOk(i: Info) {
    match i
    case Fix(n) => NameOk(n) && '(' !in n
    case Awy(n) => NameOk(n)
    case Token(n) => 0 < |n| < 24 && ' ' !in n && ':' !in n
  }

  predicate RouteOk(r: Route) {
    && NameOk(r.orig) && NameOk(r.dest) && NameOk(r.origRwy) && NameOk(r.destRwy)
    && ProcOk(r.sid) && ProcOk(r.star) && ProcOk(r.appch)
    && (forall i :: 0 <= i < |r.info| ==> InfoOk(r.info[i]))
    && |Tokens(r)| <= 128
  }

  // ----- splitting undoes spacing -----

  predicate Solid(t: string) { t != "" && ' ' !in t }

  predicate AllSolid(ts: seq<string>) { forall i :: 0 <= i < |ts| ==> Solid(ts[i]) }

  lemma WantedOfTail(tail: string)
    requires tail == "" || tail == " "
    ensures Split.Wanted(tail, " ", true) == []
  {
    if tail == " " {
      assert tail[..0] == "" && tail[1..] == "";
    }
  }

  lemma WantedOfToken(t: string, rest: string)
    requires Solid(t)
    ensures Split.Wanted(t + " " + rest, " ", true) == [t] + Split.Wanted(rest, " ", true)
  {
    var s := t + " " + rest;
    Split.FindChar(t, ' ', rest);
    assert s[|t| + 1..] == rest && s[..|t|] == t;
  }

  lemma {:induction false} WantedOfSpaced(ts: seq<string>, tail: string)
    requires AllSolid(ts) && (tail == "" || tail == " ")
    ensures Split.Wanted(Spaced(ts) + tail, " ", true) == ts
  {
    if ts == [] {
      WantedOfTail(tail);
      assert Spaced(ts) + tail == tail;
    } else {
      var rest := Spaced(ts[1..]) + tail;
      assert Spaced(ts) + tail == ts[0] + " " + rest;
      WantedOfToken(ts[0], rest);
      WantedOfSpaced(ts[1..], tail);
    }
  }

  lemma OptSolid(key: string, value: string)
    requires Solid(key) && ' ' !in value
    ensures AllSolid(Opt(key, value))
  {
  }

  lemma ProcSolid(key: string, transKey: string, p: Proc)
    requires Solid(key) && Solid(transKey) && ProcOk(p)
    ensures AllSolid(ProcTokens(key, transKey, p))
  {
    OptSolid(key, p.name);
    OptSolid(transKey, p.trans);
  }

  lemma {:induction false} InfoSolid(infos: seq<Info>)
    requires forall i :: 0 <= i < |infos| ==> InfoOk(infos[i])
    ensures AllSolid(InfoTokens(infos))
  {
    if infos != [] {
      InfoSolid(infos[..|infos| - 1]);
      assert InfoOk(infos[|infos| - 1]);
      assert Solid(InfoToken(infos[|infos| - 1]));
    }
  }

  lemma TokensSolid(r: Route)
    requires RouteOk(r)
    ensures AllSolid(Tokens(r))
  {
    OptSolid("ORIG:", r.orig);
    OptSolid("DEST:", r.dest);
    OptSolid("ORWY:", r.origRwy);
    OptSolid("DRWY:", r.destRwy);
    ProcSolid("SID:", "SIDTR:", r.sid);
    ProcSolid("STAR:", "STARTR:", r.star);
    ProcSolid("APP:", "APPTR:", r.appch);
    InfoSolid(r.info);
  }

  // ----- parsing undoes printing, section by section -----

  function Then(o: Outcome, comps: seq<string>): Outcome {
    match o case Ok(r) => ParseAll(r, comps) case Malformed => Malformed case Unspecified => Unspecified
  }

  lemma {:induction false} ParseAppend(r: Route, a: seq<string>, b: seq<string>)
    ensures ParseAll(r, a + b) == Then(ParseAll(r, a), b)
    decreases |a|
  {
    if a == [] {
      assert a + b == b;
    } else {
      assert (a + b)[1..] == a[1..] + b;
      if ParseInfo(r, a[0]).Ok? { ParseAppend(ParseInfo(r, a[0]).route, a[1..], b); }
    }
  }

  lemma ParseOne(r: Route, t: string)
    ensures ParseAll(r, [t]) == ParseInfo(r, t)
  {
    assert [t][1..] == [];
  }

  lemma KeyedParse(r: Route, key: string, v: string)
    requires key != "" && key[|key| - 1] == ':' && ':' !in key[..|key| - 1]
    ensures ParseInfo(r, key + v) == Assign(r, key, v)
    ensures ParseAll(r, [key + v]) == Assign(r, key, v)
  {
    var a := key[..|key| - 1];
    assert key + v == a + [':'] + v;
    FindAfter(a, ':', v);
    assert (key + v)[..|key|] == key && (key + v)[|key|..] == v;
    ParseOne(r, key + v);
  }

  lemma EndsParse(r: Route, orig: string, dest: string)
    requires NameOk(orig) && NameOk(dest)
    ensures ParseAll(r, Opt("ORIG:", orig)) == Ok(if orig == "" then r else r.(orig := orig))
    ensures ParseAll(r, Opt("DEST:", dest)) == Ok(if dest == "" then r else r.(dest := dest))
  {
    KeyedParse(r, "ORIG:", orig);
    KeyedParse(r, "DEST:", dest);
  }

  /** What the parser makes of a runway: it loses the first two characters. */
  function Clipped(rwy: string): string { if |rwy| < 2 then "" else rwy[2..] }

  lemma RunwayParse(r: Route, orig: string, dest: string)
    requires NameOk(orig) && NameOk(dest)
    ensures ParseAll(r, Opt("ORWY:", orig))
            == if orig == "" then Ok(r) else if |orig| == 1 then Unspecified else Ok(r.(origRwy := Clipped(orig)))
    ensures ParseAll(r, Opt("DRWY:", dest))
            == if dest == "" then Ok(r) else if |dest| == 1 then Unspecified else Ok(r.(destRwy := Clipped(dest)))
  {
    KeyedParse(r, "ORWY:", orig);
    KeyedParse(r, "DRWY:", dest);
  }

  lemma TwoTokens(r: Route, a: string, b: seq<string>)
    requires ParseAll(r, [a]).Ok?
    ensures ParseAll(r, [a] + b) == ParseAll(ParseAll(r, [a]).route, b)
  {
    ParseAppend(r, [a], b);
  }

  lemma SidParse(r: Route, p: Proc)
    requires ProcOk(p) && r.sid == NO_PROC
    ensures ParseAll(r, ProcTokens("SID:", "SIDTR:", p)) == Ok(r.(sid := p))
  {
    KeyedParse(r, "SID:", p.name);
    TwoTokens(r, "SID:" + p.name, Opt("SIDTR:", p.trans));
    KeyedParse(r.(sid := Proc(true, p.name, "")), "SIDTR:", p.trans);
  }

  lemma StarParse(r: Route, p: Proc)
    requires ProcOk(p) && r.star == NO_PROC
    ensures ParseAll(r, ProcTokens("STAR:", "STARTR:", p)) == Ok(r.(star := p))
  {
    KeyedParse(r, "STAR:", p.name);
    TwoTokens(r, "STAR:" + p.name, Opt("STARTR:", p.trans));
    KeyedParse(r.(star := Proc(true, p.name, "")), "STARTR:", p.trans);
  }

  lemma AppchParse(r: Route, p: Proc)
    requires ProcOk(p) && r.appch == NO_PROC
    ensures ParseAll(r, ProcTokens("APP:", "APPTR:", p)) == Ok(r.(appch := p))
  {
    KeyedParse(r, "APP:", p.name);
    TwoTokens(r, "APP:" + p.name, Opt("APPTR:", p.trans));
    KeyedParse(r.(appch := Proc(true, p.name, "")), "APPTR:", p.trans);
  }

  lemma InfoParse(r: Route, i: Info)
    requires InfoOk(i) && |r.info| < MAX_INFO
    ensures ParseAll(r, [InfoToken(i)]) == Ok(r.(info := r.info + [i]))
  {
    match i
    case Fix(n) => KeyedParse(r, "FIX:", n);
    case Awy(n) => KeyedParse(r, "AWY:", n);
    case Token(n) => ParseOne(r, n); assert Find(n, ':') == |n|;
  }

  lemma {:induction false} InfosParse(r: Route, infos: seq<Info>)
    requires (forall i :: 0 <= i < |infos| ==> InfoOk(infos[i])) && |r.info| + |infos| <= MAX_INFO
    ensures ParseAll(r, InfoTokens(infos)) == Ok(r.(info := r.info + infos))
    decreases |infos|
  {
    if infos == [] {
      assert r.info + infos == r.info;
    } else {
      var n := |infos| - 1;
      InfosParse(r, infos[..n]);
      var r1 := r.(info := r.info + infos[..n]);
      ParseAppend(r, InfoTokens(infos[..n]), [InfoToken(infos[n])]);
      InfoParse(r1, infos[n]);
      assert r1.info + [infos[n]] == r.info + infos;
    }
  }

  lemma {:induction false} InfoTokensLen(infos: seq<Info>)
    ensures |InfoTokens(infos)| == |infos|
  {
    if infos != [] { InfoTokensLen(infos[..|infos| - 1]); }
  }

  /** The part of the route behind the runways. */
  lemma BodyParse(r: Route, p: Route)
    requires RouteOk(r) && p.sid == NO_PROC && p.star == NO_PROC && p.appch == NO_PROC && p.info == []
    ensures ParseAll(p, Body(r)) == Ok(p.(sid := r.sid, info := r.info, star := r.star, appch := r.appch))
  {
    var a, b := ProcTokens("SID:", "SIDTR:", r.sid), InfoTokens(r.info);
    var c, d := ProcTokens("STAR:", "STARTR:", r.star), ProcTokens("APP:", "APPTR:", r.appch);
    InfoTokensLen(r.info);
    ParseAppend(p, a + b + c, d);
    ParseAppend(p, a + b, c);
    ParseAppend(p, a, b);
    SidParse(p, r.sid);
    var p1 := p.(sid := r.sid);
    InfosParse(p1, r.info);
    assert p1.info + r.info == r.info;
    var p2 := p1.(info := r.info);
    StarParse(p2, r.star);
    AppchParse(p2.(star := r.star), r.appch);
  }

  lemma HeadParse(r: Route)
    requires RouteOk(r)
    ensures ParseAll(EMPTY, Ends(r)) == Ok(EMPTY.(orig := r.orig, dest := r.dest))
  {
    ParseAppend(EMPTY, Opt("ORIG:", r.orig), Opt("DEST:", r.dest));
    EndsParse(EMPTY, r.orig, r.dest);
    EndsParse(EMPTY.(orig := r.orig), r.orig, r.dest);
  }

  lemma RunwaysParse(r: Route, p: Route)
    requires RouteOk(r) && p.origRwy == "" && p.destRwy == ""
    ensures ParseAll(p, Runways(r))
            == if |r.origRwy| == 1 || |r.destRwy| == 1 then Unspecified
               else Ok(p.(origRwy := Clipped(r.origRwy), destRwy := Clipped(r.destRwy)))
  {
    ParseAppend(p, Opt("ORWY:", r.origRwy), Opt("DRWY:", r.destRwy));
    RunwayParse(p, r.origRwy, r.destRwy);
    RunwayParse(p.(origRwy := Clipped(r.origRwy)), r.origRwy, r.destRwy);
  }

  lemma TailParse(r: Route, p: Route)
    requires RouteOk(r) && p == EMPTY.(orig := r.orig, dest := r.dest)
    ensures ParseAll(p, Runways(r) + Body(r))
            == if |r.origRwy| == 1 || |r.destRwy| == 1 then Unspecified
               else Ok(r.(origRwy := Clipped(r.origRwy), destRwy := Clipped(r.destRwy)))
  {
    ParseAppend(p, Runways(r), Body(r));
    RunwaysParse(r, p);
    BodyParse(r, p.(origRwy := Clipped(r.origRwy), destRwy := Clipped(r.destRwy)));
  }

  lemma ParseTokens(r: Route)
    requires RouteOk(r)
    ensures ParseAll(EMPTY, Tokens(r))
            == if |r.origRwy| == 1 || |r.destRwy| == 1 then Unspecified
               else Ok(r.(origRwy := Clipped(r.origRwy), destRwy := Clipped(r.destRwy)))
  {
    ParseAppend(EMPTY, Ends(r), Runways(r) + Body(r));
    HeadParse(r);
    TailParse(r, EMPTY.(orig := r.orig, dest := r.dest));
  }

  lemma SplitSerialized(r: Route)
    requires RouteOk(r)
    ensures Split.NonEmpty(Split.Pieces(Serialize(r), " ")) == Tokens(r)
  {
    TokensSolid(r);
    WantedOfSpaced(Tokens(r), if IsDirect(r) then " " else "");
    Split.WantedIs(Serialize(r), " ", true);
  }

  /** Exactly what parsing a printed route gives: everything but the runways, which lose two characters, or, when
      one has a single character, a read past the end of the component. */
  lemma ParseSerialized(r: Route)
    requires RouteOk(r)
    ensures Parse(Serialize(r))
            == if |r.origRwy| == 1 || |r.destRwy| == 1 then Unspecified
               else Ok(r.(origRwy := Clipped(r.origRwy), destRwy := Clipped(r.destRwy)))
  {
    SplitSerialized(r);
    ParseTokens(r);
  }

  /** A route comes back unchanged exactly when it names no runway. */
  lemma RoundTripIff(r: Route)
    requires RouteOk(r)
    ensures Parse(Serialize(r)) == Ok(r) <==> r.origRwy == "" && r.destRwy == ""
  {
    ParseSerialized(r);
    assert r.origRwy != "" ==> |Clipped(r.origRwy)| < |r.origRwy|;
    assert r.destRwy != "" ==> |Clipped(r.destRwy)| < |r.destRwy|;
  }

  // ----- the loops -----

  /** `parse_route`: split at spaces, then one component after the other. */
  method ParseRoute(buf: string) returns (o: Outcome)
    ensures o == Parse(buf)
  {
    var comps := Split.StrSplit(buf, " ", true);
    if comps.Length > MAX_INFO { return Malformed; }
    o := Ok(EMPTY);
    var i := 0;
    while i < comps.Length
      invariant 0 <= i <= comps.Length && o.Ok?
      invariant ParseAll(o.route, comps[i..]) == ParseAll(EMPTY, comps[..])
    {
      assert comps[i..][1..] == comps[i + 1..];
      o := ParseInfo(o.route, comps[i]);
      if !o.Ok? { return; }
      i := i + 1;
    }
  }

  lemma {:induction false} SpacedAppend(a: seq<string>, b: seq<string>)
    ensures Spaced(a + b) == Spaced(a) + Spaced(b)
  {
    if a == [] {
      assert a + b == b;
    } else {
      assert (a + b)[1..] == a[1..] + b;
      SpacedAppend(a[1..], b);
    }
  }

  lemma SpacedOne(t: string)
    ensures Spaced([t]) == t + " "
  {
    assert [t][1..] == [];
  }

  /** One `APPEND_SNPRINTF` more. */
  lemma ConcatSnoc(chunks: seq<string>, c: string)
    ensures Printer.Concat(chunks + [c]) == Printer.Concat(chunks) + c
  {
    assert (chunks + [c])[..|chunks|] == chunks;
  }

  method PutOpt(chunks: seq<string>, key: string, value: string) returns (r: seq<string>)
    ensures Printer.Concat(r) == Printer.Concat(chunks) + Spaced(Opt(key, value))
    ensures value != "" ==> r != []
    ensures |chunks| <= |r|
  {
    r := chunks;
    SpacedOne(key + value);
    if value != "" {
      ConcatSnoc(chunks, key + value + " ");
      r := r + [key + value + " "];
    }
  }

  method PutProc(chunks: seq<string>, key: string, transKey: string, proc: Proc) returns (r: seq<string>)
    ensures Printer.Concat(r) == Printer.Concat(chunks) + Spaced(ProcTokens(key, transKey, proc))
    ensures |chunks| <= |r| && (proc.name != "" ==> r != [])
  {
    r := chunks;
    if proc.name != "" {
      SpacedAppend([key + proc.name], Opt(transKey, proc.trans));
      r := PutOpt(r, key, proc.name);
      r := PutOpt(r, transKey, proc.trans);
    }
  }

  method PutInfos(chunks: seq<string>, infos: seq<Info>) returns (r: seq<string>)
    ensures Printer.Concat(r) == Printer.Concat(chunks) + Spaced(InfoTokens(infos))
    ensures |r| == |chunks| + |infos|
  {
    r := chunks;
    var i := 0;
    assert infos[..0] == [];
    while i < |infos|
      invariant 0 <= i <= |infos| && |r| == |chunks| + i
      invariant Printer.Concat(r) == Printer.Concat(chunks) + Spaced(InfoTokens(infos[..i]))
    {
      assert infos[..i + 1][..i] == infos[..i];
      var t := InfoToken(infos[i]);
      SpacedAppend(InfoTokens(infos[..i]), [t]);
      SpacedOne(t);
      ConcatSnoc(r, t + " ");
      r := r + [t + " "];
      i := i + 1;
    }
    assert infos[..i] == infos;
  }

  lemma BodyText(r: Route)
    ensures Spaced(Body(r)) == Spaced(ProcTokens("SID:", "SIDTR:", r.sid)) + Spaced(InfoTokens(r.info))
                               + Spaced(ProcTokens("STAR:", "STARTR:", r.star))
                                   + Spaced(ProcTokens("APP:", "APPTR:", r.appch))
  {
    var a, b := ProcTokens("SID:", "SIDTR:", r.sid), InfoTokens(r.info);
    var c, d := ProcTokens("STAR:", "STARTR:", r.star), ProcTokens("APP:", "APPTR:", r.appch);
    SpacedAppend(a, b);
    SpacedAppend(a + b, c);
    SpacedAppend(a + b + c, d);
  }

  lemma Assoc(base: string, a: string, b: string, c: string, d: string)
    ensures base + a + b + c + d == base + (a + b + c + d)
  {
  }

  method PutBody(chunks: seq<string>, r: Route) returns (c: seq<string>)
    ensures Printer.Concat(c) == Printer.Concat(chunks) + Spaced(Body(r))
    ensures !IsDirect(r) ==> c != []
  {
    BodyText(r);
    Assoc(Printer.Concat(chunks), Spaced(ProcTokens("SID:", "SIDTR:", r.sid)), Spaced(InfoTokens(r.info)),
          Spaced(ProcTokens("STAR:", "STARTR:", r.star)), Spaced(ProcTokens("APP:", "APPTR:", r.appch)));
    c := PutProc(chunks, "SID:", "SIDTR:", r.sid);
    c := PutInfos(c, r.info);
    c := PutProc(c, "STAR:", "STARTR:", r.star);
    c := PutProc(c, "APP:", "APPTR:", r.appch);
  }

  lemma HeadText(r: Route)
    ensures Spaced(Ends(r)) + Spaced(Runways(r))
            == "" + Spaced(Opt("ORIG:", r.orig)) + Spaced(Opt("DEST:", r.dest))
               + Spaced(Opt("ORWY:", r.origRwy)) + Spaced(Opt("DRWY:", r.destRwy))
  {
    var a, b, c, d := Opt("ORIG:", r.orig), Opt("DEST:", r.dest), Opt("ORWY:", r.origRwy), Opt("DRWY:", r.destRwy);
    SpacedAppend(a, b);
    SpacedAppend(c, d);
    Regroup(Spaced(a), Spaced(b), Spaced(c), Spaced(d));
  }

  lemma Regroup(a: string, b: string, c: string, d: string)
    ensures (a + b) + (c + d) == "" + a + b + c + d
  {
  }

  lemma WholeText(r: Route)
    ensures Serialize(r) == Spaced(Ends(r)) + Spaced(Runways(r)) + Spaced(Body(r)) + if IsDirect(r) then " " else ""
  {
    SpacedAppend(Runways(r), Body(r));
    SpacedAppend(Ends(r), Runways(r) + Body(r));
  }

  method PutHead(r: Route) returns (c: seq<string>)
    ensures Printer.Concat(c) == Spaced(Ends(r)) + Spaced(Runways(r))
  {
    HeadText(r);
    c := PutOpt([], "ORIG:", r.orig);
    c := PutOpt(c, "DEST:", r.dest);
    c := PutOpt(c, "ORWY:", r.origRwy);
    c := PutOpt(c, "DRWY:", r.destRwy);
  }

  /** The calls of `APPEND_SNPRINTF` that `serialize_route` makes in its machine form. */
  method RouteChunks(r: Route) returns (c: seq<string>)
    ensures Printer.Concat(c) == Serialize(r) && c != []
  {
    WholeText(r);
    c := PutHead(r);
    c := PutBody(c, r);
    if IsDirect(r) {
      ConcatSnoc(c, " ");
      c := c + [" "];
    }
  }

  /** `serialize_route` into a buffer of any size: the buffer holds as much of the text as fits. */
  method SerializeRoute(r: Route, buf: array<char>)
    modifies buf
    ensures Printer.Holds(buf[..], Serialize(r))
  {
    var c := RouteChunks(r);
    var n := Printer.Render(c, buf);
  }

  /** A route of more than 128 components is refused. */
  lemma TooManyComponents(ts: seq<string>)
    requires AllSolid(ts) && |ts| > 128
    ensures Parse(Spaced(ts)) == Malformed
  {
    WantedOfSpaced(ts, "");
    assert Spaced(ts) + "" == Spaced(ts);
    Split.WantedIs(Spaced(ts), " ", true);
  }
}
