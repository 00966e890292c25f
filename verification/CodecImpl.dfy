/** The loops of the codec, refining its specification functions. */
module CodecImpl {
  import opened Options
  import opened Text
  import opened Codec
  import E = Escape
  import P = Printer
  import Split

  // ----- decoding -----

  /** `find_arg_end` */
  method FindArgEnd(s: string, e: nat) returns (n: nat)
    requires e <= |s|
    ensures n == ArgEnd(s, e)
  {
    n := 0;
    assert s[0..] == s;
    while n < e && !IsSpace(s[n])
      invariant 0 <= n <= e && ArgEnd(s, e) == n + ArgEnd(s[n..], e - n)
    {
      assert s[n..][1..] == s[n + 1..];
      n := n + 1;
    }
  }

  /** `SKIP_SPACE` */
  method SkipSpace(s: string, e: nat) returns (n: nat)
    requires e <= |s|
    ensures n == SpaceRun(s, e)
  {
    n := 0;
    assert s[0..] == s;
    while n < e && IsSpace(s[n])
      invariant 0 <= n <= e && SpaceRun(s, e) == n + SpaceRun(s[n..], e - n)
    {
      assert s[n..][1..] == s[n + 1..];
      n := n + 1;
    }
  }

  ghost function Behind(args: seq<Arg>, r: Result<seq<Arg>>): Result<seq<Arg>> {
    if r.Good? then Good(args + r.value) else r
  }

  lemma BehindStep(read: Reader, key: Key, ks: seq<Kind>, s: string, e: nat, args: seq<Arg>)
    requires ks != [] && 0 < e <= |s|
    ensures var r := read(key, ks[0], s, e);
            Behind(args, ParseArgs(read, key, ks, s, e))
            == if r.Bad? then Bad else if r.Undef? then Undef else if r.value.next > e then Bad
               else Behind(args + [r.value.arg], ParseArgs(read, key, ks[1..], s[r.value.next..], e - r.value.next))
  {
    var r := read(key, ks[0], s, e);
    if r.Good? && r.value.next <= e {
      var rest := ParseArgs(read, key, ks[1..], s[r.value.next..], e - r.value.next);
      if rest.Good? { assert args + ([r.value.arg] + rest.value) == args + [r.value.arg] + rest.value; }
    }
  }

  lemma BehindEnd(read: Reader, key: Key, ks: seq<Kind>, s: string, e: nat, args: seq<Arg>)
    requires e <= |s| && (ks == [] || e == 0)
    ensures Behind(args, ParseArgs(read, key, ks, s, e)) == if ks == [] && e == 0 then Good(args) else Bad
  {
    assert args + [] == args;
  }

  lemma BehindNothing(r: Result<seq<Arg>>)
    ensures Behind([], r) == r
  {
    if r.Good? { assert [] + r.value == r.value; }
  }

  /** The argument loop of `msg_decode_seg`. */
  method DecodeArgs(read: Reader, key: Key, ks: seq<Kind>, s: string, e: nat) returns (r: Result<seq<Arg>>)
    requires e <= |s|
    ensures r == ParseArgs(read, key, ks, s, e)
  {
    var num, start := 0, 0;
    var args: seq<Arg> := [];
    assert ks[0..] == ks && s[0..] == s;
    ghost var all := ParseArgs(read, key, ks, s, e);
    BehindNothing(all);
    while num < |ks| && start < e
      invariant 0 <= num <= |ks| && 0 <= start <= e
      invariant all == Behind(args, ParseArgs(read, key, ks[num..], s[start..], e - start))
    {
      BehindStep(read, key, ks[num..], s[start..], e - start, args);
      var one := read(key, ks[num], s[start..], e - start);
      if one.Bad? { return Bad; }
      if one.Undef? { return Undef; }
      if one.value.next > e - start { return Bad; }
      args := args + [one.value.arg];
      assert ks[num..][1..] == ks[num + 1..] && s[start..][one.value.next..] == s[start + one.value.next..];
      num, start := num + 1, start + one.value.next;
    }
    BehindEnd(read, key, ks[num..], s[start..], e - start, args);
    if num != |ks| || start != e { return Bad; }
    return Good(args);
  }

  // The readers the specification is built from are named here by what they read, so that each method below speaks of
  // the reader it is given and of no more.

  ghost function TailOf(table: Table, key: Key, s: string, e: nat): Result<Seg> { ReadTail(table)(key, s, e) }

  ghost predicate ReadsTails(read: TailReader, table: Table) {
    forall key: Key, s: string, e: nat {:trigger TailOf(table, key, s, e)} ::
      read(key, s, e) == TailOf(table, key, s, e)
  }

  ghost function SegOf(table: Table, s: string, e: nat): Result<Seg> { ReadSeg(table)(s, e) }

  ghost predicate ReadsSegs(read: SegReader, table: Table) {
    forall s: string, e: nat {:trigger SegOf(table, s, e)} :: read(s, e) == SegOf(table, s, e)
  }

  ghost function HeaderOf(table: Table, isDl: bool, d: Draft, s: string, sep: nat): Result<Draft> {
    ReadFieldOf(table, isDl)(d, s, sep)
  }

  ghost predicate ReadsHeaders(read: FieldReader, table: Table, isDl: bool) {
    forall d: Draft, s: string, sep: nat {:trigger HeaderOf(table, isDl, d, s, sep)} ::
      read(d, s, sep) == HeaderOf(table, isDl, d, s, sep)
  }

  /** `msg_decode_seg` behind the type and the subtype. */
  method DecodeTailBy(table: Table, key: Key, s: string, e: nat, read: Reader) returns (r: Result<Seg>)
    requires e < |s|
    ensures r == ParseTail(read, table, key, s, e)
  {
    if key !in table || !IsSpace(s[0]) { return Bad; }
    var w := SkipSpace(s, e);
    var args := DecodeArgs(read, key, table[key], s[w..], e - w);
    if args.Bad? { return Bad; }
    if args.Undef? { return Undef; }
    return Good(Seg(key, args.value));
  }

  method DecodeTail(table: Table, key: Key, s: string, e: nat, ghost read: TailReader) returns (r: Result<Seg>)
    requires e < |s| && ReadsTails(read, table)
    ensures r == read(key, s, e)
  {
    assert read(key, s, e) == TailOf(table, key, s, e);
    r := DecodeTailBy(table, key, s, e, ReadArg);
  }

  /** The type and the subtype: a verdict, or the key and where its arguments start. */
  method DecodeType(table: Table, isDl: bool, s: string, e: nat, ghost read: TailReader)
    returns (r: Option<Result<Seg>>, key: Key, at: nat)
    requires 0 < e < |s|
    ensures r.Some? ==> r.value == ParseTyped(read, table, isDl, s, e)
    ensures r.None? ==> at <= e && ParseTyped(read, table, isDl, s, e) == read(key, s[at..], e - at)
  {
    var n, d := Atoi(s), DigitsLen(s[..e]);
    key := Key(isDl, 0, NO_SUBTYPE);
    if n < 0 || n > (if isDl then MAX_DM else MAX_UM) { return Some(Bad), key, 0; }
    key := Key(isDl, n, NO_SUBTYPE);
    if d == e {
      if key !in table || table[key] != [] { return Some(Bad), key, 0; }
      return Some(Good(Seg(key, []))), key, 0;
    }
    if IsSpace(s[d]) { return None, key, d; }
    if !isDl || n != 67 || s[d] < 'b' || s[d] > 'i' { return Some(Bad), key, 0; }
    return None, Key(isDl, n, s[d]), d + 1;
  }

  method DecodeTyped(table: Table, isDl: bool, s: string, e: nat, ghost read: TailReader) returns (r: Result<Seg>)
    requires 0 < e < |s| && ReadsTails(read, table)
    ensures r == ParseTyped(read, table, isDl, s, e)
  {
    var out, key, at := DecodeType(table, isDl, s, e, read);
    if out.Some? { return out.value; }
    r := DecodeTail(table, key, s[at..], e - at, read);
  }

  /** The two letters: None for others, or whether it is a downlink. */
  method DecodeLetters(table: Table, s: string, e: nat, ghost read: TailReader) returns (isDl: Option<bool>)
    requires e < |s|
    ensures isDl.None? ==> ParseSeg(read, table, s, e) == Bad
    ensures isDl.Some? ==> e > 2 && ParseSeg(read, table, s, e) == ParseTyped(read, table, isDl.value, s[2..], e - 2)
  {
    if e <= 2 { return None; }
    if s[..2] == "DM" { return Some(true); }
    if s[..2] == "UM" { return Some(false); }
    return None;
  }

  method DecodeSegBy(table: Table, s: string, e: nat, ghost read: TailReader) returns (r: Result<Seg>)
    requires e < |s| && ReadsTails(read, table)
    ensures r == ParseSeg(read, table, s, e)
  {
    var isDl := DecodeLetters(table, s, e, read);
    if isDl.None? { return Bad; }
    r := DecodeTyped(table, isDl.value, s[2..], e - 2, read);
  }

  /** `msg_decode_seg` */
  method DecodeSeg(table: Table, s: string, e: nat, ghost read: SegReader) returns (r: Result<Seg>)
    requires e < |s| && ReadsSegs(read, table)
    ensures r == read(s, e)
  {
    assert read(s, e) == SegOf(table, s, e);
    r := DecodeSegBy(table, s, e, ReadTail(table));
  }

  /** The branch of `cpdlc_msg_decode` for a MSG header. */
  method DecodeMsgHeader(table: Table, isDl: bool, d: Draft, v: string, n: nat, ghost read: SegReader)
    returns (r: Result<Draft>)
    requires n < |v| && ReadsSegs(read, table)
    ensures r == ReadNamed(read, isDl, d, "MSG=", v, n, false)
  {
    if |d.segs| == MAX_SEGS { return Bad; }
    var seg := DecodeSeg(table, v, n, read);
    if seg.Bad? { return Bad; }
    if seg.Undef? { return Undef; }
    if d.segs != [] && seg.value.key.isDl != isDl { return Bad; }
    return Good(d.(segs := d.segs + [seg.value]));
  }

  /** The copying loop of an OPTIONS header. */
  method DecodeOpts(d: Draft, text: string) returns (d': Draft)
    ensures d' == ReadOpts(d, text)
  {
    var os := Split.Pieces(text, ",");
    var slots, i := d.opts, 0;
    while i < |os| && i < MAX_OPTS
      invariant 0 <= i <= |os| && i <= MAX_OPTS && PutOpts(d.opts, os, 0) == PutOpts(slots, os, i)
    {
      slots := slots[i := Trunc(os[i], OPT_CAP)];
      i := i + 1;
    }
    d' := d.(opts := slots, numOpts := d.numOpts + i);
  }

  /** The branches of the header loop, in their order. */
  method DecodeNamed(
      table: Table, isDl: bool, d: Draft, name: string, v: string, n: nat, logoff: bool, ghost read: SegReader)
    returns (r: Result<Draft>)
    requires n < |v| && ReadsSegs(read, table)
    ensures r == ReadNamed(read, isDl, d, name, v, n, logoff)
  {
    if name == "PKT=" {
      var p := ReadPkt(v);
      if p.None? { return Bad; }
      return Good(d.(pktSeen := true, pkt := p.value));
    } else if name == "TS=" {
      return ReadStamp(d, v);
    } else if name == "MIN=" || name == "MRN=" {
      var num := ScanNum(v);
      if num.NoNum? { return Bad; }
      if name == "MIN=" { return Good(d.(min := AsUnsigned(num))); }
      return Good(d.(mrn := AsUnsigned(num)));
    } else if name == "LOGON=" {
      var t := E.Unescaped(v[..n]);
      if t.None? { return Undef; }
      return Good(d.(logon := Some(t.value)));
    } else if logoff {
      return Good(d.(logoff := true));
    } else if name == "TO=" {
      return Good(d.(to := E.UnescapedInto(d.to, Trunc(v[..n], 32), 0)));
    } else if name == "FROM=" {
      return Good(d.(from := E.UnescapedInto(d.from, Trunc(v[..n], 32), 0)));
    } else if name == "MSG=" {
      r := DecodeMsgHeader(table, isDl, d, v, n, read);
    } else if name == "ARINC622=" {
      return Undef;
    } else if name == "OPTIONS=" {
      var d' := DecodeOpts(d, Trunc(v[..n], 128));
      return Good(d');
    } else {
      return Bad;
    }
  }

  method DecodeHeader(table: Table, isDl: bool, d: Draft, s: string, sep: nat, ghost read: FieldReader)
    returns (r: Result<Draft>)
    requires sep < |s| && ReadsHeaders(read, table, isDl)
    ensures r == read(d, s, sep)
  {
    assert read(d, s, sep) == HeaderOf(table, isDl, d, s, sep);
    var h := HeaderLen(s, sep);
    r := DecodeNamed(table, isDl, d, s[..h], s[h..], sep - h, StartsWith(s, "LOGOFF"), ReadSeg(table));
  }

  /** The header loop of `cpdlc_msg_decode`, from the draft `d0`. */
  method DecodeFields(table: Table, isDl: bool, d0: Draft, s: string, t: nat, ghost read: FieldReader)
    returns (r: Result<Draft>)
    requires t < |s| && ReadsHeaders(read, table, isDl)
    ensures r == ReadFields(read, d0, s, t)
  {
    ghost var all := ReadFields(read, d0, s, t);
    var d, rest, left: nat := d0, s, t;
    while left > 0
      invariant left < |rest| && all == ReadFields(read, d, rest, left)
    {
      var sep := SepAt(rest, left);
      var one := DecodeHeader(table, isDl, d, rest, sep, read);
      FieldsTurn(read, d, rest, left, sep, one);
      if !one.Good? || sep == left { return one; }
      d, rest, left := one.value, rest[sep + 1..], left - sep - 1;
    }
    return Good(d);
  }

  lemma FieldsTurn(read: FieldReader, d: Draft, s: string, t: nat, sep: nat, one: Result<Draft>)
    requires 0 < t < |s| && sep == SepAt(s, t) && one == read(d, s, sep)
    ensures ReadFields(read, d, s, t)
            == if !one.Good? || sep == t then one else ReadFields(read, one.value, s[sep + 1..], t - sep - 1)
  {
  }

  /** `cpdlc_msg_decode` */
  method DecodeMsg(table: Table, isDl: bool, s: string) returns (r: Decoded)
    ensures r == Decode(table, isDl, s)
  {
    var eol := FindEol(s);
    if eol.NoEol? { return NeedMore; }
    var d := DecodeFields(table, isDl, START, s, eol.at, ReadFieldOf(table, isDl));
    if d.Bad? { return Malformed; }
    if d.Undef? { return Unspecified; }
    var m := Finish(d.value);
    if m.Bad? { return Malformed; }
    if m.Undef? { return Unspecified; }
    return Got(m.value, eol.at + eol.len);
  }

  // ----- encoding: the chunks handed to the bounded printer -----

  lemma ConcatSnoc(chunks: seq<string>, c: string)
    ensures P.Concat(chunks + [c]) == P.Concat(chunks) + c
  {
    assert (chunks + [c])[..|chunks|] == chunks;
  }

  lemma {:induction false} BlankedSnoc(ts: seq<string>, t: string)
    ensures Blanked(ts + [t]) == Blanked(ts) + (" " + t)
  {
    if ts == [] {
      assert ts + [t] == [t] && [t][1..] == [];
    } else {
      assert (ts + [t])[1..] == ts[1..] + [t];
      BlankedSnoc(ts[1..], t);
    }
  }

  /** The loop of `encode_seg` over the arguments. */
  lemma BlankedNext(chunks: seq<string>, ts: seq<string>, i: nat, c: string)
    requires i < |ts| && P.Concat(chunks) == Blanked(ts[..i]) && c == " " + ts[i]
    ensures P.Concat(chunks + [c]) == Blanked(ts[..i + 1])
  {
    ConcatSnoc(chunks, c);
    assert ts[..i + 1] == ts[..i] + [ts[i]];
    BlankedSnoc(ts[..i], ts[i]);
  }

  method EncodeArgs(ks: seq<Kind>, args: seq<Arg>) returns (chunks: seq<string>)
    requires |ks| == |args| && forall i :: 0 <= i < |ks| ==> Shaped(ks[i], args[i])
    ensures P.Concat(chunks) == Blanked(ArgTexts(ks, args))
  {
    chunks := [];
    ghost var ts := ArgTexts(ks, args);
    var i := 0;
    while i < |ks|
      invariant 0 <= i <= |ks| && P.Concat(chunks) == Blanked(ts[..i])
    {
      var c := " " + ArgText(ks[i], args[i]);
      BlankedNext(chunks, ts, i, c);
      chunks := chunks + [c];
      i := i + 1;
    }
    assert ts[..i] == ts;
  }

  lemma {:induction false} LineSnoc(table: Table, fs: seq<Field>, f: Field)
    requires fs != [] && AllShaped(table, fs) && FieldShaped(table, f) && AllShaped(table, fs + [f])
    ensures Line(table, fs + [f]) == Line(table, fs) + ("/" + FieldText(table, f))
    decreases |fs|
  {
    var all := fs + [f];
    assert all[1..] == fs[1..] + [f];
    if |fs| == 1 {
      assert all[1..] == [f];
    } else {
      LineSnoc(table, fs[1..], f);
    }
  }

  lemma LineNext(table: Table, fs: seq<Field>, f: Field, fs': seq<Field>, chunks: seq<string>, c: string)
    requires fs != [] && fs' == fs + [f] && AllShaped(table, fs) && FieldShaped(table, f) && AllShaped(table, fs')
    requires P.Concat(chunks) == Line(table, fs) && c == "/" + FieldText(table, f)
    ensures P.Concat(chunks + [c]) == Line(table, fs')
  {
    ConcatSnoc(chunks, c);
    LineSnoc(table, fs, f);
  }

  /** The encoder prints field after field; each but the first starts with a slash. */
  method EncodeFields(table: Table, fs: seq<Field>) returns (chunks: seq<string>)
    requires fs != [] && AllShaped(table, fs)
    ensures P.Concat(chunks) == Line(table, fs) && chunks != []
  {
    chunks := [FieldText(table, fs[0])];
    assert chunks == [] + [chunks[0]];
    ConcatSnoc([], chunks[0]);
    assert fs[..1] == [fs[0]];
    var i := 1;
    while i < |fs|
      invariant 1 <= i <= |fs| && chunks != [] && P.Concat(chunks) == Line(table, fs[..i])
    {
      var c := "/" + FieldText(table, fs[i]);
      assert fs[..i + 1] == fs[..i] + [fs[i]];
      LineNext(table, fs[..i], fs[i], fs[..i + 1], chunks, c);
      chunks := chunks + [c];
      i := i + 1;
    }
    assert fs[..i] == fs;
  }

  /** `cpdlc_msg_encode`: the length returned does not depend on the buffer, which holds as much as fits. */
  method EncodeMsg(table: Table, m: Msg, buf: array<char>) returns (n: nat)
    requires MsgShaped(table, m)
    modifies buf
    ensures n == |Encode(table, m)| && P.Holds(buf[..], Encode(table, m))
  {
    FieldsShaped(table, m);
    var chunks := EncodeFields(table, Fields(m));
    ConcatSnoc(chunks, "\n");
    n := P.Render(chunks + ["\n"], buf);
  }
}
