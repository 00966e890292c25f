/**
 The plain wire format: `cpdlc_msg_encode` and `cpdlc_msg_decode`. A buffer is a C string, so it holds no NUL.
 Arguments that need floating point, procedures and position reports are not part of this model.
 */
module Codec {
  import opened Options
  import opened Text
  import E = Escape
  import R = Route
  import Split

  datatype Kind =
    | KAlt | KSpd | KTime | KDur | KPos | KDir | KVvi | KToFrom | KRoute | KSquawk
    | KIcao | KDeg | KText | KPersons | KTp4 | KErr | KVersion | KAtis

  datatype Dir = Left | Right | Either | North | South | East | West | NE | NW | SE | SW

  datatype Pos = Unset | FixName(name: string) | Navaid(name: string) | Airport(name: string) | Unknown(name: string)

  /** `Num` serves VVI, squawk, persons, TP4 table, error and version; unsigned ones are below 2^32. */
  datatype Arg =
    | Alt(fl: bool, met: bool, alt: int)
    | Spd(mach: bool, spd: nat)
    | Time(hrs: int, mins: int)
    | Position(pos: Pos)
    | Direction(dir: Dir)
    | Num(n: int)
    | ToFrom(to: bool)
    | RouteArg(route: Option<R.Route>)
    | Icao(id: string)
    | Degrees(deg: nat, tru: bool)
    | FreeText(text: string)
    | Atis(code: char)

  const NO_SUBTYPE := 0 as char

  datatype Key = Key(isDl: bool, msgType: nat, subtype: char)

  /** The message table: which rows exist and the argument kinds of each. */
  type Table = map<Key, seq<Kind>>

  datatype Seg = Seg(key: Key, args: seq<Arg>)

  datatype Pkt = Cpdlc | Ping | Pong

  const INVALID_SEQ := 0xffff_ffff
  const CALLSIGN_CAP := 8
  const OPT_CAP := 12
  const MAX_OPTS := 4
  const MAX_SEGS := 5
  const TEXT_CAP := 8192

  /** `logon` is the logon data of a LOGON message. Timestamp and format flags are left out. */
  datatype Msg = Msg(
    pkt: Pkt, min: nat, mrn: nat, to: string, from: string,
    logon: Option<string>, logoff: bool, opts: seq<string>, segs: seq<Seg>)

  // ----- printing arguments -----

  predicate Shaped(k: Kind, a: Arg) {
    match k
    case KAlt => a.Alt?
    case KSpd => a.Spd?
    case KTime => a.Time?
    case KDur => a.Time?
    case KPos => a.Position?
    case KDir => a.Direction?
    case KToFrom => a.ToFrom?
    case KRoute => a.RouteArg?
    case KIcao => a.Icao?
    case KDeg => a.Degrees?
    case KText => a.FreeText?
    case KAtis => a.Atis?
    case _ => a.Num?
  }

  /** `round(a / b)` on a quotient: halves go away from zero. */
  function RoundDiv(a: int, b: nat): int
    requires b > 0
  {
    if a >= 0 then (a + b / 2) / b else -((-a + b / 2) / b)
  }

  function PadInt(n: int, width: nat): string {
    if n >= 0 then Pad(n, width) else "-" + Pad(-n, if width == 0 then 0 else width - 1)
  }

  function AltText(fl: bool, met: bool, alt: int): string {
    (if fl then "FL" else "") + DecInt(if fl && !met then RoundDiv(alt, 100) else alt) + if met then "M" else ""
  }

  function SpdText(mach: bool, spd: nat): string {
    if !mach then DecInt(Signed(spd))
    else "M" + (if spd < 1000 then "" else Dec(spd / 1000)) + "." + PadInt(RoundDiv(spd % 1000, 10), 2)
  }

  function DirText(d: Dir): string {
    match d
    case Left => "L" case Right => "R" case Either => "-" case North => "N" case South => "S" case East => "E"
    case West => "W" case NE => "NE" case NW => "NW" case SE => "SE" case SW => "SW"
  }

  /** A position that is not set has the first type and an empty name. */
  function PosText(p: Pos): string {
    match p
    case Unset => "FIX:"
    case FixName(n) => "FIX:" + n
    case Navaid(n) => "NAV:" + n
    case Airport(n) => "ARPT:" + n
    case Unknown(n) => n
  }

  const POS_CAP := 128

  /** What `cpdlc_encode_msg_arg` prints behind the space that starts every argument. */
  function ArgText(k: Kind, a: Arg): string
    requires Shaped(k, a)
  {
    match k
    case KAlt => AltText(a.fl, a.met, a.alt)
    case KSpd => SpdText(a.mach, a.spd)
    case KTime => if a.hrs < 0 then "NOW" else PadInt(a.hrs, 2) + PadInt(a.mins, 2)
    case KDur => DecInt(a.hrs * 60 + a.mins)
    case KPos => E.EscapedInto(Trunc(PosText(a.pos), POS_CAP), 0, TEXT_CAP)
    case KDir => DirText(a.dir)
    case KVvi => DecInt(a.n)
    case KToFrom => if a.to then "TO" else "FROM"
    case KRoute =>
      if a.route.None? then "NIL" else E.EscapedInto(Trunc(R.Serialize(a.route.value), TEXT_CAP), 0, TEXT_CAP)
    case KSquawk => PadInt(Wrap32(a.n), 4)
    case KIcao => a.id
    case KDeg => DecInt(Signed(a.deg)) + if a.tru then "T" else ""
    case KText => E.EscapedInto(a.text, 0, TEXT_CAP)
    case KPersons => if a.n == 0 then "-" else DecInt(Wrap32(a.n))
    case KTp4 => DecInt(a.n)
    case KErr => DecInt(a.n)
    case KVersion => DecInt(Wrap32(a.n))
    case KAtis => [a.code]
  }

  function ArgTexts(ks: seq<Kind>, args: seq<Arg>): (ts: seq<string>)
    requires |ks| == |args| && forall i :: 0 <= i < |ks| ==> Shaped(ks[i], args[i])
    ensures |ts| == |ks| && forall i :: 0 <= i < |ts| ==> ts[i] == ArgText(ks[i], args[i])
  {
    seq(|ks|, i requires 0 <= i < |ks| => ArgText(ks[i], args[i]))
  }

  /** Every token is preceded by a blank. */
  function Blanked(ts: seq<string>): string {
    if ts == [] then "" else " " + ts[0] + Blanked(ts[1..])
  }

  predicate SegShaped(table: Table, seg: Seg) {
    seg.key in table && |seg.args| == |table[seg.key]|
    && forall i :: 0 <= i < |seg.args| ==> Shaped(table[seg.key][i], seg.args[i])
  }

  function SegName(key: Key): string {
    (if key.isDl then "DM" else "UM") + Dec(key.msgType) + if key.subtype == NO_SUBTYPE then "" else [key.subtype]
  }

  // ----- printing messages: fields separated by slashes -----

  datatype Field =
    | FPkt(pkt: Pkt) | FTo(name: string) | FMin(n: nat) | FMrn(n: nat) | FLogon(data: string) | FLogoff
    | FOpts(opts: seq<string>) | FFrom(name: string) | FSeg(seg: Seg)

  function PktName(p: Pkt): string {
    match p case Cpdlc => "CPDLC" case Ping => "PING" case Pong => "PONG"
  }

  predicate FieldShaped(table: Table, f: Field) { f.FSeg? ==> SegShaped(table, f.seg) }

  function FieldText(table: Table, f: Field): string
    requires FieldShaped(table, f)
  {
    match f
    case FPkt(p) => "PKT=" + PktName(p)
    case FTo(s) => "TO=" + E.EscapedInto(s, 0, 32)
    case FMin(n) => "MIN=" + DecInt(Signed(n))
    case FMrn(n) => "MRN=" + DecInt(Signed(n))
    case FLogon(s) => "LOGON=" + E.EscapedInto(s, 0, 64)
    case FLogoff => "LOGOFF"
    case FOpts(os) => "OPTIONS=" + Split.Join(os, ",")
    case FFrom(s) => "FROM=" + E.EscapedInto(s, 0, 32)
    case FSeg(seg) => "MSG=" + SegName(seg.key) + Blanked(ArgTexts(table[seg.key], seg.args))
  }

  function SegFields(segs: seq<Seg>): (fs: seq<Field>)
    ensures |fs| == |segs| && forall i :: 0 <= i < |fs| ==> fs[i] == FSeg(segs[i])
  {
    seq(|segs|, i requires 0 <= i < |segs| => FSeg(segs[i]))
  }

  function If(b: bool, f: Field): seq<Field> { if b then [f] else [] }

  predicate NoSeg(fs: seq<Field>) { forall i :: 0 <= i < |fs| ==> !fs[i].FSeg? }

  function NumberFields(m: Msg): (fs: seq<Field>)
    ensures NoSeg(fs) && |fs| > 1 && forall i :: 1 <= i < |fs| ==> !fs[i].FPkt?
  {
    [FPkt(m.pkt)] + If(m.to != "", FTo(m.to)) + [FMin(m.min)] + If(m.mrn != INVALID_SEQ, FMrn(m.mrn))
  }

  function LinkFields(m: Msg): (fs: seq<Field>)
    ensures NoSeg(fs) && forall i :: 0 <= i < |fs| ==> !fs[i].FPkt?
  {
    (if m.logon.Some? then [FLogon(m.logon.value)] else []) + If(m.logoff, FLogoff)
    + If(m.opts != [], FOpts(m.opts)) + If(m.from != "", FFrom(m.from))
  }

  function HeadFields(m: Msg): (fs: seq<Field>)
    ensures NoSeg(fs)
  {
    NumberFields(m) + LinkFields(m)
  }

  /** The fields in the order the encoder prints them. */
  function Fields(m: Msg): seq<Field> { HeadFields(m) + SegFields(m.segs) }

  predicate AllShaped(table: Table, fs: seq<Field>) { forall i :: 0 <= i < |fs| ==> FieldShaped(table, fs[i]) }

  function Line(table: Table, fs: seq<Field>): string
    requires AllShaped(table, fs)
  {
    if fs == [] then ""
    else if |fs| == 1 then FieldText(table, fs[0])
    else FieldText(table, fs[0]) + "/" + Line(table, fs[1..])
  }

  predicate MsgShaped(table: Table, m: Msg) { forall i :: 0 <= i < |m.segs| ==> SegShaped(table, m.segs[i]) }

  lemma FieldsShaped(table: Table, m: Msg)
    requires MsgShaped(table, m)
    ensures AllShaped(table, Fields(m))
  {
    var h := HeadFields(m);
    forall i | 0 <= i < |Fields(m)| ensures FieldShaped(table, Fields(m)[i]) {
      if i < |h| { assert Fields(m)[i] == h[i]; }
    }
  }

  function Encode(table: Table, m: Msg): string
    requires MsgShaped(table, m)
  {
    FieldsShaped(table, m);
    Line(table, Fields(m)) + "\n"
  }

  // ----- reading arguments: `s` is the buffer from the argument on, `e` the offset of the segment's end -----

  /** `Undef`: the text is outside this model, or the program's result is undefined. */
  datatype Result<T> = Good(value: T) | Bad | Undef

  /** `find_arg_end` and `SKIP_NONSPACE` */
  function ArgEnd(s: string, e: nat): (n: nat)
    requires e <= |s|
    ensures n <= e && (forall i :: 0 <= i < n ==> !IsSpace(s[i])) && (n < e ==> IsSpace(s[n]))
  {
    if e == 0 || IsSpace(s[0]) then 0 else 1 + ArgEnd(s[1..], e - 1)
  }

  /** `SKIP_SPACE` */
  function SpaceRun(s: string, e: nat): (n: nat)
    requires e <= |s|
    ensures n <= e && (n < e ==> !IsSpace(s[n]))
  {
    if e == 0 || !IsSpace(s[0]) then 0 else 1 + SpaceRun(s[1..], e - 1)
  }

  function ParseAlt(s: string, e: nat): Result<Arg>
    requires 0 < e <= |s| && !IsSpace(s[0])
  {
    var fl := 2 < e && s[0] == 'F' && s[1] == 'L';
    var num := ScanNum(if fl then s[2..] else s);
    if num.NoNum? then Bad
    else
      var v := AsInt(num);
      var met := s[ArgEnd(s, e) - 1] == 'M';
      if fl then
        if v <= 0 then Bad
        else if met then (if v > 20000 then Bad else Good(Alt(true, true, v)))
        else if v * 100 >= TWO31 then Undef
        else if v * 100 > 60000 then Bad
        else Good(Alt(true, false, v * 100))
      else if v < -1500 || v > 100000 then Bad
      else Good(Alt(false, met, v))
  }

  /** "inf" or "nan", in letters of either case. */
  predicate InfOrNan(s: string) {
    |s| >= 3
    && ((s[0] in {'i', 'I'} && s[1] in {'n', 'N'} && s[2] in {'f', 'F'})
        || (s[0] in {'n', 'N'} && s[1] in {'a', 'A'} && s[2] in {'n', 'N'}))
  }

  /** An unsigned decimal fraction, times 1000; exact where it has at most three places, 0 where there is no number. */
  function Decimal(s: string): Result<nat> {
    var i := DigitsLen(s);
    var dot := i < |s| && s[i] == '.';
    var frac := if dot then s[i + 1..] else "";
    var f := DigitsLen(frac);
    var after := if dot then frac[f..] else s[i..];
    if i == 0 && f == 0 then (if InfOrNan(s) then Undef else Good(0))
    else if i > 6 || f > 3 || (after != "" && IsAlnum(after[0])) then Undef
    else Good(Value(s[..i]) * 1000 + Value(frac[..f]) * PlaceValue(f))
  }

  function PlaceValue(f: nat): nat { if f == 0 then 1000 else if f == 1 then 100 else if f == 2 then 10 else 1 }

  /** A number below zero does not fit the unsigned field it is stored in. */
  function Negated(r: Result<nat>): Result<nat> { if r.Good? && r.value > 0 then Undef else r }

  /** `atof` times 1000: white space, a sign, a decimal fraction. */
  function Thousandths(s: string): Result<nat> {
    var a := s[SpaceLen(s)..];
    if a != "" && IsSign(a[0]) then (if a[0] == '-' then Negated(Decimal(a[1..])) else Decimal(a[1..])) else Decimal(a)
  }

  function ParseSpd(s: string, e: nat): Result<Arg>
    requires 0 < e <= |s| && !IsSpace(s[0])
  {
    if 1 < e && s[0] == 'M' then
      match Thousandths(s[1..])
      case Good(v) => if v < 100 then Bad else Good(Spd(true, v))
      case Bad => Bad
      case Undef => Undef
    else Good(Spd(false, Atoi(s) % TWO32))
  }

  function Slice(s: string, a: nat, b: nat): string
    requires a <= b
  {
    if |s| <= a then "" else if |s| < b then s[a..] else s[a..b]
  }

  function ParseTime(s: string): Result<Arg> {
    if StartsWith(s, "NOW") then Good(Time(-1, 0))
    else
      var h, m := ScanNum(Slice(s, 0, 2)), ScanNum(Slice(s, 2, 4));
      if h.NoNum? || m.NoNum? then Bad
      else
        var hrs, mins := AsInt(h), AsInt(m);
        if 0 <= hrs <= 23 && 0 <= mins <= 59 then Good(Time(hrs, mins)) else Bad
  }

  function ParseDur(s: string): Result<Arg> {
    var num := ScanNum(s);
    if num.NoNum? then Bad
    else
      var v := Signed(AsUnsigned(num));
      Good(if v >= 0 then Time(v / 60, v % 60) else Time(-(-v / 60), -(-v % 60)))
  }

  /** `parse_pos`; a spec with an unknown type marker is accepted and leaves the position unset. */
  function ParsePos(t: string): Result<Arg> {
    if ':' !in t then Good(Position(Unknown(Trunc(t, 16))))
    else if StartsWith(t, "FIX:") then Good(Position(FixName(Trunc(t[4..], 8))))
    else if StartsWith(t, "NAV:") then Good(Position(Navaid(Trunc(t[4..], 8))))
    else if StartsWith(t, "ARPT:") then Good(Position(Airport(Trunc(t[5..], 8))))
    else if StartsWith(t, "LATLON:") || StartsWith(t, "PBD:") then Undef
    else Good(Position(Unset))
  }

  function ParsePosition(s: string, e: nat): Result<Arg>
    requires e <= |s|
  {
    var n := ArgEnd(s, e);
    if n >= POS_CAP then Bad
    else match E.Unescaped(s[..n])
      case None => Bad
      case Some(t) => ParsePos(t)
  }

  predicate IsHold(key: Key) { !key.isDl && key.msgType == 91 }

  predicate IsOffset(key: Key) {
    if key.isDl then key.msgType in {15, 16, 17} else key.msgType in {64, 65, 66, 152}
  }

  predicate DirAllowed(key: Key, d: Dir) {
    match d
    case Left => true
    case Right => true
    case Either => !IsHold(key) && !IsOffset(key)
    case _ => !IsOffset(key)
  }

  function ReadDir(s: string): Option<Dir>
    requires s != ""
  {
    var two := if |s| > 1 then s[1] else ' ';
    if s[0] == 'N' && two == 'E' then Some(NE)
    else if s[0] == 'N' && two == 'W' then Some(NW)
    else if s[0] == 'S' && two == 'E' then Some(SE)
    else if s[0] == 'S' && two == 'W' then Some(SW)
    else if s[0] == '-' then Some(Either)
    else if s[0] == 'L' then Some(Left)
    else if s[0] == 'R' then Some(Right)
    else if s[0] == 'N' then Some(North)
    else if s[0] == 'S' then Some(South)
    else if s[0] == 'E' then Some(East)
    else if s[0] == 'W' then Some(West)
    else None
  }

  function ParseDir(key: Key, s: string): Result<Arg>
    requires s != ""
  {
    var d := ReadDir(s);
    if d.None? || !DirAllowed(key, d.value) then Bad else Good(Direction(d.value))
  }

  predicate IsOctal(n: int) {
    0 <= n < 10000 && n % 10 < 8 && n / 10 % 10 < 8 && n / 100 % 10 < 8 && n / 1000 < 8
  }

  function Ranged(ok: bool, n: int): Result<Arg> { if ok then Good(Arg.Num(n)) else Bad }

  /** `%d` and `%u` conversions that have to succeed. */
  function ParseNum(k: Kind, s: string): Result<Arg> {
    var num := ScanNum(s);
    match k
    case KVvi => Ranged(0 <= Atoi(s) <= 10000, Atoi(s))
    case KPersons => Ranged(0 <= Atoi(s) <= 1024, Atoi(s))
    case KSquawk => if num.NoNum? then Bad else Ranged(IsOctal(AsInt(num)), AsInt(num))
    case KTp4 => if num.NoNum? then Bad else Ranged(AsInt(num) == 0 || AsInt(num) == 1, AsInt(num))
    case KErr => if num.NoNum? then Bad else Ranged(AsUnsigned(num) <= 10, AsUnsigned(num))
    case _ => if num.NoNum? then Bad else Good(Arg.Num(AsUnsigned(num)))
  }

  function ParseToFrom(s: string, e: nat): Result<Arg>
    requires e <= |s|
  {
    if StartsWith(s, "TO") && ArgEnd(s, e) == 2 then Good(ToFrom(true))
    else if StartsWith(s, "FROM") && ArgEnd(s, e) == 4 then Good(ToFrom(false))
    else Bad
  }

  function ParseDegrees(s: string, e: nat): Result<Arg>
    requires 0 < e <= |s| && !IsSpace(s[0])
  {
    if 0 <= Atoi(s) <= 360 then Good(Degrees(Atoi(s), s[ArgEnd(s, e) - 1] == 'T')) else Bad
  }

  function ParseText(s: string, e: nat): Result<Arg>
    requires e <= |s|
  {
    match E.Unescaped(Trunc(s[..e], TEXT_CAP))
    case None => Bad
    case Some(t) => Good(FreeText(t))
  }

  function ParseRoute(s: string, e: nat): Result<Arg>
    requires e <= |s|
  {
    match E.Unescaped(Trunc(s[..e], TEXT_CAP))
    case None => Bad
    case Some(t) =>
      match R.Parse(t)
      case Ok(r) => Good(RouteArg(Some(r)))
      case Malformed => Bad
      case Unspecified => Undef
  }

  /** The parser is at the first character of an argument. */
  predicate AtArg(s: string, e: nat) { 0 < e <= |s| && !IsSpace(s[0]) }

  function ParseArg(key: Key, k: Kind, s: string, e: nat): Result<Arg>
    requires AtArg(s, e)
  {
    match k
    case KAlt => ParseAlt(s, e)
    case KSpd => ParseSpd(s, e)
    case KTime => ParseTime(s)
    case KDur => ParseDur(s)
    case KPos => ParsePosition(s, e)
    case KDir => ParseDir(key, s)
    case KToFrom => ParseToFrom(s, e)
    case KRoute => ParseRoute(s, e)
    case KIcao => Good(Icao(Trunc(s[..ArgEnd(s, e)], 8)))
    case KDeg => ParseDegrees(s, e)
    case KText => ParseText(s, e)
    case KAtis => if 'A' <= s[0] <= 'Z' then Good(Atis(s[0])) else Bad
    case _ => ParseNum(k, s)
  }

  predicate TakesRest(k: Kind) { k == KText || k == KRoute }

  /** How far an argument and the blanks behind it reach. */
  function Advance(k: Kind, s: string, e: nat): (n: nat)
    requires 0 < e <= |s| && !IsSpace(s[0])
    ensures 0 < n <= e && (n < e ==> !IsSpace(s[n]))
  {
    if TakesRest(k) then e else var a := ArgEnd(s, e); a + SpaceRun(s[a..], e - a)
  }

  /** An argument and the offset of the next one. */
  datatype Taken = Taken(arg: Arg, next: nat)

  /** Reads one argument, given the segment's key, the argument's kind, the rest of the buffer and the segment's end. */
  type Reader = (Key, Kind, string, nat) -> Result<Taken>

  function ReadArg(key: Key, k: Kind, s: string, e: nat): Result<Taken> {
    if !AtArg(s, e) then Bad
    else match ParseArg(key, k, s, e)
      case Bad => Bad
      case Undef => Undef
      case Good(a) => Good(Taken(a, Advance(k, s, e)))
  }

  function ParseArgs(read: Reader, key: Key, ks: seq<Kind>, s: string, e: nat): Result<seq<Arg>>
    requires e <= |s|
    decreases |ks|
  {
    if ks == [] then (if e == 0 then Good([]) else Bad)
    else if e == 0 then Bad
    else match read(key, ks[0], s, e)
      case Bad => Bad
      case Undef => Undef
      case Good(Taken(a, n)) =>
        if n > e then Bad
        else match ParseArgs(read, key, ks[1..], s[n..], e - n)
          case Bad => Bad
          case Undef => Undef
          case Good(rest) => Good([a] + rest)
  }

  const MAX_DM := 80
  const MAX_UM := 198

  /** The rest of a segment behind its type and subtype, with the arguments its table row asks for. */
  function ParseTail(read: Reader, table: Table, key: Key, s: string, e: nat): Result<Seg>
    requires e < |s|
  {
    if key !in table || !IsSpace(s[0]) then Bad
    else
      var w := SpaceRun(s, e);
      match ParseArgs(read, key, table[key], s[w..], e - w)
      case Bad => Bad
      case Undef => Undef
      case Good(args) => Good(Seg(key, args))
  }

  /** Reads what follows type and subtype: key, the rest of the buffer, the segment's end. */
  type TailReader = (Key, string, nat) -> Result<Seg>

  function ReadTail(table: Table): TailReader {
    (key: Key, s: string, e: nat) => if e < |s| then ParseTail(ReadArg, table, key, s, e) else Bad
  }

  /** `msg_decode_seg` behind the letters. */
  function ParseTyped(read: TailReader, table: Table, isDl: bool, s: string, e: nat): Result<Seg>
    requires 0 < e < |s|
  {
    var n := Atoi(s);
    if n < 0 || n > (if isDl then MAX_DM else MAX_UM) then Bad
    else
      var d := DigitsLen(s[..e]);
      var plain := Key(isDl, n, NO_SUBTYPE);
      if d == e then (if plain in table && table[plain] == [] then Good(Seg(plain, [])) else Bad)
      else if IsSpace(s[d]) then read(plain, s[d..], e - d)
      else if !isDl || n != 67 || s[d] < 'b' || s[d] > 'i' then Bad
      else read(Key(isDl, n, s[d]), s[d + 1..], e - d - 1)
  }

  function ParseSeg(read: TailReader, table: Table, s: string, e: nat): Result<Seg>
    requires e < |s|
  {
    if e <= 2 then Bad
    else if s[..2] == "DM" then ParseTyped(read, table, true, s[2..], e - 2)
    else if s[..2] == "UM" then ParseTyped(read, table, false, s[2..], e - 2)
    else Bad
  }

  // ----- reading messages -----

  /** The slots of the options array. */
  type Slots = s: seq<string> | |s| == MAX_OPTS witness ["", "", "", ""]

  /** The message while it is being read. Callsigns are buffers that later headers overwrite; `numOpts` counts over
      all OPTIONS headers although each one starts filling at slot 0. */
  datatype Draft = Draft(
    pktSeen: bool, pkt: Pkt, min: nat, mrn: nat, to: seq<char>, from: seq<char>,
    logon: Option<string>, logoff: bool, opts: Slots, numOpts: nat, segs: seq<Seg>)

  const BLANK: seq<char> := [E.NUL, E.NUL, E.NUL, E.NUL, E.NUL, E.NUL, E.NUL, E.NUL]

  const START := Draft(false, Cpdlc, INVALID_SEQ, INVALID_SEQ, BLANK, BLANK, None, false, ["", "", "", ""], 0, [])

  function ReadPkt(v: string): Option<Pkt> {
    if StartsWith(v, "CPDLC/") then Some(Cpdlc)
    else if StartsWith(v, "PING/") then Some(Ping)
    else if StartsWith(v, "PONG/") then Some(Pong)
    else None
  }

  function PutOpts(slots: Slots, os: seq<string>, i: nat): Slots
    decreases |os| - i
  {
    if i >= |os| || i >= MAX_OPTS then slots else PutOpts(slots[i := Trunc(os[i], OPT_CAP)], os, i + 1)
  }

  function Min2(a: nat, b: nat): nat { if a < b then a else b }

  function ReadOpts(d: Draft, text: string): Draft {
    var os := Split.Pieces(text, ",");
    d.(opts := PutOpts(d.opts, os, 0), numOpts := d.numOpts + Min2(|os|, MAX_OPTS))
  }

  function ReadStamp(d: Draft, v: string): Result<Draft> {
    var num := ScanNum(v);
    if num.NoNum? then Bad
    else
      var t := AsUnsigned(num);
      if t / 10000 % 100 >= 24 || t / 100 % 100 >= 60 || t % 100 >= 60 then Bad else Good(d)
  }

  /** The name of a header is the text up to `=`, included; LOGOFF has none and is known by its letters. */
  function HeaderLen(s: string, sep: nat): (n: nat)
    requires sep < |s|
    ensures n <= sep
  {
    var q := Find(s, '=');
    if q < sep then q + 1 else 0
  }

  /** Reads one segment: the rest of the buffer, the segment's end. */
  type SegReader = (string, nat) -> Result<Seg>

  function ReadSeg(table: Table): SegReader {
    (s: string, e: nat) => if e < |s| then ParseSeg(ReadTail(table), table, s, e) else Bad
  }

  /** One header with its name, the rest of the buffer from its value on, and the length of the value. */
  function ReadNamed(read: SegReader, isDl: bool, d: Draft, name: string, v: string, n: nat,
                     logoff: bool): Result<Draft>
    requires n < |v|
  {
    if name == "PKT=" then
      match ReadPkt(v) case None => Bad case Some(p) => Good(d.(pktSeen := true, pkt := p))
    else if name == "TS=" then ReadStamp(d, v)
    else if name == "MIN=" then
      if ScanNum(v).NoNum? then Bad else Good(d.(min := AsUnsigned(ScanNum(v))))
    else if name == "MRN=" then
      if ScanNum(v).NoNum? then Bad else Good(d.(mrn := AsUnsigned(ScanNum(v))))
    else if name == "LOGON=" then
      match E.Unescaped(v[..n]) case None => Undef case Some(t) => Good(d.(logon := Some(t)))
    else if logoff then Good(d.(logoff := true))
    else if name == "TO=" then Good(d.(to := E.UnescapedInto(d.to, Trunc(v[..n], 32), 0)))
    else if name == "FROM=" then Good(d.(from := E.UnescapedInto(d.from, Trunc(v[..n], 32), 0)))
    else if name == "MSG=" then
      if |d.segs| == MAX_SEGS then Bad
      else match read(v, n)
        case Bad => Bad
        case Undef => Undef
        case Good(seg) =>
          if d.segs != [] && seg.key.isDl != isDl then Bad else Good(d.(segs := d.segs + [seg]))
    else if name == "ARINC622=" then Undef
    else if name == "OPTIONS=" then Good(ReadOpts(d, Trunc(v[..n], 128)))
    else Bad
  }

  /** One header, whose text ends at `sep`. */
  function ReadField(table: Table, isDl: bool, d: Draft, s: string, sep: nat): Result<Draft>
    requires sep < |s|
  {
    var h := HeaderLen(s, sep);
    ReadNamed(ReadSeg(table), isDl, d, s[..h], s[h..], sep - h, StartsWith(s, "LOGOFF"))
  }

  function SepAt(s: string, t: nat): (sep: nat)
    requires t < |s|
    ensures sep <= t
  {
    var k := Find(s, '/');
    if k < t then k else t
  }

  /** Reads one header: the message so far, the rest of the buffer, the end of the header. */
  type FieldReader = (Draft, string, nat) -> Result<Draft>

  function ReadFieldOf(table: Table, isDl: bool): FieldReader {
    (d: Draft, s: string, sep: nat) => if sep < |s| then ReadField(table, isDl, d, s, sep) else Bad
  }

  /** One turn of the header loop: it ends with a result, or goes on with the text from `next` on. */
  datatype Turn = Stop(result: Result<Draft>) | Go(draft: Draft, next: nat)

  function FieldTurn(read: FieldReader, d: Draft, s: string, t: nat): (turn: Turn)
    requires 0 < t < |s|
    ensures turn.Go? ==> 0 < turn.next <= t
  {
    var sep := SepAt(s, t);
    var r := read(d, s, sep);
    if r.Good? && sep < t then Go(r.value, sep + 1) else Stop(r)
  }

  /** The header loop; `t` is the offset of the line's end. */
  function ReadFields(read: FieldReader, d: Draft, s: string, t: nat): Result<Draft>
    requires t < |s|
    decreases t
  {
    if t == 0 then Good(d)
    else match FieldTurn(read, d, s, t)
      case Stop(r) => r
      case Go(d', n) => ReadFields(read, d', s[n..], t - n)
  }

  /** `validate_message` */
  predicate Validates(d: Draft) {
    && d.min != INVALID_SEQ
    && if d.logon.Some? || d.logoff then !(d.logon.Some? && d.logoff) && E.CStr(d.from) != ""
       else if d.pkt == Cpdlc then d.segs != []
       else d.segs == [] && (d.pkt == Ping ==> d.mrn == INVALID_SEQ)
  }

  function Finish(d: Draft): Result<Msg> {
    if !d.pktSeen || !Validates(d) then Bad
    else if d.numOpts > MAX_OPTS then Undef
    else Good(Msg(d.pkt, d.min, d.mrn, E.CStr(d.to), E.CStr(d.from), d.logon, d.logoff, d.opts[..d.numOpts], d.segs))
  }

  datatype Decoded = NeedMore | Got(msg: Msg, consumed: nat) | Malformed | Unspecified

  /** Where the line ends and how many bytes its end takes: LF, CR LF, or CR when there is no LF at all. */
  datatype Eol = NoEol | Eol(at: nat, len: nat)

  function FindEol(s: string): (r: Eol)
    ensures r.Eol? ==> r.at + r.len <= |s| && 0 < r.len
  {
    var lf := Find(s, '\n');
    if lf < |s| then (if lf > 0 && s[lf - 1] == '\r' then Eol(lf - 1, 2) else Eol(lf, 1))
    else
      var cr := Find(s, '\r');
      if cr < |s| then Eol(cr, 1) else NoEol
  }

  function Conclude(r: Result<Draft>, consumed: nat): Decoded {
    match r
    case Bad => Malformed
    case Undef => Unspecified
    case Good(d) =>
      match Finish(d)
      case Bad => Malformed
      case Undef => Unspecified
      case Good(m) => Got(m, consumed)
  }

  /** `cpdlc_msg_decode` */
  function Decode(table: Table, isDl: bool, s: string): Decoded {
    match FindEol(s)
    case NoEol => NeedMore
    case Eol(at, len) => Conclude(ReadFields(ReadFieldOf(table, isDl), START, s, at), at + len)
  }
}
