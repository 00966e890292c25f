/** Percent escapes: `cpdlc_escape_percent` and `cpdlc_unescape_percent` on C strings of bytes. */
module Escape {
  import opened Options
  import opened Text

  const NUL := 0 as char

  /** A C string: bytes, none of them NUL. */
  predicate CString(s: string) { forall i :: 0 <= i < |s| ==> 0 < s[i] as int < 256 }

  function Hex(d: nat): char
    requires d < 16
  {
    if d < 10 then ('0' as int + d) as char else ('a' as int + d - 10) as char
  }

  predicate IsHex(c: char) { IsDigit(c) || 'a' <= c <= 'f' || 'A' <= c <= 'F' }

  function HexValue(c: char): (d: nat)
    requires IsHex(c)
    ensures d < 16
  {
    if IsDigit(c) then c as int - '0' as int
    else if c <= 'F' then c as int - 'A' as int + 10
    else c as int - 'a' as int + 10
  }

  predicate IsPlain(c: char) { IsAlnum(c) || c == '.' || c == ',' }

  /** A negative `char` prints as ffffffXX, of which the first three characters fit the buffer. */
  function EscapeChar(c: char): (r: string)
    ensures |r| == if IsPlain(c) then 1 else 3
  {
    if IsPlain(c) then [c]
    else if c as int >= 128 then "%ff"
    else ['%', Hex(c as int / 16), Hex(c as int % 16)]
  }

  function Escaped(s: string): string {
    if s == "" then "" else EscapeChar(s[0]) + Escaped(s[1..])
  }

  datatype Taken = Bad | Take(c: char, rest: string)

  /** The next decoded byte; an incomplete or non-hexadecimal escape and an escaped NUL are bad. */
  function TakeOne(s: string): (r: Taken)
    requires s != ""
    ensures r.Take? ==> |r.rest| < |s|
  {
    if s[0] != '%' then Take(s[0], s[1..])
    else if |s| < 3 || !IsHex(s[1]) || !IsHex(s[2]) then Bad
    else
      var v := HexValue(s[1]) * 16 + HexValue(s[2]);
      if v == 0 then Bad else Take(v as char, s[3..])
  }

  function Unescaped(s: string): Option<string> {
    if s == "" then Some("")
    else match TakeOne(s)
      case Bad => None
      case Take(c, rest) => Prepend(c, Unescaped(rest))
  }

  function Prepend(c: char, r: Option<string>): Option<string> {
    if r.Some? then Some([c] + r.value) else None
  }

  /** Every percent sign starts an escape: two hexadecimal digits that are not both zero. */
  predicate WellEscaped(s: string) {
    forall i :: 0 <= i < |s| && s[i] == '%' ==>
      i + 2 < |s| && IsHex(s[i + 1]) && IsHex(s[i + 2]) && !(s[i + 1] == '0' && s[i + 2] == '0')
  }

  lemma WellEscapedTail(s: string, n: nat)
    requires n <= |s| && forall i :: 0 <= i < n && s[i] == '%' ==>
               i + 2 < |s| && IsHex(s[i + 1]) && IsHex(s[i + 2]) && !(s[i + 1] == '0' && s[i + 2] == '0')
    ensures WellEscaped(s) <==> WellEscaped(s[n..])
  {
    var r := s[n..];
    if WellEscaped(r) {
      forall i | 0 <= i < |s| && s[i] == '%'
        ensures i + 2 < |s| && IsHex(s[i + 1]) && IsHex(s[i + 2]) && !(s[i + 1] == '0' && s[i + 2] == '0')
      {
        if i >= n { assert r[i - n] == '%'; }
      }
    }
  }

  /** Exactly which texts can be unescaped. */
  lemma {:induction false} UnescapedIff(s: string)
    ensures Unescaped(s).Some? <==> WellEscaped(s)
  {
    if s != "" {
      if s[0] != '%' {
        WellEscapedTail(s, 1);
        UnescapedIff(s[1..]);
      } else if |s| >= 3 && IsHex(s[1]) && IsHex(s[2]) && !(s[1] == '0' && s[2] == '0') {
        WellEscapedTail(s, 3);
        UnescapedIff(s[3..]);
      } else {
        assert s[0] == '%' && !WellEscaped(s);
      }
    }
  }

  // ----- round trip -----

  /** The bytes that survive: 7-bit ones, and the one byte the broken escape of the others stands for. */
  predicate Survives(c: char) { c as int < 128 || c as int == 255 }

  predicate AllSurvive(s: string) { forall i :: 0 <= i < |s| ==> Survives(s[i]) }

  lemma EscapeCharBack(c: char, rest: string)
    requires 0 < c as int < 256
    ensures var d := if Survives(c) then c else 255 as char;
            Unescaped(EscapeChar(c) + rest) == Prepend(d, Unescaped(rest))
  {
    var e := EscapeChar(c) + rest;
    if IsPlain(c) {
      assert e[1..] == rest;
    } else {
      assert e[3..] == rest;
      if c as int >= 128 {
        assert e[0] == '%' && e[1] == 'f' && e[2] == 'f';
      } else {
        HexBack(c as int / 16);
        HexBack(c as int % 16);
        assert e[0] == '%' && e[1] == Hex(c as int / 16) && e[2] == Hex(c as int % 16);
      }
    }
  }

  lemma HexBack(d: nat)
    requires d < 16
    ensures IsHex(Hex(d)) && HexValue(Hex(d)) == d
  {
  }

  /** What decoding an encoded string gives, for every C string. */
  function Damaged(s: string): (r: string)
    ensures |r| == |s| && forall i :: 0 <= i < |s| ==> r[i] == if Survives(s[i]) then s[i] else 255 as char
  {
    if s == "" then "" else [if Survives(s[0]) then s[0] else 255 as char] + Damaged(s[1..])
  }

  lemma {:induction false} UnescapeEscaped(s: string)
    requires CString(s)
    ensures Unescaped(Escaped(s)) == Some(Damaged(s))
  {
    if s != "" {
      UnescapeEscaped(s[1..]);
      EscapeCharBack(s[0], Escaped(s[1..]));
    }
  }

  /** The escaping is undone exactly for the strings whose bytes are all 7-bit or 0xff. */
  lemma RoundTripIff(s: string)
    requires CString(s)
    ensures Unescaped(Escaped(s)) == Some(s) <==> AllSurvive(s)
  {
    UnescapeEscaped(s);
    if !AllSurvive(s) {
      var i :| 0 <= i < |s| && !Survives(s[i]);
      assert Damaged(s)[i] != s[i];
    } else {
      assert Damaged(s) == s;
    }
  }

  /** Characters of the escaped form: never a separator of the wire format. */
  predicate IsSafe(c: char) { IsPlain(c) || c == '%' }

  lemma {:induction false} EscapedIsSafe(s: string)
    requires CString(s)
    ensures forall i :: 0 <= i < |Escaped(s)| ==> IsSafe(Escaped(s)[i])
    ensures |s| <= |Escaped(s)| <= 3 * |s|
  {
    if s != "" {
      EscapedIsSafe(s[1..]);
      var e := EscapeChar(s[0]);
      assert forall i :: 0 <= i < |e| ==> IsSafe(e[i]);
      assert Escaped(s) == e + Escaped(s[1..]);
    }
  }

  // ----- the escaper with a bounded buffer -----

  /** Whether the escaper writes the chunk of `c` at offset `j` of a buffer of `cap` bytes: an escape has to
      leave one byte unused beyond its terminator. */
  predicate Written(c: char, j: nat, cap: nat) {
    if IsPlain(c) then j + 1 < cap else j + 4 < cap
  }

  /** The C string that a zeroed buffer of `cap` bytes holds after the escaper ran. */
  function EscapedInto(s: string, j: nat, cap: nat): string {
    if s == "" || !Written(s[0], j, cap) then ""
    else EscapeChar(s[0]) + EscapedInto(s[1..], j + |EscapeChar(s[0])|, cap)
  }

  /** Whether a string fits: the capacity is above the returned length, or equals it and no escape comes last. */
  predicate Fits(s: string, j: nat, cap: nat) {
    j + |Escaped(s)| + 1 < cap || (j + |Escaped(s)| + 1 == cap && (s == "" || IsPlain(s[|s| - 1])))
  }

  lemma {:induction false} EscapedNonEmpty(s: string)
    requires s != ""
    ensures |Escaped(s)| >= if IsPlain(s[|s| - 1]) then 1 else 3
    ensures |s| > 1 ==> |Escaped(s)| > |EscapeChar(s[0])|
  {
    if |s| > 1 { EscapedNonEmpty(s[1..]); }
  }

  lemma SameBehind(e: string, x: string, y: string)
    ensures e + x == e + y <==> x == y
  {
    assert (e + x)[|e|..] == x && (e + y)[|e|..] == y;
  }

  lemma FitsStep(s: string, j: nat, cap: nat)
    requires s != "" && j < cap
    ensures if Written(s[0], j, cap)
            then Fits(s, j, cap) <==> (s[1..] == "" || Fits(s[1..], j + |EscapeChar(s[0])|, cap))
            else !Fits(s, j, cap)
  {
    EscapedNonEmpty(s);
  }

  /** The bounded escaper is exact precisely when the string fits. */
  lemma {:induction false} FitsExactly(s: string, j: nat, cap: nat)
    requires j < cap
    ensures EscapedInto(s, j, cap) == Escaped(s) <==> (s == "" || Fits(s, j, cap))
  {
    if s != "" {
      FitsStep(s, j, cap);
      if Written(s[0], j, cap) {
        var e := EscapeChar(s[0]);
        FitsExactly(s[1..], j + |e|, cap);
        SameBehind(e, EscapedInto(s[1..], j + |e|, cap), Escaped(s[1..]));
      }
    }
  }

  // ----- the loops -----

  /** Bytes of a buffer up to the first NUL. */
  function CStr(b: seq<char>): (r: string)
    ensures |r| <= |b| && r == b[..|r|] && (|r| < |b| ==> b[|r|] == NUL) && NUL !in r
  {
    if b == [] || b[0] == NUL then "" else [b[0]] + CStr(b[1..])
  }

  /** `snprintf(&out[j], 4, "%%%02x", c)`: three characters and a NUL. */
  method PutEscape(out: array<char>, j: nat, c: char)
    requires j + 4 <= out.Length && !IsPlain(c)
    modifies out
    ensures out[..] == old(out[..j]) + EscapeChar(c) + [NUL] + old(out[j + 4..])
  {
    var e := EscapeChar(c);
    out[j], out[j + 1], out[j + 2], out[j + 3] := e[0], e[1], e[2], NUL;
  }

  lemma {:induction false} EscapedSnoc(s: string, c: char)
    ensures Escaped(s + [c]) == Escaped(s) + EscapeChar(c)
  {
    if s == "" {
      assert s + [c] == [c] && [c][1..] == "";
    } else {
      assert (s + [c])[1..] == s[1..] + [c];
      EscapedSnoc(s[1..], c);
    }
  }

  lemma EscapedNoNul(s: string)
    requires CString(s)
    ensures NUL !in Escaped(s)
  {
    EscapedIsSafe(s);
  }

  /** What the escaper has done so far: while `whole`, the first `j` bytes are the escaped text; after the first
      chunk that did not fit, the text before it stays and is followed by a NUL. */
  ghost predicate Progress(b: seq<char>, s: string, i: nat, j: nat, whole: bool, stop: nat, zeroed: bool) {
    && i <= |s| && j == |Escaped(s[..i])|
    && (whole ==>
          && j < |b| && b[..j] == Escaped(s[..i])
          && (zeroed ==> forall k :: j <= k < |b| ==> b[k] == NUL)
          && EscapedInto(s, 0, |b|) == Escaped(s[..i]) + EscapedInto(s[i..], j, |b|))
    && (!whole ==>
          && stop < j && stop < |b| && b[..stop] == EscapedInto(s, 0, |b|)
          && (zeroed ==> b[stop] == NUL)
          && NUL !in EscapedInto(s, 0, |b|) && stop < |Escaped(s)|)
  }

  lemma EscapedStep(s: string, i: nat)
    requires i < |s|
    ensures Escaped(s[..i + 1]) == Escaped(s[..i]) + EscapeChar(s[i])
  {
    assert s[..i + 1] == s[..i] + [s[i]];
    EscapedSnoc(s[..i], s[i]);
  }

  lemma IntoStep(s: string, i: nat, j: nat, cap: nat)
    requires i < |s| && Written(s[i], j, cap)
    ensures EscapedInto(s[i..], j, cap) == EscapeChar(s[i]) + EscapedInto(s[i + 1..], j + |EscapeChar(s[i])|, cap)
  {
    assert s[i..][1..] == s[i + 1..];
  }

  lemma WrittenText(b: seq<char>, b': seq<char>, t: string, e: string)
    requires |t| + |e| <= |b'| == |b| && b[..|t|] == t && b'[..|t|] == b[..|t|] && b'[|t|..|t| + |e|] == e
    ensures b'[..|t| + |e|] == t + e
  {
  }

  lemma Regrouped(w: string, t: string, e: string, r: string)
    requires w == t + (e + r)
    ensures w == (t + e) + r
  {
  }

  /** A chunk is written. */
  lemma ProgressWrite(b: seq<char>, b': seq<char>, s: string, i: nat, j: nat, zeroed: bool)
    requires CString(s) && i < |s| && Progress(b, s, i, j, true, 0, zeroed) && Written(s[i], j, |b|)
    requires |b'| == |b| && b'[..j] == b[..j]
    requires var e := EscapeChar(s[i]);
             b'[j..j + |e|] == e && forall k :: j + |e| <= k < |b| ==> b'[k] == b[k] || b'[k] == NUL
    ensures Progress(b', s, i + 1, j + |EscapeChar(s[i])|, true, 0, zeroed)
  {
    var e := EscapeChar(s[i]);
    EscapedStep(s, i);
    IntoStep(s, i, j, |b|);
    WrittenText(b, b', Escaped(s[..i]), e);
    Regrouped(EscapedInto(s, 0, |b|), Escaped(s[..i]), e, EscapedInto(s[i + 1..], j + |e|, |b|));
  }

  /** The first chunk that does not fit. */
  lemma ProgressStop(b: seq<char>, b': seq<char>, s: string, i: nat, j: nat, zeroed: bool)
    requires CString(s) && i < |s| && Progress(b, s, i, j, true, 0, zeroed) && !Written(s[i], j, |b|)
    requires |b'| == |b| && b'[..j] == b[..j] && (zeroed ==> b'[j] == NUL)
    ensures Progress(b', s, i + 1, j + |EscapeChar(s[i])|, false, j, zeroed)
  {
    assert s[..i + 1] == s[..i] + [s[i]];
    EscapedSnoc(s[..i], s[i]);
    EscapedNoNul(s[..i]);
    assert EscapedInto(s[i..], j, |b|) == "";
    EscapedPrefix(s, i + 1);
  }

  lemma {:induction false} EscapedPrefix(s: string, i: nat)
    requires i <= |s|
    ensures |Escaped(s[..i])| <= |Escaped(s)|
    decreases |s| - i
  {
    if i < |s| {
      assert s[..i + 1] == s[..i] + [s[i]];
      EscapedSnoc(s[..i], s[i]);
      EscapedPrefix(s, i + 1);
    } else {
      assert s[..i] == s;
    }
  }

  /** Whatever is written later lies behind the stop. */
  lemma ProgressSkip(b: seq<char>, b': seq<char>, s: string, i: nat, j: nat, stop: nat, zeroed: bool)
    requires CString(s) && i < |s| && Progress(b, s, i, j, false, stop, zeroed)
    requires |b'| == |b| && forall k :: 0 <= k < |b| && k < j ==> b'[k] == b[k]
    ensures Progress(b', s, i + 1, j + |EscapeChar(s[i])|, false, stop, zeroed)
  {
    assert s[..i + 1] == s[..i] + [s[i]];
    EscapedSnoc(s[..i], s[i]);
    assert b'[..stop] == b[..stop];
  }

  lemma CStrIs(b: seq<char>, t: string)
    requires |t| < |b| && b[..|t|] == t && b[|t|] == NUL && NUL !in t
    ensures CStr(b) == t
  {
    assert forall i :: 0 <= i < |t| ==> b[i] == t[i];
  }

  /** The part of one turn that touches the buffer. */
  method PutChar(out: array<char>, j: nat, c: char)
    modifies out
    ensures j < out.Length ==> out[..j] == old(out[..j])
    ensures Written(c, j, out.Length) ==> var e := EscapeChar(c);
              out[j..j + |e|] == e && forall k :: j + |e| <= k < out.Length ==> out[k] == old(out[k]) || out[k] == NUL
    ensures !Written(c, j, out.Length) && j < out.Length ==> out[j] == old(out[j]) || out[j] == NUL
    ensures forall k :: 0 <= k < out.Length && k < j ==> out[k] == old(out[k])
  {
    var cap := out.Length;
    if j + 1 == cap { out[j] := NUL; }
    if IsPlain(c) {
      if j + 1 < cap { out[j] := c; }
    } else {
      if j + 4 < cap { PutEscape(out, j, c); }
    }
  }

  lemma ProgressNext(b: seq<char>, b': seq<char>, s: string, i: nat, j: nat, whole: bool, stop: nat, zeroed: bool)
    returns (whole': bool, stop': nat)
    requires CString(s) && i < |s| && Progress(b, s, i, j, whole, stop, zeroed) && |b'| == |b|
    requires j < |b| ==> b'[..j] == b[..j]
    requires Written(s[i], j, |b|) ==> var e := EscapeChar(s[i]);
               b'[j..j + |e|] == e && forall k :: j + |e| <= k < |b| ==> b'[k] == b[k] || b'[k] == NUL
    requires !Written(s[i], j, |b|) && j < |b| ==> b'[j] == b[j] || b'[j] == NUL
    requires forall k :: 0 <= k < |b| && k < j ==> b'[k] == b[k]
    ensures Progress(b', s, i + 1, j + |EscapeChar(s[i])|, whole', stop', zeroed)
  {
    whole', stop' := whole && Written(s[i], j, |b|), if whole then j else stop;
    if whole' { ProgressWrite(b, b', s, i, j, zeroed); }
    else if whole { ProgressStop(b, b', s, i, j, zeroed); }
    else { ProgressSkip(b, b', s, i, j, stop, zeroed); }
  }

  lemma ProgressTerminate(b: seq<char>, s: string, j: nat, whole: bool, stop: nat, zeroed: bool)
    requires Progress(b, s, |s|, j, whole, stop, zeroed)
    ensures j < |b| ==> Progress(b[j := NUL], s, |s|, j, whole, stop, zeroed)
  {
    if j < |b| {
      var b' := b[j := NUL];
      assert b'[..j] == b[..j];
      assert !whole ==> b'[..stop] == b[..stop];
    }
  }

  lemma ProgressEnd(b: seq<char>, s: string, j: nat, whole: bool, stop: nat, zeroed: bool)
    requires CString(s) && Progress(b, s, |s|, j, whole, stop, zeroed) && (j < |b| ==> b[j] == NUL)
    ensures EscapedInto(s, 0, |b|) == Escaped(s) ==> j < |b| && b[..j + 1] == Escaped(s) + [NUL]
    ensures zeroed ==> CStr(b) == EscapedInto(s, 0, |b|)
  {
    assert s[..|s|] == s && s[|s|..] == "";
    EscapedNoNul(s);
    if whole {
      assert b[..j + 1] == b[..j] + [NUL];
      CStrIs(b, Escaped(s));
    } else if zeroed {
      CStrIs(b, EscapedInto(s, 0, |b|));
    }
  }

  /** One turn of the loop. */
  method EscapeTurn(s: string, i: nat, out: array<char>, j: nat, ghost whole: bool, ghost stop: nat, ghost zeroed: bool)
    returns (j': nat, ghost whole': bool, ghost stop': nat)
    requires CString(s) && i < |s| && j == |Escaped(s[..i])|
    requires out.Length > 0 ==> Progress(out[..], s, i, j, whole, stop, zeroed)
    modifies out
    ensures j' == |Escaped(s[..i + 1])|
    ensures out.Length > 0 ==> Progress(out[..], s, i + 1, j', whole', stop', zeroed)
  {
    ghost var b := out[..];
    PutChar(out, j, s[i]);
    EscapedStep(s, i);
    whole', stop' := whole, stop;
    if out.Length > 0 { whole', stop' := ProgressNext(b, out[..], s, i, j, whole, stop, zeroed); }
    j' := j + if IsPlain(s[i]) then 1 else 3;
  }

  /** The loop of `cpdlc_escape_percent`, up to the terminator. */
  method EscapeChars(s: string, out: array<char>, ghost zeroed: bool)
      returns (j: nat, ghost whole: bool, ghost stop: nat)
    requires CString(s) && (zeroed ==> forall k :: 0 <= k < out.Length ==> out[k] == NUL)
    modifies out
    ensures j == |Escaped(s)|
    ensures out.Length > 0 ==> Progress(out[..], s, |s|, j, whole, stop, zeroed)
  {
    var i := 0;
    j, whole, stop := 0, true, 0;
    assert s[..0] == "" && s[0..] == s;
    while i < |s|
      invariant i <= |s| && j == |Escaped(s[..i])|
      invariant out.Length > 0 ==> Progress(out[..], s, i, j, whole, stop, zeroed)
    {
      j, whole, stop := EscapeTurn(s, i, out, j, whole, stop, zeroed);
      i := i + 1;
    }
    assert s[..i] == s;
  }

  /** `cpdlc_escape_percent`: the length returned does not depend on the capacity; the output is whole exactly
      when the string fits; a zeroed buffer always holds a prefix made of whole chunks. */
  method EscapePercent(s: string, out: array<char>) returns (n: nat)
    requires CString(s)
    modifies out
    ensures n == |Escaped(s)| + 1
    ensures out.Length > 0 && EscapedInto(s, 0, out.Length) == Escaped(s) ==>
              n <= out.Length && out[..n] == Escaped(s) + [NUL]
    ensures out.Length > 0 && (forall k :: 0 <= k < out.Length ==> old(out[k]) == NUL) ==>
              CStr(out[..]) == EscapedInto(s, 0, out.Length)
  {
    ghost var zeroed := forall k :: 0 <= k < out.Length ==> out[k] == NUL;
    ghost var whole, stop;
    n, whole, stop := EscapeChars(s, out, zeroed);
    ghost var b := out[..];
    if n < out.Length { out[n] := NUL; }
    if out.Length > 0 {
      assert out[..] == if n < |b| then b[n := NUL] else b;
      ProgressTerminate(b, s, n, whole, stop, zeroed);
      ProgressEnd(out[..], s, n, whole, stop, zeroed);
      assert n < out.Length ==> out[..][..n + 1] == out[..n + 1];
    }
    n := n + 1;
  }

  // ----- the unescaper with a bounded buffer -----

  /** One byte written at offset `j`, the last byte of the buffer being kept for the terminator. */
  function Stored(b: seq<char>, j: nat, c: char): (r: seq<char>)
    ensures |r| == |b|
  {
    if j >= |b| then b else b[j := if j + 1 == |b| then NUL else c]
  }

  /** The buffer after the unescaper ran on `s` from offset `j`; on a bad escape it stops where it is. */
  function UnescapedInto(b: seq<char>, s: string, j: nat): (r: seq<char>)
    ensures |r| == |b|
    decreases |s|
  {
    if s == "" then Stored(b, j, NUL)
    else match TakeOne(s)
      case Bad => b
      case Take(c, rest) => UnescapedInto(Stored(b, j, c), rest, j + 1)
  }

  lemma {:induction false} PastTheEnd(b: seq<char>, s: string, j: nat)
    requires j >= |b|
    ensures UnescapedInto(b, s, j) == b
    decreases |s|
  {
    if s != "" && TakeOne(s).Take? { PastTheEnd(b, TakeOne(s).rest, j + 1); }
  }

  lemma TruncPrepend(p: string, c: char, t: string, cap: nat)
    requires cap > 1
    ensures (p + [c]) + Trunc(t, cap - 1) == p + Trunc([c] + t, cap)
  {
    assert [c] + Trunc(t, cap - 1) == Trunc([c] + t, cap);
  }

  lemma TakeOneNoNul(s: string)
    requires s != "" && NUL !in s && TakeOne(s).Take?
    ensures TakeOne(s).c != NUL && NUL !in TakeOne(s).rest
  {
  }

  /** A well-formed text leaves the decoded string in the buffer, cut to its size and terminated. */
  lemma {:induction false} UnescapedIntoHolds(b: seq<char>, s: string, j: nat)
    requires j < |b| && NUL !in b[..j] && NUL !in s && Unescaped(s).Some?
    ensures CStr(UnescapedInto(b, s, j)) == b[..j] + Trunc(Unescaped(s).value, |b| - j)
    decreases |s|
  {
    if s == "" {
      CStrIs(Stored(b, j, NUL), b[..j]);
    } else {
      TakeOneNoNul(s);
      var c, rest := TakeOne(s).c, TakeOne(s).rest;
      var t := Unescaped(rest).value;
      var b' := Stored(b, j, c);
      assert UnescapedInto(b, s, j) == UnescapedInto(b', rest, j + 1);
      assert Unescaped(s).value == [c] + t;
      if j + 1 == |b| {
        PastTheEnd(b', rest, j + 1);
        CStrIs(b', b[..j]);
      } else {
        assert b'[..j + 1] == b[..j] + [c];
        UnescapedIntoHolds(b', rest, j + 1);
        TruncPrepend(b[..j], c, t, |b| - j);
      }
    }
  }

  /** One turn of the unescaper: the byte it decodes and how far it moves, or 0 for a bad escape. */
  method DecodeAt(s: string, i: nat) returns (c: char, step: nat)
    requires i < |s|
    ensures i + step <= |s|
    ensures TakeOne(s[i..]) == if step == 0 then Bad else Take(c, s[i + step..])
  {
    c, step := s[i], 1;
    if c == '%' {
      if |s| < i + 3 || !IsHex(s[i + 1]) || !IsHex(s[i + 2]) { return c, 0; }
      var v := HexValue(s[i + 1]) * 16 + HexValue(s[i + 2]);
      if v == 0 { return c, 0; }
      c, step := v as char, 3;
    }
  }

  lemma UnescapeStep(b: seq<char>, s: string, j: nat, c: char, rest: string)
    requires s != "" && TakeOne(s) == Take(c, rest)
    ensures UnescapedInto(b, s, j) == UnescapedInto(Stored(b, j, c), rest, j + 1)
    ensures Unescaped(s) == Prepend(c, Unescaped(rest))
  {
  }

  /** `cpdlc_unescape_percent`: -1 on a bad escape or an escaped NUL, otherwise the decoded length and its NUL;
      `out` may be empty when only the length is wanted. */
  method UnescapePercent(s: string, out: array<char>) returns (n: int)
    requires CString(s)
    modifies out
    ensures n == if Unescaped(s).Some? then |Unescaped(s).value| + 1 else -1
    ensures out[..] == old(UnescapedInto(out[..], s, 0))
  {
    var i, j := 0, 0;
    ghost var rest := s;
    while i < |s|
      invariant i <= |s| && rest == s[i..]
      invariant UnescapedInto(out[..], rest, j) == old(UnescapedInto(out[..], s, 0))
      invariant Unescaped(s).Some? == Unescaped(rest).Some?
      invariant Unescaped(s).Some? ==> |Unescaped(s).value| == j + |Unescaped(rest).value|
    {
      var c, step := DecodeAt(s, i);
      if step == 0 { return -1; }
      ghost var b := out[..];
      if j < out.Length { out[j] := if j + 1 == out.Length then NUL else c; }
      assert out[..] == Stored(b, j, c);
      UnescapeStep(b, rest, j, c, s[i + step..]);
      rest := s[i + step..];
      i, j := i + step, j + 1;
    }
    ghost var b := out[..];
    if j < out.Length { out[j] := NUL; }
    assert out[..] == Stored(b, j, NUL);
    n := j + 1;
  }

  // ----- what an escape looks like -----

  const HEXDIGITS := "0123456789abcdef"

  /** A byte below 128 that is not a letter, digit, dot or comma is written as a percent sign and its two hexadecimal
      digits, the higher one first; and any byte but NUL is read so. */
  lemma EscapeIs(c: char)
    requires 0 < c as int < 256
    ensures c as int < 128 ==>
              Escaped([c]) == if IsAlnum(c) || c == '.' || c == ',' then [c]
                              else ['%', HEXDIGITS[c as int / 16], HEXDIGITS[c as int % 16]]
    ensures Unescaped(['%', HEXDIGITS[c as int / 16], HEXDIGITS[c as int % 16]]) == Some([c])
  {
    assert [c][1..] == "" && EscapeChar(c) + "" == EscapeChar(c);
    HexDigit(c as int / 16);
    HexDigit(c as int % 16);
    var s := ['%', HEXDIGITS[c as int / 16], HEXDIGITS[c as int % 16]];
    assert s[3..] == "" && [c] + "" == [c];
    assert c as int / 16 * 16 + c as int % 16 == c as int;
  }

  lemma HexDigit(d: nat)
    requires d < 16
    ensures HEXDIGITS[d] == Hex(d) && IsHex(HEXDIGITS[d]) && HexValue(HEXDIGITS[d]) == d
  {
  }
}
