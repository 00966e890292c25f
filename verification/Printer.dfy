/** The bounded printer behind every encoder: `APPEND_SNPRINTF` on a buffer of any capacity, also none. */
module Printer {
  const NUL := 0 as char

  function Min(a: nat, b: nat): nat { if a < b then a else b }

  function Concat(chunks: seq<string>): string {
    if chunks == [] then "" else Concat(chunks[..|chunks| - 1]) + chunks[|chunks| - 1]
  }

  /** The buffer holds as much of `text` as fits with a terminator, and the terminator. */
  ghost predicate Holds(b: seq<char>, text: string) {
    |b| > 0 ==> var k := Min(|b| - 1, |text|); b[..k] == text[..k] && b[k] == NUL
  }

  /** `snprintf(&buf[pos], cap, "%s", chunk)`; returns the length the chunk needs. */
  method Snprintf(buf: array<char>, pos: nat, cap: nat, chunk: string) returns (needed: nat)
    requires pos + cap == buf.Length
    modifies buf
    ensures needed == |chunk|
    ensures buf[..pos] == old(buf[..pos])
    ensures cap > 0 ==> var k := Min(cap - 1, |chunk|); buf[pos..pos + k] == chunk[..k] && buf[pos + k] == NUL
  {
    needed := |chunk|;
    if cap > 0 {
      var k, i := Min(cap - 1, |chunk|), 0;
      while i < k
        invariant 0 <= i <= k
        invariant buf[..pos] == old(buf[..pos]) && buf[pos..pos + i] == chunk[..i]
      {
        buf[pos + i] := chunk[i];
        i := i + 1;
        assert buf[pos..pos + i] == buf[pos..pos + i - 1] + [chunk[i - 1]];
      }
      buf[pos + k] := NUL;
    }
  }

  lemma HoldsMore(b: seq<char>, b': seq<char>, text: string, chunk: string, pos: nat, cap: nat)
    requires |b'| == |b| == pos + cap && pos == Min(|text|, |b|)
    requires b'[..pos] == b[..pos] && (pos > 0 ==> Holds(b, text))
    requires cap > 0 ==> var k := Min(cap - 1, |chunk|); b'[pos..pos + k] == chunk[..k] && b'[pos + k] == NUL
    ensures Holds(b', text + chunk)
  {
    if |b| > 0 {
      var all := text + chunk;
      var k := Min(|b| - 1, |all|);
      if cap > 0 {
        var m := Min(cap - 1, |chunk|);
        assert k == pos + m;
        assert b'[..k] == b'[..pos] + b'[pos..pos + m];
        assert b[..pos] == text[..pos] by { if pos > 0 { assert Holds(b, text); } }
        assert all[..k] == text + chunk[..m];
      } else {
        assert b' == b by { assert b'[..pos] == b' && b[..pos] == b; }
        assert all[..k] == text[..k];
      }
    }
  }

  class Printer {
    const buf: array<char>
    var pos: nat
    var cap: nat
    var total: nat
    ghost var text: string

    ghost predicate Valid()
      reads this, buf
    {
      && pos + cap == buf.Length && total == |text| && pos == Min(total, buf.Length)
      && (total > 0 ==> Holds(buf[..], text))
    }

    constructor (b: array<char>)
      ensures Valid() && buf == b && text == "" && total == 0
    {
      buf, pos, cap, total, text := b, 0, b.Length, 0, "";
    }

    /** One `APPEND_SNPRINTF`. */
    method Append(chunk: string)
      requires Valid()
      modifies this, buf
      ensures Valid() && text == old(text) + chunk && Holds(buf[..], text)
    {
      ghost var b := buf[..];
      var needed := Snprintf(buf, pos, cap, chunk);
      HoldsMore(b, buf[..], text, chunk, pos, cap);
      var consumed := Min(needed, cap);
      pos, cap, total := pos + consumed, cap - consumed, total + needed;
      text := text + chunk;
    }
  }

  /** Printing a sequence of chunks: the total returned does not depend on the capacity, and a non-empty buffer
      holds exactly the prefix that fits, followed by NUL. */
  method Render(chunks: seq<string>, buf: array<char>) returns (n: nat)
    requires chunks != []
    modifies buf
    ensures n == |Concat(chunks)|
    ensures Holds(buf[..], Concat(chunks))
  {
    var p := new Printer(buf);
    var i := 0;
    assert chunks[..0] == [];
    while i < |chunks|
      invariant 0 <= i <= |chunks| && p.Valid() && p.buf == buf && fresh(p)
      invariant p.text == Concat(chunks[..i]) && (i > 0 ==> Holds(buf[..], p.text))
    {
      p.Append(chunks[i]);
      assert chunks[..i + 1][..i] == chunks[..i];
      i := i + 1;
    }
    assert chunks[..i] == chunks;
    n := p.total;
  }

  /** The measure-then-write idiom loses nothing. */
  method MeasureThenWrite(chunks: seq<string>) returns (buf: array<char>)
    requires chunks != []
    ensures fresh(buf) && buf[..] == Concat(chunks) + [NUL]
  {
    var none := new char[0];
    var n := Render(chunks, none);
    buf := new char[n + 1];
    var n' := Render(chunks, buf);
    assert buf[..] == buf[..][..n] + [buf[n]];
  }

  /** A buffer determines what was printed as soon as it has room for it, and only a prefix otherwise. */
  lemma HeldText(b: seq<char>, text: string)
    requires Holds(b, text) && |b| > 0 && NUL !in text
    ensures |text| < |b| <==> exists k :: 0 <= k < |b| && b[k] == NUL && b[..k] == text
  {
    if |text| < |b| {
      var k := |text|;
      assert text[..k] == text;
      assert b[k] == NUL && b[..k] == text;
    }
  }
}
