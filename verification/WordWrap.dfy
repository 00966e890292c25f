/** Wrapping the text of a message into lines: the loop of `fans_msg2lines`. */
module WordWrap {
  import opened Options
  import opened Text
  import opened Split

  /** No stretch of the text between `a` and `b` holds a space. */
  ghost predicate Unbroken(text: string, a: nat, b: nat) {
    a <= b <= |text| && forall i :: a <= i < b ==> text[i] != ' '
  }

  /** Every word, from space to space, fits the width. */
  ghost predicate WordsFit(text: string, width: nat) {
    forall a: nat, b: nat :: Unbroken(text, a, b) ==> b - a <= width
  }

  /** The space is the only white space in the text. */
  ghost predicate OnlySpaces(text: string) {
    forall i :: 0 <= i < |text| && IsSpace(text[i]) ==> text[i] == ' '
  }

  ghost predicate WithinWidth(lines: seq<string>, width: nat) { forall i :: 0 <= i < |lines| ==> |lines[i]| <= width }

  /** The lines keep to the width, and joined by single spaces they are the text. */
  ghost predicate Wrapped(lines: seq<string>, text: string, width: nat) {
    lines != [] && Join(lines, " ") == text && WithinWidth(lines, width)
  }

  /** No line ends early: with the next word it would reach the width. */
  ghost predicate Full(lines: seq<string>, width: nat) {
    forall i :: 0 <= i < |lines| - 1 ==> Reaches(lines[i], Find(lines[i + 1], ' '), width)
  }

  ghost predicate Reaches(line: string, nextWord: nat, width: nat) { |line| + 1 + nextWord >= width }

  /** `strchr(&text[from], ' ')`, with the end of the text for NULL. */
  function NextSpace(text: string, from: nat): (r: nat)
    requires from <= |text|
    ensures from <= r <= |text| && (r < |text| ==> text[r] == ' ') && forall i :: from <= i < r ==> text[i] != ' '
  {
    var r := from + Find(text[from..], ' ');
    assert forall i :: from <= i < r ==> text[i] == text[from..][i - from];
    r
  }

  // ----- the loop -----

  /** The lines so far, the characters they were broken at, and the loop's three pointers. */
  datatype Loop = Loop(lines: seq<string>, breaks: string, start: nat, cur: nat, lastSp: nat)

  predicate Within(text: string, l: Loop) { l.start <= |text| && l.cur <= |text| && l.lastSp <= |text| }

  /** The lines, and the characters between them. */
  datatype Wrapping = Wrapping(lines: seq<string>, breaks: string)

  function First(text: string): Loop { Loop([], "", 0, 0, NextSpace(text, 0)) }

  /** A line is broken at the last space. */
  function Broken(text: string, l: Loop): (l': Loop)
    requires l.start <= l.lastSp < |text| && l.cur < |text|
    ensures Within(text, l')
  {
    Loop(l.lines + [text[l.start..l.lastSp]], l.breaks + [text[l.lastSp]], l.lastSp + 1, l.cur + 1,
         NextSpace(text, l.lastSp + 1))
  }

  /** The line has room for one more character. */
  function Moved(text: string, l: Loop): (l': Loop)
    requires Within(text, l) && l.cur < |text|
    ensures Within(text, l')
  {
    l.(cur := l.cur + 1, lastSp := if IsSpace(text[l.cur]) then l.cur else l.lastSp)
  }

  /** The loop from `l` on. None: the last space lies before the line, so that its length is negative and wraps
      around; what the program does then is not part of this model. */
  function Go(text: string, width: nat, l: Loop): Option<Wrapping>
    requires Within(text, l)
    decreases |text| - l.cur
  {
    if l.cur == |text| then Some(Wrapping(l.lines + [text[l.start..]], l.breaks))
    else if l.cur - l.start < width then Go(text, width, Moved(text, l))
    else if l.lastSp < l.start then None
    else if l.lastSp == |text| then Some(Wrapping(l.lines + [text[l.start..l.lastSp]], l.breaks))
    else Go(text, width, Broken(text, l))
  }

  function WrapOf(text: string, width: nat): Option<Wrapping> { Go(text, width, First(text)) }

  /** The body of `fans_msg2lines`. */
  method Wrap(text: string, width: nat) returns (r: Option<seq<string>>)
    requires width > 0
    ensures var w := WrapOf(text, width); if w.None? then r.None? else r == Some(w.value.lines)
  {
    var lines: seq<string>, start, cur, lastSp := [], 0, 0, NextSpace(text, 0);
    ghost var l := First(text);
    while cur < |text|
      invariant l.lines == lines && l.start == start && l.cur == cur && l.lastSp == lastSp && Within(text, l)
      invariant Go(text, width, l) == WrapOf(text, width)
      decreases |text| - cur
    {
      if cur - start >= width {
        if lastSp < start { return None; }
        lines := lines + [text[start..lastSp]];
        if lastSp == |text| { return Some(lines); }
        l := Broken(text, l);
        start, lastSp := lastSp + 1, NextSpace(text, lastSp + 1);
      } else {
        l := Moved(text, l);
        if IsSpace(text[cur]) { lastSp := cur; }
      }
      cur := cur + 1;
    }
    return Some(lines + [text[start..]]);
  }

  // ----- lines and what they were broken at -----

  function JoinWith(lines: seq<string>, breaks: string): string
    requires |lines| == |breaks| + 1
    decreases |breaks|
  {
    if breaks == "" then lines[0] else lines[0] + [breaks[0]] + JoinWith(lines[1..], breaks[1..])
  }

  lemma {:induction false} JoinWithSplit(ls: seq<string>, bs: string, a: string, c: char, b: string)
    requires |ls| == |bs|
    ensures JoinWith(ls + [a + [c] + b], bs) == JoinWith(ls + [a, b], bs + [c])
    decreases |ls|
  {
    var x, y, d := ls + [a + [c] + b], ls + [a, b], bs + [c];
    if ls == [] {
      assert y[1..] == [b] && d[1..] == "";
    } else {
      assert x[1..] == ls[1..] + [a + [c] + b] && y[1..] == ls[1..] + [a, b] && d[1..] == bs[1..] + [c];
      JoinWithSplit(ls[1..], bs[1..], a, c, b);
    }
  }

  predicate AllSpaces(breaks: string) { forall i :: 0 <= i < |breaks| ==> breaks[i] == ' ' }

  /** Joining with single spaces gives the text exactly if single spaces is what the lines were broken at. */
  lemma {:induction false} JoinIff(lines: seq<string>, breaks: string)
    requires |lines| == |breaks| + 1
    ensures Join(lines, " ") == JoinWith(lines, breaks) <==> AllSpaces(breaks)
    ensures |Join(lines, " ")| == |JoinWith(lines, breaks)|
    decreases |breaks|
  {
    if breaks != "" {
      var x, y := Join(lines[1..], " "), JoinWith(lines[1..], breaks[1..]);
      var n := |lines[0]|;
      JoinIff(lines[1..], breaks[1..]);
      assert Join(lines, " ") == lines[0] + " " + x && JoinWith(lines, breaks) == lines[0] + [breaks[0]] + y;
      JoinCons(lines[0], breaks[0], x, y);
      assert AllSpaces(breaks) <==> breaks[0] == ' ' && AllSpaces(breaks[1..]) by {
        assert forall i :: 1 <= i < |breaks| ==> breaks[i] == breaks[1..][i - 1];
      }
    }
  }

  lemma JoinCons(a: string, c: char, x: string, y: string)
    ensures a + " " + x == a + [c] + y <==> c == ' ' && x == y
  {
    var s, t := a + " " + x, a + [c] + y;
    assert s[|a|] == ' ' && t[|a|] == c && s[|a| + 1..] == x && t[|a| + 1..] == y;
  }

  // ----- wrapping is possible only if the words fit -----

  lemma {:induction false} WrappedWordsFit(lines: seq<string>, text: string, width: nat, a: nat, b: nat)
    requires Wrapped(lines, text, width) && Unbroken(text, a, b)
    ensures b - a <= width
    decreases |lines|
  {
    if |lines| > 1 {
      var n := |lines[0]|;
      var rest := Join(lines[1..], " ");
      assert text == lines[0] + " " + rest;
      assert text[n] == ' ';
      if a > n {
        assert forall j :: a - n - 1 <= j < b - n - 1 ==> rest[j] == text[j + n + 1];
        WrappedWordsFit(lines[1..], rest, width, a - n - 1, b - n - 1);
      }
    }
  }

  lemma OnlyIfFits(lines: seq<string>, text: string, width: nat)
    requires Wrapped(lines, text, width)
    ensures WordsFit(text, width)
  {
    forall a: nat, b: nat | Unbroken(text, a, b) ensures b - a <= width { WrappedWordsFit(lines, text, width, a, b); }
  }

  // ----- and then the loop does it -----

  /** Where the loop stands: `lastSp` is the last white space seen in the line, or else the next space. */
  ghost predicate Standing(text: string, width: nat, start: nat, cur: nat, lastSp: int) {
    && start <= cur <= |text| && cur - start <= width
    && ((start <= lastSp < cur && IsSpace(text[lastSp]) && Unbroken(text, lastSp + 1, cur))
        || (Unbroken(text, start, cur) && lastSp == NextSpace(text, start)))
  }

  lemma BreakFits(text: string, width: nat, start: nat, cur: nat, lastSp: int)
    requires Standing(text, width, start, cur, lastSp) && WordsFit(text, width) && cur < |text| && cur - start >= width
    ensures start <= lastSp <= cur && IsSpace(text[lastSp]) && (lastSp == cur || Unbroken(text, lastSp + 1, cur))
  {
    if lastSp >= cur {
      assert Unbroken(text, start, lastSp);
    }
  }

  lemma BreakStands(text: string, width: nat, cur: nat, lastSp: nat)
    requires lastSp <= cur < |text| && cur - lastSp <= width && (lastSp == cur || Unbroken(text, lastSp + 1, cur))
    ensures Standing(text, width, lastSp + 1, cur + 1, NextSpace(text, lastSp + 1))
  {
    var n := NextSpace(text, lastSp + 1);
    if n > cur { assert Unbroken(text, lastSp + 1, cur + 1); } else { assert n == cur; }
  }

  lemma MoveStands(text: string, width: nat, start: nat, cur: nat, lastSp: int)
    requires Standing(text, width, start, cur, lastSp) && cur < |text| && cur - start < width
    ensures Standing(text, width, start, cur + 1, if IsSpace(text[cur]) then cur else lastSp)
  {
    if !IsSpace(text[cur]) {
      assert Unbroken(text, start, cur) ==> Unbroken(text, start, cur + 1);
      assert start <= lastSp < cur && Unbroken(text, lastSp + 1, cur) ==> Unbroken(text, lastSp + 1, cur + 1);
    } else {
      assert Unbroken(text, cur + 1, cur + 1);
    }
  }

  /** What the finished lines and the text still to be wrapped amount to. */
  ghost predicate Progress(lines: seq<string>, breaks: string, text: string, width: nat, start: nat) {
    && start <= |text| && |lines| == |breaks| && JoinWith(lines + [text[start..]], breaks) == text
    && WithinWidth(lines, width) && AllWhite(breaks)
  }

  ghost predicate AllWhite(breaks: string) { forall i :: 0 <= i < |breaks| ==> IsSpace(breaks[i]) }

  lemma ProgressBreak(lines: seq<string>, breaks: string, text: string, width: nat, start: nat, sp: nat)
    requires Progress(lines, breaks, text, width, start) && start <= sp < |text| && IsSpace(text[sp])
             && sp - start <= width
    ensures Progress(lines + [text[start..sp]], breaks + [text[sp]], text, width, sp + 1)
  {
    var a, b := text[start..sp], text[sp + 1..];
    assert text[start..] == a + [text[sp]] + b;
    JoinWithSplit(lines, breaks, a, text[sp], b);
    assert lines + [a] + [b] == lines + [a, b];
  }

  /** The lines so far are full, and so is the last of them before the text still to be wrapped. */
  ghost predicate FullSoFar(lines: seq<string>, text: string, width: nat, start: nat)
    requires start <= |text|
  {
    Full(lines, width) && (lines != [] ==> Reaches(lines[|lines| - 1], NextSpace(text, start) - start, width))
  }

  /** A line that goes at least to its first space starts with the whole first word. */
  lemma FirstWord(text: string, start: nat, sp: nat)
    requires start <= sp <= |text| && NextSpace(text, start) <= sp
    ensures Find(text[start..sp], ' ') == NextSpace(text, start) - start
  {
    var l := text[start..sp];
    assert forall i :: 0 <= i < |l| ==> l[i] == text[start + i];
  }

  lemma FullBreak(lines: seq<string>, text: string, width: nat, start: nat, cur: nat, sp: nat)
    requires start <= sp <= cur < |text| && FullSoFar(lines, text, width, start) && text[sp] == ' '
             && cur - start >= width
    requires sp == cur || Unbroken(text, sp + 1, cur)
    ensures FullSoFar(lines + [text[start..sp]], text, width, sp + 1)
  {
    FirstWord(text, start, sp);
    assert NextSpace(text, sp + 1) >= cur;
  }

  ghost predicate Stands(text: string, width: nat, l: Loop) {
    Within(text, l) && Standing(text, width, l.start, l.cur, l.lastSp)
  }

  lemma StandsBreak(text: string, width: nat, l: Loop)
    requires Stands(text, width, l) && WordsFit(text, width) && l.cur < |text| && l.cur - l.start >= width
    ensures l.start <= l.lastSp < |text| && Stands(text, width, Broken(text, l))
  {
    BreakFits(text, width, l.start, l.cur, l.lastSp);
    BreakStands(text, width, l.cur, l.lastSp);
  }

  /** Where the loop stands and what it has done, if the words fit. */
  ghost predicate Good(text: string, width: nat, l: Loop) {
    && Stands(text, width, l) && Progress(l.lines, l.breaks, text, width, l.start)
    && (OnlySpaces(text) ==> FullSoFar(l.lines, text, width, l.start))
  }

  lemma GoodStart(text: string, width: nat)
    ensures Good(text, width, First(text))
  {
    assert text[0..] == text && [] + [text] == [text];
  }

  lemma GoodBreak(text: string, width: nat, l: Loop)
    requires Good(text, width, l) && WordsFit(text, width) && l.cur < |text| && l.cur - l.start >= width
    ensures l.start <= l.lastSp < |text| && Good(text, width, Broken(text, l))
  {
    var sp := l.lastSp;
    BreakFits(text, width, l.start, l.cur, sp);
    StandsBreak(text, width, l);
    ProgressBreak(l.lines, l.breaks, text, width, l.start, sp);
    if OnlySpaces(text) { FullBreak(l.lines, text, width, l.start, l.cur, sp); }
  }

  lemma GoodMove(text: string, width: nat, l: Loop)
    requires Good(text, width, l) && l.cur < |text| && l.cur - l.start < width
    ensures Good(text, width, Moved(text, l))
  {
    MoveStands(text, width, l.start, l.cur, l.lastSp);
  }

  /** What is promised of the result: the lines, put together with what they were broken at, are the text; they keep
      to the width; they are broken at white space only; and none ends early if the text holds no white
      space but the space. */
  ghost predicate Fitted(text: string, width: nat, w: Wrapping) {
    && |w.lines| == |w.breaks| + 1 && JoinWith(w.lines, w.breaks) == text && WithinWidth(w.lines, width)
    && (forall i :: 0 <= i < |w.breaks| ==> IsSpace(w.breaks[i]) && w.breaks[i] in text)
    && (OnlySpaces(text) ==> Full(w.lines, width))
  }

  lemma {:induction false} BreaksInText(lines: seq<string>, breaks: string, i: nat)
    requires |lines| == |breaks| + 1 && i < |breaks|
    ensures breaks[i] in JoinWith(lines, breaks)
    decreases |breaks|
  {
    var y := JoinWith(lines[1..], breaks[1..]);
    if i > 0 { BreaksInText(lines[1..], breaks[1..], i - 1); }
    InCons(lines[0], breaks[0], y, breaks[i]);
  }

  lemma InCons(a: string, c: char, y: string, d: char)
    requires d == c || d in y
    ensures d in a + [c] + y
  {
  }

  lemma GoodEnd(text: string, width: nat, l: Loop)
    requires Good(text, width, l) && l.cur == |text|
    ensures Fitted(text, width, Wrapping(l.lines + [text[l.start..]], l.breaks))
  {
    var lines := l.lines + [text[l.start..]];
    forall i | 0 <= i < |l.breaks| ensures l.breaks[i] in text { BreaksInText(lines, l.breaks, i); }
    if OnlySpaces(text) {
      assert text[l.start..] == text[l.start..|text|];
      FirstWord(text, l.start, |text|);
    }
  }

  lemma {:induction false} GoFits(text: string, width: nat, l: Loop)
    requires Good(text, width, l) && WordsFit(text, width)
    ensures Go(text, width, l).Some? && Fitted(text, width, Go(text, width, l).value)
    decreases |text| - l.cur
  {
    if l.cur == |text| {
      GoodEnd(text, width, l);
    } else if l.cur - l.start < width {
      GoodMove(text, width, l);
      GoFits(text, width, Moved(text, l));
    } else {
      GoodBreak(text, width, l);
      GoFits(text, width, Broken(text, l));
    }
  }

  /** If every word fits, the lines keep to the width and nothing of the text is lost but the white space they are
      broken at. */
  lemma WrapFits(text: string, width: nat)
    requires WordsFit(text, width)
    ensures WrapOf(text, width).Some? && Fitted(text, width, WrapOf(text, width).value)
  {
    GoodStart(text, width);
    GoFits(text, width, First(text));
  }

  // ----- where the lines are broken -----

  /** The last white space in `text[c..e]`, or else `d`. */
  function LastWhite(text: string, c: nat, e: nat, d: nat): (p: nat)
    requires e <= |text|
    ensures p == d || c <= p < e
    decreases e
  {
    if e <= c then d else if IsSpace(text[e - 1]) then e - 1 else LastWhite(text, c, e - 1, d)
  }

  /** What the text from `s` on is broken at, line by line: a text that does not fit is broken at the last white
      space that stands before the width is reached, looking from `c` on, and at the next space if there is none.
      The look for the line behind it starts one behind the width of this one. */
  function Breaks(text: string, width: nat, s: nat, c: nat): string
    decreases |text| - s
  {
    if s + width >= |text| then "" else
    var p := LastWhite(text, c, s + width, NextSpace(text, s));
    if p < s || p == |text| then "" else [text[p]] + Breaks(text, width, p + 1, s + width + 1)
  }

  /** The loop runs to the width in single moves. */
  lemma {:induction false} Moves(text: string, width: nat, l: Loop, e: nat)
    requires Within(text, l) && l.cur <= e <= |text| && e - l.start <= width
    ensures Go(text, width, l) == Go(text, width, l.(cur := e, lastSp := LastWhite(text, l.cur, e, l.lastSp)))
    decreases e - l.cur
  {
    if l.cur < e {
      Moves(text, width, l, e - 1);
      var m := l.(cur := e - 1, lastSp := LastWhite(text, l.cur, e - 1, l.lastSp));
      Step(text, width, m, Moved(text, m));
    }
  }

  lemma Step(text: string, width: nat, l: Loop, l': Loop)
    requires Within(text, l) && l.cur < |text| && Within(text, l')
    requires if l.cur - l.start < width then l' == Moved(text, l)
             else l.start <= l.lastSp < |text| && l' == Broken(text, l)
    ensures Go(text, width, l) == Go(text, width, l')
  {
  }

  lemma {:induction false} MovesStand(text: string, width: nat, l: Loop, e: nat)
    requires Stands(text, width, l) && l.cur <= e <= |text| && e - l.start <= width
    ensures Stands(text, width, l.(cur := e, lastSp := LastWhite(text, l.cur, e, l.lastSp)))
    decreases e - l.cur
  {
    if l.cur < e {
      MovesStand(text, width, l, e - 1);
      MoveStands(text, width, l.start, e - 1, LastWhite(text, l.cur, e - 1, l.lastSp));
    }
  }

  lemma BreaksNext(text: string, width: nat, s: nat, c: nat, p: nat, s': nat, c': nat)
    requires s + width < |text| && s <= p < |text| && p == LastWhite(text, c, s + width, NextSpace(text, s))
    requires s' == p + 1 && c' == s + width + 1
    ensures Breaks(text, width, s, c) == [text[p]] + Breaks(text, width, s', c')
  {
  }

  /** The loop puts behind the breaks of `l` those of `bs`. */
  ghost predicate Adds(w: Option<Wrapping>, l: Loop, bs: string) { w.Some? && w.value.breaks == l.breaks + bs }

  lemma AddsMore(w: Option<Wrapping>, l: Loop, b: Loop, c: char, x: string, bs: string)
    requires Adds(w, b, x) && b.breaks == l.breaks + [c] && bs == [c] + x
    ensures Adds(w, l, bs)
  {
  }

  lemma LineFilled(text: string, width: nat, l: Loop, e: nat, m: Loop)
    requires Stands(text, width, l) && l.cur <= e <= |text| && e - l.start <= width
    requires m == l.(cur := e, lastSp := LastWhite(text, l.cur, e, l.lastSp))
    ensures Go(text, width, l) == Go(text, width, m) && Stands(text, width, m)
  {
    Moves(text, width, l, e);
    MovesStand(text, width, l, e);
  }

  lemma LineBroken(text: string, width: nat, m: Loop) returns (b: Loop)
    requires Stands(text, width, m) && WordsFit(text, width) && m.cur < |text| && m.cur - m.start >= width
    ensures Stands(text, width, b) && m.start <= m.lastSp < |text| && b == Broken(text, m)
    ensures Go(text, width, m) == Go(text, width, b)
  {
    StandsBreak(text, width, m);
    b := Broken(text, m);
    Step(text, width, m, b);
  }

  lemma LastLine(text: string, width: nat, l: Loop)
    requires Within(text, l) && l.start + width >= |text|
    ensures Adds(Go(text, width, l), l, Breaks(text, width, l.start, l.cur))
  {
    Moves(text, width, l, |text|);
  }

  /** At the head of a line the loop is bound to break the rest of the text as `Breaks` says. */
  lemma {:induction false} GoBreaks(text: string, width: nat, l: Loop)
    requires Stands(text, width, l) && WordsFit(text, width) && l.lastSp == NextSpace(text, l.start)
    ensures Adds(Go(text, width, l), l, Breaks(text, width, l.start, l.cur))
    decreases |text| - l.start
  {
    if l.start + width >= |text| {
      LastLine(text, width, l);
    } else {
      var e := l.start + width;
      var m := l.(cur := e, lastSp := LastWhite(text, l.cur, e, l.lastSp));
      LineFilled(text, width, l, e, m);
      var b := LineBroken(text, width, m);
      GoBreaks(text, width, b);
      BreaksNext(text, width, l.start, l.cur, m.lastSp, b.start, b.cur);
      AddsMore(Go(text, width, b), l, b, text[m.lastSp], Breaks(text, width, b.start, b.cur),
               Breaks(text, width, l.start, l.cur));
    }
  }

  /** Exactly when the result is a faithful wrapping: every word fits, and every line is broken at a space. So, for
      texts whose only white space is the space, exactly when every word fits. */
  lemma WrapIff(text: string, width: nat)
    ensures var w := WrapOf(text, width);
            && ((w.Some? && Wrapped(w.value.lines, text, width))
                <==> WordsFit(text, width) && AllSpaces(Breaks(text, width, 0, 0)))
            && (OnlySpaces(text) ==> ((w.Some? && Wrapped(w.value.lines, text, width)) <==> WordsFit(text, width)))
  {
    var w := WrapOf(text, width);
    if w.Some? && Wrapped(w.value.lines, text, width) { OnlyIfFits(w.value.lines, text, width); }
    if WordsFit(text, width) {
      WrapFits(text, width);
      GoodStart(text, width);
      GoBreaks(text, width, First(text));
      assert w.value.breaks == Breaks(text, width, 0, 0);
      JoinIff(w.value.lines, w.value.breaks);
      if OnlySpaces(text) {
        forall i | 0 <= i < |w.value.breaks| ensures w.value.breaks[i] == ' ' {
          var k :| 0 <= k < |text| && text[k] == w.value.breaks[i];
        }
      }
    }
  }

  // ----- inputs -----

  /** A word longer than the width: the line is as long as the word. */
  lemma LongWord(text: string)
    requires text == "abcd"
    ensures !WordsFit(text, 3) && WrapOf(text, 3) == Some(Wrapping(["abcd"], ""))
  {
    assert Unbroken(text, 0, 4);
    var l := First(text);
    assert l.lastSp == 4;
    Moves(text, 3, l, 3);
    assert LastWhite(text, 0, 3, 4) == 4;
    assert text[0..4] == text && [] + [text] == [text];
  }

  /** A line broken at a tab: the tab is lost, although every word fits. */
  lemma TabLost(text: string)
    requires text == "A\tB C"
    ensures WordsFit(text, 3) && WrapOf(text, 3) == Some(Wrapping(["A", "B C"], "\t"))
    ensures Join(["A", "B C"], " ") != text
  {
    TabFits(text);
    assert text[3] == ' ' && text[2] != ' ' && text[1] != ' ' && text[0] != ' ';
    var l := First(text);
    Moves(text, 3, l, 3);
    assert LastWhite(text, 0, 2, 3) == 1 && LastWhite(text, 0, 3, 3) == 1;
    var m := Loop(["A"], "\t", 2, 4, 3);
    assert text[0..1] == "A";
    Step(text, 3, l.(cur := 3, lastSp := 1), m);
    TabTail(text, m);
    var ls := ["A", "B C"];
    assert ls[1..] == ["B C"] && Join(ls, " ")[1] == ' ' && text[1] == '\t';
  }

  lemma TabFits(text: string)
    requires text == "A\tB C"
    ensures WordsFit(text, 3)
  {
    forall a: nat, b: nat | Unbroken(text, a, b) ensures b - a <= 3 { assert text[3] == ' '; }
  }

  lemma TabTail(text: string, m: Loop)
    requires text == "A\tB C" && m == Loop(["A"], "\t", 2, 4, 3)
    ensures Go(text, 3, m) == Some(Wrapping(["A", "B C"], "\t"))
  {
    Step(text, 3, m, Moved(text, m));
    assert text[2..] == "B C" && ["A"] + ["B C"] == ["A", "B C"];
  }
}
