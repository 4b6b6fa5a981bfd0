/**
 Text typed on an unbounded page of fixed width: no scrolling, lines are simply added at the
 bottom.  Console.dfy proves that the scrolling region of kernel/cio.c is a window on its
 last lines.
 */
module PageText {
  import opened Division

  const NEWLINE: int := 10
  const RETURN: int := 13

  /** What is stored for a character: its own attributes, or black on white. */
  function Glyph(c: int): int {
    var d := c % 0x1_0000;
    if d > 0xff then d else 0x7000 + d
  }

  /** The low byte of the character is in the low byte of the cell, and its attributes, or black on white
      if it has none, are in the high one. */
  predicate InCell(v: int, c: int) {
    v % 0x100 == c % 0x100 && v / 0x100 == if c / 0x100 % 0x100 != 0 then c / 0x100 % 0x100 else 0x70
  }

  lemma GlyphBytes(c: int)
    ensures InCell(Glyph(c), c)
  {
  }

  const BLANK: int := 0x7020

  function Blanks(w: nat): (r: seq<int>)
    ensures |r| == w && forall i :: 0 <= i < w ==> r[i] == BLANK
  {
    seq(w, _ => BLANK)
  }

  /** Where the next character goes is (row, col).  After a line is finished the row may be one that
      does not exist yet. */
  datatype Page = Page(lines: seq<seq<int>>, row: nat, col: nat)

  ghost predicate Wide(p: Page, w: nat) {
    && (forall i :: 0 <= i < |p.lines| ==> |p.lines[i]| == w)
    && p.row <= |p.lines| && p.col < w && (p.row == |p.lines| ==> p.col == 0)
  }

  /** The line the next character goes to exists from now on. */
  function Grown(p: Page, w: nat): Page {
    if p.row < |p.lines| then p else p.(lines := p.lines + [Blanks(w)], row := |p.lines|)
  }

  function NextLine(p: Page): Page { p.(row := p.row + 1, col := 0) }

  /** One character: '\n' clears the rest of the line and starts the next, '\r' goes back to the start
      of the line, anything else is stored and may wrap. */
  function Type(p: Page, w: nat, c: int): (r: Page)
    requires Wide(p, w)
    ensures Wide(r, w)
  {
    var g := Grown(p, w);
    var line := g.lines[g.row];
    if c % 0x100 == NEWLINE then NextLine(g.(lines := g.lines[g.row := line[..g.col] + Blanks(w - g.col)]))
    else if c % 0x100 == RETURN then g.(col := 0)
    else
      var g' := g.(lines := g.lines[g.row := line[g.col := Glyph(c)]]);
      if g.col + 1 == w then NextLine(g') else g'.(col := g.col + 1)
  }

  function TypeAll(p: Page, w: nat, s: seq<int>): (r: Page)
    requires Wide(p, w)
    ensures Wide(r, w)
  {
    if s == [] then p else Type(TypeAll(p, w, s[..|s| - 1]), w, s[|s| - 1])
  }

  lemma {:induction false} TypeAllConcat(p: Page, w: nat, a: seq<int>, b: seq<int>)
    requires Wide(p, w)
    ensures TypeAll(p, w, a + b) == TypeAll(TypeAll(p, w, a), w, b)
  {
    if b == [] {
      assert a + b == a;
    } else {
      var n := |b| - 1;
      assert (a + b)[..|a + b| - 1] == a + b[..n];
      TypeAllConcat(p, w, a, b[..n]);
    }
  }

  // ---- what typing lines of text leaves on the page --------------------------------------

  predicate Printable(s: seq<int>) {
    forall i :: 0 <= i < |s| ==> s[i] % 0x100 != NEWLINE && s[i] % 0x100 != RETURN
  }

  function Glyphs(s: seq<int>): (r: seq<int>)
    ensures |r| == |s| && forall i :: 0 <= i < |s| ==> r[i] == Glyph(s[i])
  {
    seq(|s|, i requires 0 <= i < |s| => Glyph(s[i]))
  }

  /** A finished line as it appears, broken every w characters; the last part is filled up with
      blanks, and is all blank if the line ends exactly at the margin. */
  function Broken(s: seq<int>, w: nat): (r: seq<seq<int>>)
    requires w > 0
    ensures forall i :: 0 <= i < |r| ==> |r[i]| == w
  {
    if |s| < w then [Glyphs(s) + Blanks(w - |s|)] else [Glyphs(s[..w])] + Broken(s[w..], w)
  }

  /** The lines with `news` from `row` on, in place of what was there and then beyond the end. */
  function Over(lines: seq<seq<int>>, row: nat, news: seq<seq<int>>): (r: seq<seq<int>>)
    requires row <= |lines|
    ensures |r| == if row + |news| <= |lines| then |lines| else row + |news|
  {
    lines[..row] + news + (if row + |news| <= |lines| then lines[row + |news|..] else [])
  }

  lemma OverOne(lines: seq<seq<int>>, row: nat, x: seq<int>, y: seq<int>)
    requires row <= |lines|
    ensures Over(lines, row, [x])[row] == x && Over(lines, row, [x])[row := y] == Over(lines, row, [y])
  {
  }

  lemma OverOver(lines: seq<seq<int>>, row: nat, a: seq<seq<int>>, b: seq<seq<int>>)
    requires row <= |lines|
    ensures Over(Over(lines, row, a), row + |a|, b) == Over(lines, row, a + b)
  {
    var l := Over(lines, row, a);
    assert l[..row + |a|] == lines[..row] + a;
    assert |l| > row + |a| + |b| ==> l[row + |a| + |b|..] == lines[row + |a| + |b|..];
  }

  /** What the line at the cursor holds before anything is typed on it. */
  function Under(p: Page, w: nat): (r: seq<int>)
    requires Wide(p, w)
    ensures |r| == w
  {
    if p.row < |p.lines| then p.lines[p.row] else Blanks(w)
  }

  /** That line with s typed from its start. */
  function LineWith(p: Page, w: nat, s: seq<int>): seq<int>
    requires Wide(p, w) && |s| <= w
  {
    Glyphs(s) + Under(p, w)[|s|..]
  }

  /** The page after s has been typed from the start of a line that is not full yet. */
  function Partial(p: Page, w: nat, s: seq<int>): Page
    requires Wide(p, w) && |s| < w
  {
    if s == [] then p else Page(Over(p.lines, p.row, [LineWith(p, w, s)]), p.row, |s|)
  }

  lemma GrownPartial(p: Page, w: nat, s: seq<int>)
    requires Wide(p, w) && p.col == 0 && |s| < w
    ensures Grown(Partial(p, w, s), w) == Page(Over(p.lines, p.row, [LineWith(p, w, s)]), p.row, |s|)
  {
    if s == [] { assert LineWith(p, w, s) == Under(p, w); }
  }

  lemma {:induction false} TypePart(p: Page, w: nat, s: seq<int>)
    requires Wide(p, w) && p.col == 0 && Printable(s) && |s| < w
    ensures TypeAll(p, w, s) == Partial(p, w, s)
    decreases |s|
  {
    if s != [] {
      var n := |s| - 1;
      TypePart(p, w, s[..n]);
      TypeOne(p, w, s[..n], s[n]);
      assert s[..n] + [s[n]] == s;
    }
  }

  lemma GlyphsAppend(s: seq<int>, c: int)
    ensures Glyphs(s + [c]) == Glyphs(s) + [Glyph(c)]
  {
  }

  lemma LineMore(p: Page, w: nat, s: seq<int>, c: int)
    requires Wide(p, w) && |s| < w
    ensures LineWith(p, w, s)[|s| := Glyph(c)] == LineWith(p, w, s + [c])
  {
    GlyphsAppend(s, c);
  }

  lemma TypeOne(p: Page, w: nat, s: seq<int>, c: int)
    requires Wide(p, w) && p.col == 0 && |s| + 1 < w && c % 0x100 != NEWLINE && c % 0x100 != RETURN
    requires Wide(Partial(p, w, s), w)
    ensures Type(Partial(p, w, s), w, c) == Partial(p, w, s + [c])
  {
    GrownPartial(p, w, s);
    LineMore(p, w, s, c);
    OverOne(p.lines, p.row, LineWith(p, w, s), LineWith(p, w, s + [c]));
  }

  /** The character in the last column takes the cursor to the next line. */
  lemma TypeFull(p: Page, w: nat, s: seq<int>)
    requires Wide(p, w) && p.col == 0 && Printable(s) && |s| == w
    ensures TypeAll(p, w, s) == Page(Over(p.lines, p.row, [Glyphs(s)]), p.row + 1, 0)
  {
    var n := w - 1;
    var t, c := s[..n], s[n];
    TypePart(p, w, t);
    assert t + [c] == s;
    GrownPartial(p, w, t);
    LineMore(p, w, t, c);
    assert LineWith(p, w, s) == Glyphs(s);
    OverOne(p.lines, p.row, LineWith(p, w, t), Glyphs(s));
  }

  lemma TypeEnd(p: Page, w: nat, s: seq<int>)
    requires Wide(p, w) && p.col == 0 && Printable(s) && |s| < w
    ensures TypeAll(p, w, s + [NEWLINE]) == Page(Over(p.lines, p.row, [Glyphs(s) + Blanks(w - |s|)]), p.row + 1, 0)
  {
    TypePart(p, w, s);
    assert (s + [NEWLINE])[..|s|] == s;
    EndLine(p, w, s);
  }

  /** '\n' clears the rest of the line. */
  lemma EndLine(p: Page, w: nat, s: seq<int>)
    requires Wide(p, w) && p.col == 0 && |s| < w && Wide(Partial(p, w, s), w)
    ensures Type(Partial(p, w, s), w, NEWLINE)
            == Page(Over(p.lines, p.row, [Glyphs(s) + Blanks(w - |s|)]), p.row + 1, 0)
  {
    GrownPartial(p, w, s);
    assert LineWith(p, w, s)[..|s|] == Glyphs(s);
    OverOne(p.lines, p.row, LineWith(p, w, s), Glyphs(s) + Blanks(w - |s|));
  }

  /** A line of any length, typed with its newline from the start of any line, leaves its broken form
      there, over what was there before. */
  lemma {:induction false} TypeLine(p: Page, w: nat, s: seq<int>)
    requires Wide(p, w) && p.col == 0 && Printable(s)
    ensures TypeAll(p, w, s + [NEWLINE]) == Page(Over(p.lines, p.row, Broken(s, w)), p.row + |Broken(s, w)|, 0)
    decreases |s|
  {
    if |s| < w {
      TypeEnd(p, w, s);
    } else {
      var a, b := s[..w], s[w..];
      TypeFull(p, w, a);
      var q := TypeAll(p, w, a);
      TypeLine(q, w, b);
      assert s + [NEWLINE] == a + (b + [NEWLINE]);
      TypeAllConcat(p, w, a, b + [NEWLINE]);
      OverOver(p.lines, p.row, [Glyphs(a)], Broken(b, w));
    }
  }

  function Text(ls: seq<seq<int>>): seq<int> {
    if ls == [] then [] else Text(ls[..|ls| - 1]) + (ls[|ls| - 1] + [NEWLINE])
  }

  predicate AllPrintable(ls: seq<seq<int>>) { forall i :: 0 <= i < |ls| ==> Printable(ls[i]) }

  function AllBroken(ls: seq<seq<int>>, w: nat): seq<seq<int>>
    requires w > 0
  {
    if ls == [] then [] else AllBroken(ls[..|ls| - 1], w) + Broken(ls[|ls| - 1], w)
  }

  /** Typing a text from the start of any line leaves its lines there, in order, over what was there
      and then below it. */
  lemma {:induction false} TypeText(p: Page, w: nat, ls: seq<seq<int>>)
    requires Wide(p, w) && p.col == 0 && AllPrintable(ls)
    ensures TypeAll(p, w, Text(ls)) == Page(Over(p.lines, p.row, AllBroken(ls, w)), p.row + |AllBroken(ls, w)|, 0)
    decreases |ls|
  {
    if ls != [] {
      var n := |ls| - 1;
      TypeText(p, w, ls[..n]);
      TypeAllConcat(p, w, Text(ls[..n]), ls[n] + [NEWLINE]);
      TypeNext(p, w, TypeAll(p, w, Text(ls[..n])), AllBroken(ls[..n], w), ls[n]);
    } else {
      assert Over(p.lines, p.row, []) == p.lines;
    }
  }

  /** One more line below `done`. */
  lemma TypeNext(p: Page, w: nat, q: Page, done: seq<seq<int>>, s: seq<int>)
    requires Wide(p, w) && Wide(q, w) && q == Page(Over(p.lines, p.row, done), p.row + |done|, 0) && Printable(s)
    ensures var news := done + Broken(s, w);
      TypeAll(q, w, s + [NEWLINE]) == Page(Over(p.lines, p.row, news), p.row + |news|, 0)
  {
    TypeLine(q, w, s);
    OverOver(p.lines, p.row, done, Broken(s, w));
  }

  // ---- reading the text back -------------------------------------------------------------------

  /** How many lines of width w a text takes up. */
  function Rows(ls: seq<seq<int>>, w: nat): nat
    requires w > 0
  {
    if ls == [] then 0 else Rows(ls[..|ls| - 1], w) + |ls[|ls| - 1]| / w + 1
  }

  lemma {:induction false} BrokenRows(s: seq<int>, w: nat)
    requires w > 0
    ensures |Broken(s, w)| == |s| / w + 1
    decreases |s|
  {
    if |s| >= w {
      BrokenRows(s[w..], w);
      LessOne(|s|, w);
    }
  }

  lemma LessOne(n: nat, w: nat)
    requires 0 < w <= n
    ensures (n - w) / w == n / w - 1 && (n - w) % w == n % w
  {
    Euclid(n, w);
    assert (n / w - 1) * w + w == n / w * w;
    assert n / w != 0;
    DivUnique(n - w, w, n / w - 1, n % w);
  }

  /** Character j of a line stands in column j % w of its part j / w, with its byte in the cell. */
  lemma {:induction false} BrokenRead(s: seq<int>, w: nat, j: nat)
    requires w > 0 && j < |s|
    ensures j / w < |Broken(s, w)|
    ensures InCell(Broken(s, w)[j / w][j % w], s[j])
    decreases |s|
  {
    GlyphBytes(s[j]);
    if j < w {
      assert j / w == 0 && j % w == j;
    } else {
      BrokenRead(s[w..], w, j - w);
      LessOne(j, w);
    }
  }

  lemma {:induction false} AllBrokenAt(ls: seq<seq<int>>, w: nat, q: nat, r: nat)
    requires w > 0 && q < |ls| && r < |Broken(ls[q], w)|
    ensures |AllBroken(ls, w)| == Rows(ls, w) && Rows(ls[..q], w) + r < |AllBroken(ls, w)|
    ensures AllBroken(ls, w)[Rows(ls[..q], w) + r] == Broken(ls[q], w)[r]
    decreases |ls|
  {
    var n := |ls| - 1;
    var t := ls[..n];
    BrokenRows(ls[n], w);
    AllBrokenRows(t, w);
    if q < n {
      AllBrokenAt(t, w, q, r);
      assert t[..q] == ls[..q];
    }
  }

  lemma {:induction false} AllBrokenRows(ls: seq<seq<int>>, w: nat)
    requires w > 0
    ensures |AllBroken(ls, w)| == Rows(ls, w)
  {
    if ls != [] {
      AllBrokenRows(ls[..|ls| - 1], w);
      BrokenRows(ls[|ls| - 1], w);
    }
  }

  // ---- what a window on the last lines shows of it -----------------------------------------

  /** The last h lines. */
  function Last(lines: seq<seq<int>>, h: nat): (r: seq<seq<int>>)
    requires h <= |lines|
  {
    lines[|lines| - h..]
  }

  /** Line r of what was put over the others, as a window on the last lines shows it. */
  lemma OverAt(lines: seq<seq<int>>, k: nat, news: seq<seq<int>>, r: nat)
    requires k <= |lines| && r < |news|
    ensures var gone := if k + |news| <= |lines| then 0 else k + |news| - |lines|;
      k + r >= gone ==> k + r - gone < |lines| && Last(Over(lines, k, news), |lines|)[k + r - gone] == news[r]
  {
  }

  /** A window needs to know only what it shows. */
  lemma LastOver(lines: seq<seq<int>>, h: nat, row: nat, news: seq<seq<int>>)
    requires h <= |lines| && |lines| - h <= row <= |lines|
    ensures Last(Over(lines, row, news), h) == Last(Over(Last(lines, h), row - (|lines| - h), news), h)
  {
    var top := |lines| - h;
    var a, b := Over(lines, row, news), Over(Last(lines, h), row - top, news);
    assert |a| == top + |b|;
    forall i | 0 <= i < |b| ensures a[top + i] == b[i] {}
  }

  /** So a window of h lines, with the cursor at the start of its line k, shows after a text the last h
      of what it showed with the broken lines put in from line k on. */
  lemma TextInWindow(p: Page, w: nat, h: nat, ls: seq<seq<int>>)
    requires Wide(p, w) && p.col == 0 && AllPrintable(ls) && h <= |p.lines| && |p.lines| - h <= p.row
    ensures var q, k, n := TypeAll(p, w, Text(ls)), p.row - (|p.lines| - h), |AllBroken(ls, w)|;
      && h <= |q.lines| && q.col == 0 && Last(q.lines, h) == Last(Over(Last(p.lines, h), k, AllBroken(ls, w)), h)
      && q.row - (|q.lines| - h) == if k + n <= h then k + n else h
  {
    TypeText(p, w, ls);
    LastOver(p.lines, h, p.row, AllBroken(ls, w));
  }

  /** Character j of line q, as the window shows it when `gone` lines have been scrolled off. */
  lemma ReadAt(shown: seq<seq<int>>, before: seq<seq<int>>, k: nat, ls: seq<seq<int>>, w: nat,
               q: nat, j: nat, gone: nat)
    requires w > 0 && k <= |before| && q < |ls| && j < |ls[q]|
    requires shown == Last(Over(before, k, AllBroken(ls, w)), |before|)
    requires gone == if k + Rows(ls, w) <= |before| then 0 else k + Rows(ls, w) - |before|
    requires k + Rows(ls[..q], w) + j / w >= gone
    ensures var y := k + Rows(ls[..q], w) + j / w - gone;
      y < |shown| && |shown[y]| == w && InCell(shown[y][j % w], ls[q][j])
  {
    Euclid(j, w);
    BrokenRead(ls[q], w, j);
    var news, r := AllBroken(ls, w), Rows(ls[..q], w) + j / w;
    AllBrokenAt(ls, w, q, j / w);
    OverAt(before, k, news, r);
  }
}
