/**
 The scrolling region of kernel/cio.c.  Video memory is a 25 by 80 array of cells; cursor port
 writes, echo to the serial line and the keyboard are not modelled.
 */
module Console {
  import opened Wrappers
  import opened PageText
  import opened Division

  const WIDTH: nat := 80
  const HEIGHT: nat := 25

  /** lib/bound.c */
  function Bound(min: int, value: int, max: int): (r: int)
    ensures min <= value <= max ==> r == value
    ensures value < min <= max ==> r == min
    ensures value > max || min > max ==> r == max
  {
    var v := if value < min then min else value;
    if v > max then max else v
  }

  class Screen {
    const cells: array2<int>
    var minX: nat
    var minY: nat
    var maxX: nat
    var maxY: nat
    var currX: nat
    var currY: nat

    /** The unbounded page the region is a window on; the code keeps nothing of it. */
    ghost var page: Page

    /** The region lies on the screen; the cursor lies in the region, or at the start of the line below it. */
    ghost predicate Valid()
      reads this
    {
      && cells.Length0 == HEIGHT && cells.Length1 == WIDTH
      && minX <= maxX < WIDTH && minY <= maxY < HEIGHT
      && minX <= currX <= maxX && minY <= currY <= maxY + 1
      && (currY == maxY + 1 ==> currX == minX)
    }

    ghost function Width(): nat
      reads this
    {
      if minX <= maxX then maxX - minX + 1 else 1
    }

    ghost function Top(): int
      reads this
    {
      |page.lines| - (maxY - minY + 1)
    }

    predicate InRegion(y: int, x: int)
      reads this
    {
      minY <= y <= maxY && minX <= x <= maxX
    }

    /** The cell shows the page. */
    ghost predicate CellShows(y: int, x: int)
      requires Valid() && Wide(page, Width()) && Top() >= 0 && InRegion(y, x)
      reads this, cells
    {
      cells[y, x] == page.lines[Top() + y - minY][x - minX]
    }

    /** The region shows the last lines of the page, and the cursor is where the page's is. */
    ghost predicate Shows()
      reads this, cells
    {
      && Valid() && Wide(page, Width()) && Top() >= 0
      && page.row == Top() + currY - minY && page.col == currX - minX
      && forall y, x :: InRegion(y, x) ==> CellShows(y, x)
    }

    /** Line y of the region as the screen has it. */
    ghost function Line(y: nat): (r: seq<int>)
      requires Valid() && minY <= y <= maxY
      reads this, cells
      ensures |r| == Width()
    {
      seq(maxX - minX + 1,
          j requires 0 <= j <= maxX - minX reads this, cells requires Valid() && y <= maxY => cells[y, minX + j])
    }

    /** Said of whole lines. */
    lemma LinesShown(y: nat)
      requires Shows() && minY <= y <= maxY
      ensures 0 <= Top() + y - minY < |page.lines| && Line(y) == page.lines[Top() + y - minY]
    {
      forall j | 0 <= j < Width() ensures Line(y)[j] == page.lines[Top() + y - minY][j] {
        assert CellShows(y, minX + j);
      }
    }

    /** The lines of the region, from the top. */
    ghost function Shown(): (r: seq<seq<int>>)
      requires Valid()
      reads this, cells
      ensures |r| == maxY - minY + 1
    {
      seq(maxY - minY + 1, i requires 0 <= i <= maxY - minY reads this, cells requires Valid() => Line(minY + i))
    }

    lemma ShownIs()
      requires Shows()
      ensures Shown() == Last(page.lines, maxY - minY + 1)
    {
      forall i | 0 <= i <= maxY - minY ensures Shown()[i] == Last(page.lines, maxY - minY + 1)[i] {
        LinesShown(minY + i);
      }
    }

    /** The state cio_init leaves: the whole screen is the region, and it is clear. */
    constructor ()
      ensures Shows() && minX == 0 && minY == 0 && maxX == 79 && maxY == 24 && fresh(cells)
      ensures page == Page(seq(HEIGHT, _ => Blanks(WIDTH)), 0, 0)
    {
      cells := new int[HEIGHT, WIDTH]((_, _) => BLANK);
      minX, minY, maxX, maxY, currX, currY := 0, 0, WIDTH - 1, HEIGHT - 1, 0, 0;
      page := Page(seq(HEIGHT, _ => Blanks(WIDTH)), 0, 0);
      new;
      forall y, x | InRegion(y, x) ensures CellShows(y, x) { }
    }

    /** putchar_at */
    method PutcharAt(x: nat, y: nat, c: nat)
      requires cells.Length0 == HEIGHT && cells.Length1 == WIDTH
      modifies cells
      ensures forall b: nat, a: nat :: b < HEIGHT && a < WIDTH ==>
        cells[b, a] == if b == y && a == x then Glyph(c) else old(cells[b, a])
      ensures y < HEIGHT && x < WIDTH ==>
        cells[y, x] % 0x100 == c % 0x100
        && cells[y, x] / 0x100 == if c / 0x100 % 0x100 != 0 then c / 0x100 % 0x100 else 0x70
    {
      GlyphBytes(c);
      if x <= WIDTH - 1 && y <= HEIGHT - 1 {
        var d := c % 0x1_0000;
        if d > 0xff { cells[y, x] := d; } else { cells[y, x] := d + 0x7000; }
      }
    }

    /** cio_setscroll: a new region, clipped to the screen, with the cursor at its top left. */
    method SetScroll(x0: nat, y0: nat, x1: nat, y1: nat)
      requires Valid()
      modifies this
      ensures Shows() && currX == minX && currY == minY && |page.lines| == maxY - minY + 1
      ensures minX == Bound(0, x0, WIDTH - 1) && minY == Bound(0, y0, HEIGHT - 1)
      ensures maxX == Bound(minX, x1, WIDTH - 1) && maxY == Bound(minY, y1, HEIGHT - 1)
    {
      minX := Bound(0, x0, WIDTH - 1);
      minY := Bound(0, y0, HEIGHT - 1);
      maxX := Bound(minX, x1, WIDTH - 1);
      maxY := Bound(minY, y1, HEIGHT - 1);
      currX, currY := minX, minY;
      StartPage();
    }

    /** What the region shows now becomes the page. */
    ghost method StartPage()
      requires Valid() && currX == minX && currY == minY
      modifies this`page
      ensures Shows() && |page.lines| == maxY - minY + 1
    {
      var snap := Snapshot(maxY - minY + 1);
      page := Page(snap, 0, 0);
      forall y, x | InRegion(y, x) ensures CellShows(y, x) { assert old(SnapShows(snap, y, x)); }
    }

    /** Row i of `snap`, if it has one, says what the region's row i shows. */
    ghost predicate SnapShows(snap: seq<seq<int>>, y: int, x: int)
      requires Valid() && InRegion(y, x)
      reads this, cells
    {
      y - minY < |snap| ==> x - minX < |snap[y - minY]| && cells[y, x] == snap[y - minY][x - minX]
    }

    /** The first n lines of the region, as a page of their own. */
    ghost function Snapshot(n: nat): (r: seq<seq<int>>)
      requires Valid() && n <= maxY - minY + 1
      reads this, cells
      ensures |r| == n && forall i :: 0 <= i < n ==> |r[i]| == Width()
      ensures forall y, x :: InRegion(y, x) ==> SnapShows(r, y, x)
    {
      if n == 0 then [] else
      var s := Snapshot(n - 1);
      var r := s + [Line(minY + n - 1)];
      assert forall y, x :: InRegion(y, x) ==> SnapShows(r, y, x) by {
        forall y, x | InRegion(y, x) ensures SnapShows(r, y, x) {
          assert SnapShows(s, y, x);
          if y - minY == n - 1 { assert Line(y)[x - minX] == cells[y, x]; }
        }
      }
      r
    }

    /** cio_moveto: the cursor moves within the region, in 32-bit arithmetic. */
    method MoveTo(x: nat, y: nat)
      requires Shows()
      modifies this`currX, this`currY, this`page
      ensures Shows() && page.lines == old(page.lines)
      ensures currX == Bound(minX, (x + minX) % TWO_32, maxX) && currY == Bound(minY, (y + minY) % TWO_32, maxY)
    {
      currX := Bound(minX, (x + minX) % TWO_32, maxX);
      currY := Bound(minY, (y + minY) % TWO_32, maxY);
      page := page.(row := Top() + currY - minY, col := currX - minX);
      forall b, a | InRegion(b, a) ensures CellShows(b, a) { assert old(CellShows(b, a)); }
    }

    /** One line of cio_clearscroll, or of the second loop of cio_scroll. */
    method BlankRow(y: nat)
      requires Valid() && y < HEIGHT
      modifies cells
      ensures forall b: nat, a: nat :: b < HEIGHT && a < WIDTH ==>
        cells[b, a] == if b == y && minX <= a <= maxX then BLANK else old(cells[b, a])
    {
      var nchars, c := maxX - minX + 1, 0;
      while c < nchars
        invariant 0 <= c <= nchars
        invariant forall b: nat, a: nat :: b < HEIGHT && a < WIDTH ==>
          cells[b, a] == if b == y && minX <= a < minX + c then BLANK else old(cells[b, a])
      {
        cells[y, minX + c] := BLANK;
        c := c + 1;
      }
    }

    /** One line of the first loop of cio_scroll. */
    method CopyRow(to: nat, from: nat)
      requires Valid() && to < HEIGHT && from < HEIGHT
      modifies cells
      ensures forall b: nat, a: nat :: b < HEIGHT && a < WIDTH ==>
        cells[b, a] == if b == to && minX <= a <= maxX then old(cells[from, a]) else old(cells[b, a])
    {
      var nchars, c := maxX - minX + 1, 0;
      while c < nchars
        invariant 0 <= c <= nchars
        invariant forall b: nat, a: nat :: b < HEIGHT && a < WIDTH ==>
          cells[b, a] == if b == to && minX <= a < minX + c then old(cells[from, a]) else old(cells[b, a])
      {
        cells[to, minX + c] := cells[from, minX + c];
        c := c + 1;
      }
    }

    /** cio_clearscroll */
    method ClearScroll()
      requires Valid()
      modifies cells
      ensures forall y: nat, x: nat :: y < HEIGHT && x < WIDTH ==>
        cells[y, x] == if InRegion(y, x) then BLANK else old(cells[y, x])
    {
      var l := minY;
      while l <= maxY
        invariant minY <= l <= maxY + 1
        invariant forall y: nat, x: nat :: y < HEIGHT && x < WIDTH ==>
          cells[y, x] == if minY <= y < l && minX <= x <= maxX then BLANK else old(cells[y, x])
      {
        BlankRow(l);
        l := l + 1;
      }
    }

    /** cio_scroll: the region moves up, or is cleared and the cursor sent home when nothing would remain. */
    method Scroll(lines: nat)
      requires Valid()
      modifies this`currX, this`currY, cells
      ensures Valid()
      ensures forall y: nat, x: nat :: y < HEIGHT && x < WIDTH ==>
        cells[y, x] == if !InRegion(y, x) then old(cells[y, x])
                       else if y + lines <= maxY then old(cells[y + lines, x]) else BLANK
      ensures currX == if lines > maxY - minY then minX else old(currX)
      ensures currY == if lines > maxY - minY then minY else old(currY)
    {
      if lines > maxY - minY {
        ClearScroll();
        currX, currY := minX, minY;
        return;
      }
      ScrollUp(lines);
    }

    method ScrollUp(lines: nat)
      requires Valid() && lines <= maxY - minY
      modifies cells
      ensures forall y: nat, x: nat :: y < HEIGHT && x < WIDTH ==>
        cells[y, x] == if !InRegion(y, x) then old(cells[y, x])
                       else if y + lines <= maxY then old(cells[y + lines, x]) else BLANK
    {
      var line := minY;
      while line <= maxY - lines
        invariant minY <= line <= maxY - lines + 1
        invariant forall y: nat, x: nat :: y < HEIGHT && x < WIDTH ==>
          cells[y, x] == if minY <= y < line && minX <= x <= maxX then old(cells[y + lines, x]) else old(cells[y, x])
      {
        CopyRow(line, line + lines);
        line := line + 1;
      }
      while line <= maxY
        invariant maxY - lines + 1 <= line <= maxY + 1
        invariant forall y: nat, x: nat :: y < HEIGHT && x < WIDTH ==>
          cells[y, x] == if minY <= y < line && minX <= x <= maxX
                         then (if y + lines <= maxY then old(cells[y + lines, x]) else BLANK)
                         else old(cells[y, x])
      {
        BlankRow(line);
        line := line + 1;
      }
    }

    /** The delayed scroll at the start of cio_putchar. */
    method MakeRoom()
      requires Shows()
      modifies this`currX, this`currY, this`page, cells
      ensures Shows() && currY <= maxY && page == Grown(old(page), Width())
      ensures currX == old(currX) && currY == if old(currY) > maxY then maxY else old(currY)
      ensures forall y: nat, x: nat :: y < HEIGHT && x < WIDTH ==>
        cells[y, x] == if old(currY) <= maxY || !InRegion(y, x) then old(cells[y, x])
                       else if y < maxY then old(cells[y + 1, x]) else 0x7020
    {
      if currY > maxY {
        Scroll(currY - maxY);
        currY := maxY;
        page := Grown(page, Width());
        forall y, x | InRegion(y, x) ensures CellShows(y, x) {
          if y < maxY { assert old(CellShows(y + 1, x)); }
        }
      }
    }

    /** The '\n' case: clear to the end of the line, then start the next. */
    method NewLine()
      requires Shows() && currY <= maxY
      modifies this`currX, this`currY, this`page, cells
      ensures Shows() && page == Type(old(page), Width(), NEWLINE)
      ensures currX == minX && currY == old(currY) + 1
      ensures forall y: nat, x: nat :: y < HEIGHT && x < WIDTH ==>
        cells[y, x] == if y == old(currY) && old(currX) <= x <= maxX then 0x7020 else old(cells[y, x])
    {
      ghost var x0 := currX;
      while currX <= maxX
        invariant x0 <= currX <= maxX + 1
        invariant forall b: nat, a: nat :: b < HEIGHT && a < WIDTH ==>
          cells[b, a] == if b == currY && x0 <= a < currX then BLANK else old(cells[b, a])
        modifies this`currX, cells
      {
        PutcharAt(currX, currY, 0x20);
        currX := currX + 1;
      }
      page := Type(page, Width(), NEWLINE);
      currX := minX;
      currY := currY + 1;
      forall b, a | InRegion(b, a) ensures CellShows(b, a) { assert old(CellShows(b, a)); }
    }

    /** The default case: store the character and advance, wrapping at the right edge. */
    method Store(c: nat)
      requires Shows() && currY <= maxY && c % 0x100 != NEWLINE && c % 0x100 != RETURN
      modifies this`currX, this`currY, this`page, cells
      ensures Shows() && page == Type(old(page), Width(), c)
      ensures currX == (if old(currX) < maxX then old(currX) + 1 else minX)
      ensures currY == (if old(currX) < maxX then old(currY) else old(currY) + 1)
      ensures var v := cells[old(currY), old(currX)];
        v % 0x100 == c % 0x100 && v / 0x100 == if c / 0x100 % 0x100 != 0 then c / 0x100 % 0x100 else 0x70
      ensures forall y: nat, x: nat :: y < HEIGHT && x < WIDTH && (y != old(currY) || x != old(currX)) ==>
        cells[y, x] == old(cells[y, x])
    {
      PutcharAt(currX, currY, c);
      page := Type(page, Width(), c);
      currX := currX + 1;
      if currX > maxX {
        currX := minX;
        currY := currY + 1;
      }
      forall b, a | InRegion(b, a) ensures CellShows(b, a) { assert old(CellShows(b, a)); }
    }

    /** A character that is neither '\n' nor '\r'. */
    static predicate Plain(c: int) { c % 0x100 != 10 && c % 0x100 != 13 }

    /** The line the cursor stands on once there is room for a character. */
    function Row(): nat
      reads this
    {
      if currY > maxY then maxY else currY
    }

    /** What a cell holds after the delayed scroll. */
    function Scrolled(y: nat, x: nat): int
      requires Valid() && y < HEIGHT && x < WIDTH
      reads this, cells
    {
      if currY <= maxY || !InRegion(y, x) then cells[y, x] else if y < maxY then cells[y + 1, x] else 0x7020
    }

    /** cio_putchar: the region goes on showing the page, on which the character has been typed, and no
        cell outside it changes.  After the delayed scroll a plain character puts its low byte, with
        its own attributes or black on white, into the cell at the cursor, which moves on; '\n' clears the
        rest of the line and goes to the next; '\r' goes to the left edge and changes no cell. */
    method Putchar(c: nat)
      requires Shows()
      modifies this`currX, this`currY, this`page, cells
      ensures Shows() && page == Type(old(page), Width(), c)
      ensures forall y: nat, x: nat :: y < HEIGHT && x < WIDTH && !InRegion(y, x) ==> cells[y, x] == old(cells[y, x])
      ensures currX == if Plain(c) && old(currX) < maxX then old(currX) + 1 else minX
      ensures currY == if c % 0x100 == 13 || (Plain(c) && old(currX) < maxX) then old(Row()) else old(Row()) + 1
      ensures Plain(c) ==> var v := cells[old(Row()), old(currX)];
        v % 0x100 == c % 0x100 && v / 0x100 == if c / 0x100 % 0x100 != 0 then c / 0x100 % 0x100 else 0x70
      ensures forall y: nat, x: nat :: y < HEIGHT && x < WIDTH && !(Plain(c) && y == old(Row()) && x == old(currX)) ==>
        cells[y, x] == if c % 0x100 == 10 && y == old(Row()) && old(currX) <= x <= maxX then 0x7020
                       else old(Scrolled(y, x))
    {
      MakeRoom();
      Place(c);
    }

    /** The switch in cio_putchar, once there is room. */
    method Place(c: nat)
      requires Shows() && currY <= maxY
      modifies this`currX, this`currY, this`page, cells
      ensures Shows() && page == Type(old(page), Width(), c)
      ensures currX == if Plain(c) && old(currX) < maxX then old(currX) + 1 else minX
      ensures currY == if c % 0x100 == 13 || (Plain(c) && old(currX) < maxX) then old(currY) else old(currY) + 1
      ensures Plain(c) ==> var v := cells[old(currY), old(currX)];
        v % 0x100 == c % 0x100 && v / 0x100 == if c / 0x100 % 0x100 != 0 then c / 0x100 % 0x100 else 0x70
      ensures forall y: nat, x: nat :: y < HEIGHT && x < WIDTH && !(Plain(c) && y == old(currY) && x == old(currX)) ==>
        cells[y, x] == if c % 0x100 == 10 && y == old(currY) && old(currX) <= x <= maxX then 0x7020
                       else old(cells[y, x])
    {
      if c % 0x100 == NEWLINE {
        NewLine();
      } else if c % 0x100 == RETURN {
        currX := minX;
        page := page.(col := 0);
        forall b, a | InRegion(b, a) ensures CellShows(b, a) { assert old(CellShows(b, a)); }
      } else {
        Store(c);
      }
    }

    /** What the region shows once a text has been put out: its lines, broken at the margin, from line k
        on in place of what was there, and scrolled up if they do not fit; the cursor stands below them. */
    ghost predicate TextStands(before: seq<seq<int>>, k: nat, ls: seq<seq<int>>)
      requires k <= |before|
      reads this, cells
    {
      var n := |AllBroken(ls, Width())|;
      && Valid() && |before| == maxY - minY + 1
      && Shown() == Last(Over(before, k, AllBroken(ls, Width())), |before|)
      && currX == minX && currY == minY + (if k + n <= |before| then k + n else |before|)
    }

    /** From the page to the screen. */
    lemma TextShown(p: Page, before: seq<seq<int>>, k: nat, ls: seq<seq<int>>)
      requires Shows() && Wide(p, Width()) && p.col == 0 && AllPrintable(ls) && page == TypeAll(p, Width(), Text(ls))
      requires maxY - minY + 1 <= |p.lines| && before == Last(p.lines, maxY - minY + 1)
      requires k == p.row - (|p.lines| - |before|) && k <= |before|
      ensures TextStands(before, k, ls)
    {
      TextInWindow(p, Width(), maxY - minY + 1, ls);
      ShownIs();
    }

    /** A text that stands on the screen can be read back from it byte by byte: character j of its line q,
        unless it has been scrolled off. */
    lemma TextRead(before: seq<seq<int>>, k: nat, ls: seq<seq<int>>, q: nat, j: nat, y: nat, gone: nat)
      requires k <= |before| && TextStands(before, k, ls) && q < |ls| && j < |ls[q]|
      requires gone == if k + Rows(ls, Width()) <= |before| then 0 else k + Rows(ls, Width()) - |before|
      requires minY <= y && y + gone == minY + k + Rows(ls[..q], Width()) + j / Width()
      ensures minY <= y <= maxY
      ensures var v := Line(y)[j % Width()]; var c := ls[q][j];
        v % 0x100 == c % 0x100 && v / 0x100 == if c / 0x100 % 0x100 != 0 then c / 0x100 % 0x100 else 0x70
    {
      var w := Width();
      Euclid(j, w);
      ReadAt(Shown(), before, k, ls, w, q, j, gone);
      assert Shown()[y - minY] == Line(y);
    }

    /** cio_puts of the characters of s. */
    method Puts(s: seq<int>)
      requires Shows() && forall i :: 0 <= i < |s| ==> s[i] > 0
      modifies this`currX, this`currY, this`page, cells
      ensures Shows() && page == TypeAll(old(page), Width(), s)
      ensures forall y: nat, x: nat :: y < HEIGHT && x < WIDTH && !InRegion(y, x) ==> cells[y, x] == old(cells[y, x])
      ensures old(currX) == minX ==>
                forall ls :: s == Text(ls) && AllPrintable(ls) ==> TextStands(old(Shown()), old(currY) - minY, ls)
    {
      ghost var p, before, k := page, Shown(), currY - minY;
      ShownIs();
      PutAll(s);
      if p.col == 0 { TextsShown(p, before, k, s); }
    }

    lemma TextsShown(p: Page, before: seq<seq<int>>, k: nat, s: seq<int>)
      requires Shows() && Wide(p, Width()) && p.col == 0 && page == TypeAll(p, Width(), s)
      requires maxY - minY + 1 <= |p.lines| && before == Last(p.lines, maxY - minY + 1)
      requires k == p.row - (|p.lines| - |before|) && k <= |before|
      ensures forall ls :: s == Text(ls) && AllPrintable(ls) ==> TextStands(before, k, ls)
    {
      forall ls | s == Text(ls) && AllPrintable(ls) ensures TextStands(before, k, ls) { TextShown(p, before, k, ls); }
    }

    /** The loop of cio_puts. */
    method PutAll(s: seq<int>)
      requires Shows() && forall i :: 0 <= i < |s| ==> s[i] > 0
      modifies this`currX, this`currY, this`page, cells
      ensures Shows() && page == TypeAll(old(page), Width(), s)
      ensures forall y: nat, x: nat :: y < HEIGHT && x < WIDTH && !InRegion(y, x) ==> cells[y, x] == old(cells[y, x])
    {
      var i := 0;
      while i < |s|
        invariant 0 <= i <= |s| && Shows() && page == TypeAll(old(page), Width(), s[..i])
        invariant forall y: nat, x: nat :: y < HEIGHT && x < WIDTH && !InRegion(y, x) ==>
          cells[y, x] == old(cells[y, x])
      {
        assert s[..i + 1][..i] == s[..i];
        Putchar(s[i]);
        i := i + 1;
      }
      assert s[..i] == s;
    }
  }
}
