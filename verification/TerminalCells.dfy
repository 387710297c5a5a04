// The cell arrays, shifted in place as cmd/ssh.c shifts them, row by row and cell
// by cell. Each method is proved against the shift it amounts to.

module TerminalCells {
  import opened CStrings
  import opened Terminal

  // The array holds the grid.
  ghost predicate Shows(a: array2<Cell>, g: Grid)
    reads a
  {
    && Sized(g, a.Length0, a.Length1)
    && forall r, c :: 0 <= r < a.Length0 && 0 <= c < a.Length1 ==> a[r, c] == g[r][c]
  }

  // memset of one row.
  method FillRow(a: array2<Cell>, row: nat, blank: Cell, ghost g: Grid)
    requires Shows(a, g) && row < a.Length0
    modifies a
    ensures Shows(a, g[row := Repeat(a.Length1, blank)])
  {
    for c := 0 to a.Length1
      invariant forall r, d :: 0 <= r < a.Length0 && 0 <= d < a.Length1 ==>
        a[r, d] == if r == row && d < c then blank else g[r][d]
    {
      a[row, c] := blank;
    }
  }

  // memmove of one row onto another.
  method CopyRow(a: array2<Cell>, dst: nat, src: nat, ghost g: Grid)
    requires Shows(a, g) && dst < |g| && src < |g|
    modifies a
    ensures Shows(a, g[dst := g[src]])
  {
    for c := 0 to a.Length1
      invariant forall r, d :: 0 <= r < a.Length0 && 0 <= d < a.Length1 ==>
        a[r, d] == if r == dst && d < c then g[src][d] else g[r][d]
    {
      a[dst, c] := a[src, c];
    }
  }

  // Part of one upward move: rows from..to-1 already hold the row below them.
  ghost function MovedUp(g: Grid, from: nat, to: nat): (h: Grid)
    requires to < |g|
    ensures |h| == |g|
  {
    seq(|g|, r requires 0 <= r < |g| => if from <= r < to then g[r + 1] else g[r])
  }

  // Part of one downward move: rows at+1..bottom already hold the row above them.
  ghost function MovedDown(g: Grid, at: nat, bottom: nat): (h: Grid)
    requires bottom < |g|
    ensures |h| == |g|
  {
    seq(|g|, r requires 0 <= r < |g| => if at < r <= bottom then g[r - 1] else g[r])
  }

  lemma NoShift(g: Grid, from: nat, bottom: nat, row: seq<Cell>)
    requires bottom < |g|
    ensures RowsUp(g, from, bottom, 0, row) == g && (from < |g| ==> RowsDown(g, from, bottom, 0, row) == g)
  {
  }

  // A turn of the scrolling loop is one more row of the shift.
  lemma OneUp(g: Grid, from: nat, bottom: nat, n: nat, row: seq<Cell>)
    requires bottom < |g|
    ensures MovedUp(RowsUp(g, from, bottom, n, row), from, bottom)[bottom := row]
         == RowsUp(g, from, bottom, n + 1, row)
  {
  }

  lemma OneDown(g: Grid, from: nat, bottom: nat, n: nat, row: seq<Cell>)
    requires bottom < |g| && from < |g|
    ensures MovedDown(RowsDown(g, from, bottom, n, row), from, bottom)[from := row]
         == RowsDown(g, from, bottom, n + 1, row)
  {
  }

  method ScrollUp(a: array2<Cell>, count: nat, from: nat, bottom: nat, blank: Cell, ghost g: Grid)
    requires Shows(a, g) && bottom < a.Length0
    modifies a
    ensures Shows(a, RowsUp(g, from, bottom, count, Repeat(a.Length1, blank)))
  {
    hide RowsUp, RowsDown, MovedUp, MovedDown;
    ghost var row := Repeat(a.Length1, blank);
    NoShift(g, from, bottom, row);
    for n := 0 to count
      invariant Shows(a, RowsUp(g, from, bottom, n, row))
    {
      ghost var h := RowsUp(g, from, bottom, n, row);
      ShiftUpOnce(a, from, bottom, h);
      FillRow(a, bottom, blank, MovedUp(h, from, bottom));
      OneUp(g, from, bottom, n, row);
    }
  }

  lemma NotMoved(g: Grid, from: nat, to: nat)
    requires to < |g|
    ensures to <= from ==> MovedUp(g, from, to) == g && MovedDown(g, from, to) == g
  {
  }

  lemma NextUp(g: Grid, from: nat, row: nat)
    requires from <= row && row + 1 < |g|
    ensures var h := MovedUp(g, from, row); h[row := h[row + 1]] == MovedUp(g, from, row + 1)
  {
  }

  lemma NextDown(g: Grid, row: nat, bottom: nat)
    requires row + 1 <= bottom < |g|
    ensures var h := MovedDown(g, row + 1, bottom); h[row + 1 := h[row]] == MovedDown(g, row, bottom)
  {
  }

  method ShiftUpOnce(a: array2<Cell>, from: nat, bottom: nat, ghost g: Grid)
    requires Shows(a, g) && bottom < |g|
    modifies a
    ensures Shows(a, MovedUp(g, from, bottom))
  {
    hide MovedUp, Shows;
    NotMoved(g, from, bottom);
    if bottom <= from {
      return;
    }
    NotMoved(g, from, from);
    for row := from to bottom
      invariant Shows(a, MovedUp(g, from, row))
    {
      CopyRow(a, row, row + 1, MovedUp(g, from, row));
      NextUp(g, from, row);
    }
  }

  method ScrollDown(a: array2<Cell>, count: nat, from: nat, bottom: nat, blank: Cell, ghost g: Grid)
    requires Shows(a, g) && bottom < a.Length0 && from < a.Length0
    modifies a
    ensures Shows(a, RowsDown(g, from, bottom, count, Repeat(a.Length1, blank)))
  {
    hide RowsUp, RowsDown, MovedUp, MovedDown;
    ghost var row := Repeat(a.Length1, blank);
    NoShift(g, from, bottom, row);
    for n := 0 to count
      invariant Shows(a, RowsDown(g, from, bottom, n, row))
    {
      ghost var h := RowsDown(g, from, bottom, n, row);
      ShiftDownOnce(a, from, bottom, h);
      FillRow(a, from, blank, MovedDown(h, from, bottom));
      OneDown(g, from, bottom, n, row);
    }
  }

  method ShiftDownOnce(a: array2<Cell>, from: nat, bottom: nat, ghost g: Grid)
    requires Shows(a, g) && bottom < |g|
    modifies a
    ensures Shows(a, MovedDown(g, from, bottom))
  {
    hide MovedDown, Shows;
    NotMoved(g, from, bottom);
    if bottom <= from {
      return;
    }
    NotMoved(g, bottom, bottom);
    for row := bottom downto from
      invariant Shows(a, MovedDown(g, row, bottom))
    {
      CopyRow(a, row + 1, row, MovedDown(g, row + 1, bottom));
      NextDown(g, row, bottom);
    }
  }

  // CSI P: the row is read while it is overwritten, always ahead of the writing.
  method DeleteCells(a: array2<Cell>, y: nat, x: nat, n: nat, blank: Cell, ghost g: Grid)
    requires Shows(a, g) && y < a.Length0 && x <= a.Length1
    modifies a
    ensures Shows(a, g[y := Terminal.DeleteCells(g[y], x, n, blank)])
  {
    ghost var h := Terminal.DeleteCells(g[y], x, n, blank);
    assert forall c :: 0 <= c < x ==> h[c] == g[y][c];
    for col := x to a.Length1
      invariant forall r, c :: 0 <= r < a.Length0 && 0 <= c < a.Length1 ==>
        a[r, c] == if r == y && c < col then h[c] else g[r][c]
    {
      var src := col + n;
      assert src < a.Length1 ==> a[y, src] == g[y][src];
      a[y, col] := if src < a.Length1 then a[y, src] else blank;
      DeletedCell(g[y], x, n, blank, col);
    }
  }

  lemma DeletedCell(row: seq<Cell>, x: nat, n: nat, blank: Cell, c: nat)
    requires x <= c < |row|
    ensures Terminal.DeleteCells(row, x, n, blank)[c] == if c + n < |row| then row[c + n] else blank
  {
  }

  // CSI @: the other way round, from the end of the row.
  method InsertCells(a: array2<Cell>, y: nat, x: nat, n: nat, blank: Cell, ghost g: Grid)
    requires Shows(a, g) && y < a.Length0 && x <= a.Length1
    modifies a
    ensures Shows(a, g[y := Terminal.InsertCells(g[y], x, n, blank)])
  {
    ghost var h := Terminal.InsertCells(g[y], x, n, blank);
    assert forall c :: 0 <= c < x ==> h[c] == g[y][c];
    for col := a.Length1 downto x
      invariant forall r, c :: 0 <= r < a.Length0 && 0 <= c < a.Length1 ==>
        a[r, c] == if r == y && c >= col then h[c] else g[r][c]
    {
      var src := col - n;
      assert src >= x ==> a[y, src] == g[y][src];
      a[y, col] := if src >= x then a[y, src] else blank;
      InsertedCell(g[y], x, n, blank, col);
    }
  }

  lemma InsertedCell(row: seq<Cell>, x: nat, n: nat, blank: Cell, c: nat)
    requires x <= c < |row|
    ensures Terminal.InsertCells(row, x, n, blank)[c] == if c - n >= x then row[c - n] else blank
  {
  }

  // ssh_term_set_cell_blank over from..to, which ignores columns off the screen.
  method EraseCells(a: array2<Cell>, y: nat, from: nat, to: nat, blank: Cell, ghost g: Grid)
    requires Shows(a, g) && y < a.Length0 && from <= a.Length1 && from <= to
    modifies a
    ensures Shows(a, g[y := Terminal.EraseCells(g[y], from, Min(to, a.Length1), blank)])
  {
    var cols := a.Length1;
    for col := from to to
      invariant forall r, c :: 0 <= r < a.Length0 && 0 <= c < cols ==>
        a[r, c] == if r == y && from <= c < col then blank else g[r][c]
    {
      if col < cols {
        a[y, col] := blank;
      }
    }
    ghost var h := Terminal.EraseCells(g[y], from, Min(to, cols), blank);
    assert forall c :: 0 <= c < cols ==> h[c] == if from <= c < to then blank else g[y][c];
  }

  method FillRows(a: array2<Cell>, from: nat, to: nat, blank: Cell, ghost g: Grid)
    requires Shows(a, g) && from <= to <= a.Length0
    modifies a
    ensures Shows(a, g[..from] + Repeat(to - from, Repeat(a.Length1, blank)) + g[to..])
  {
    ghost var row := Repeat(a.Length1, blank);
    assert g[..from] + Repeat(0, row) + g[from..] == g;
    for r := from to to
      invariant Shows(a, g[..from] + Repeat(r - from, row) + g[r..])
    {
      ghost var h := g[..from] + Repeat(r - from, row) + g[r..];
      FillRow(a, r, blank, h);
      assert h[r := row] == g[..from] + Repeat(r + 1 - from, row) + g[r + 1..];
    }
  }
}
