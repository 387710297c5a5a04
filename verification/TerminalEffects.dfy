// What bytes on the wire do to an idle terminal: each control byte and each control
// sequence, by position and cell by cell.

module TerminalEffects {
  import opened CStrings
  import opened Terminal
  import opened TerminalProofs
  import J = Json

  function Max(a: int, b: int): int { if a > b then a else b }

  const IDLE := Esc(false, false, false, false, "")

  // What a cell is blanked to.
  function Space(t: Term): Cell { Cell(' ', 16 * t.pen.bg + t.pen.fg) }

  function SpaceRow(t: Term): seq<Cell> { seq(t.cols, _ => Space(t)) }

  lemma SpaceIs(t: Term)
    requires Inv(t)
    ensures Blank(t) == Space(t) && Attr(t.pen) == 16 * t.pen.bg + t.pen.fg
    ensures BlankRow(t) == SpaceRow(t)
  {
  }

  predicate OnScreen(t: Term, r: int, c: int) { 0 <= r < t.rows && 0 <= c < t.cols }

  function CellAt(t: Term, r: int, c: int): Cell
    requires Sized(Active(t), t.rows, t.cols) && OnScreen(t, r, c)
  {
    Active(t)[r][c]
  }

  // Nothing but the cells shown, the cursor and the parser differs.
  predicate Redrawn(t: Term, u: Term, x: int, y: int)
  {
    u == WithActive(t, Active(u)).(esc := IDLE, x := x, y := y) && Sized(Active(u), t.rows, t.cols)
  }

  // Rows from..bottom are n rows further up, the vacated ones blank.
  predicate ShiftedUp(t: Term, h: Grid, from: int, n: nat)
    requires |Active(t)| == |h| == t.rows && t.bottom < t.rows
  {
    forall r :: 0 <= r < t.rows ==>
      (h[r] == if r < from || r > t.bottom then Active(t)[r]
                       else if r + n <= t.bottom then Active(t)[r + n] else SpaceRow(t))
  }

  predicate ShiftedDown(t: Term, h: Grid, from: int, n: nat)
    requires |Active(t)| == |h| == t.rows && 0 <= from
  {
    forall r :: 0 <= r < t.rows ==>
      (h[r] == if r < from || r > t.bottom then Active(t)[r]
                       else if r - n >= from then Active(t)[r - n] else SpaceRow(t))
  }

  predicate BlankedRow(t: Term, h: Grid, row: int)
    requires |Active(t)| == |h| == t.rows
  {
    forall r :: 0 <= r < t.rows ==> h[r] == (if r == row then SpaceRow(t) else Active(t)[r])
  }

  lemma UpIs(t: Term, n: nat, from: nat)
    requires Inv(t)
    ensures var u := ScrollUp(t, n, from);
      && u == WithActive(t, Active(u))
      && (from <= t.bottom ==> ShiftedUp(t, Active(u), from, n))
      && (from > t.bottom && n > 0 ==> BlankedRow(t, Active(u), t.bottom))
      && (n == 0 ==> u == t)
  {
    SpaceIs(t);
    hide Space, Blank, Attr, SpaceRow, BlankRow, Sized;
  }

  lemma DownIs(t: Term, n: nat, from: nat)
    requires Inv(t) && from < t.rows
    ensures var u := ScrollDown(t, n, from);
      && u == WithActive(t, Active(u))
      && (from <= t.bottom ==> ShiftedDown(t, Active(u), from, n))
      && (from > t.bottom && n > 0 ==> BlankedRow(t, Active(u), from))
      && (n == 0 ==> u == t)
  {
    SpaceIs(t);
    hide Space, Blank, Attr, SpaceRow, BlankRow, Sized;
  }

  // The same cells with the parser back at rest.
  lemma AtRest(t: Term, d: Term)
    requires Inv(t) && Inv(d) && d == WithActive(t, Active(d)).(x := d.x, y := d.y)
    ensures Redrawn(t, d.(esc := IDLE), d.x, d.y) && Active(d.(esc := IDLE)) == Active(d)
  {
    hide Sized;
  }

  // ---- one parameter ----

  // s is the text of the parameter n; without a text it is 1.
  predicate Means(s: string, n: nat)
  {
    if s == "" then n == 1 else Digital(s) && Value(s, 0) == n
  }

  predicate OneArg(t: Term, s: string, n: nat)
  {
    Inv(t) && Idle(t) && Means(s, n) && |s| <= CSI_MAX
  }

  lemma {:induction false} ValuePush(s: string, c: char, acc: nat)
    requires Digital(s) && IsDigit(c)
    ensures Digital(s + [c]) && Value(s + [c], acc) == Value(s, acc) * 10 + (c as nat - '0' as nat)
  {
    if s == "" {
      assert s + [c] == [c];
      assert [c][1..] == "";
    } else {
      assert (s + [c])[1..] == s[1..] + [c];
      ValuePush(s[1..], c, acc * 10 + (s[0] as nat - '0' as nat));
    }
  }

  // Every number is meant by its decimal digits.
  lemma {:induction false} DecimalMeans(n: nat)
    ensures Digital(J.Digits(n)) && Value(J.Digits(n), 0) == n && Means(J.Digits(n), n)
  {
    var d := J.HexDigit(n % 10);
    assert IsDigit(d) && d as nat - '0' as nat == n % 10;
    if n < 10 {
      assert J.Digits(n) == "" + [d];
      ValuePush("", d, 0);
    } else {
      DecimalMeans(n / 10);
      ValuePush(J.Digits(n / 10), d, 0);
    }
  }

  // The terminal after ESC [ s and the final byte.
  function Sent(t: Term, s: string, final: char): (u: Term)
    requires Inv(t)
    ensures Inv(u)
  {
    Run(t, Sequence(s) + [final])
  }

  lemma OneParameter(s: string, n: nat)
    requires Means(s, n)
    ensures ParamBytes(s) && Params(Upto0(s), []) == if s == "" then [] else [n]
  {
    DigitsOnly(s);
    if s != "" {
      assert s + "" == s;
      hide Params;
      OneParam(s, "", []);
      NoMoreParams([] + [n]);
    }
  }

  lemma NoMoreParams(p: seq<nat>)
    requires |p| <= MAX_PARAMS
    ensures Params("", p) == p
  {
  }

  // The final byte acts on the terminal as it was, with n for its parameter.
  lemma SentIs(t: Term, s: string, n: nat, final: char)
    requires OneArg(t, s, n) && '@' <= final <= '~'
    ensures var v := t.(esc := Esc(false, false, false, false, s)); var p := if s == "" then [] else [n];
      Sent(t, s, final) == Csi(v, final, p).(esc := IDLE)
  {
    OneParameter(s, n);
    FinalByte(t, s, final);
    var v := t.(esc := Esc(false, false, false, false, s));
    CsiLeavesParser(v, final, if s == "" then [] else [n]);
    hide Csi, Params, Upto0, Run, Sequence, Sized;
  }

  lemma CsiLeavesParser(t: Term, final: char, p: seq<nat>)
    requires Inv(t)
    ensures Csi(t, final, p).esc == t.esc
  {
    hide RowsUp, RowsDown, EraseLine, ClearRows, Cleared, DeleteCells, InsertCells, SgrAll, Upto0;
  }

  lemma Moved(t: Term, s: string, n: nat, final: char)
    requires OneArg(t, s, n) && Moves(final)
    ensures Sent(t, s, final) == MoveCursor(t, final, n, 1).(esc := IDLE)
  {
    SentIs(t, s, n, final);
    var v := t.(esc := Esc(false, false, false, false, s));
    hide Sent, Sized, Upto0;
    assert MoveCursor(v, final, n, 1).(esc := IDLE) == MoveCursor(t, final, n, 1).(esc := IDLE);
  }

  // ---- moving the cursor ----

  // Up and down by n within the region, from wherever the cursor was.
  lemma UpDown(t: Term, s: string, n: nat)
    requires OneArg(t, s, n)
    ensures Sent(t, s, 'A') == t.(esc := IDLE, y := Max(t.y - n, t.top))
    ensures Sent(t, s, 'B') == t.(esc := IDLE, y := Min(t.y + n, t.bottom))
    ensures Sent(t, s, 'E') == t.(esc := IDLE, x := 0, y := Min(t.y + n, t.bottom))
    ensures Sent(t, s, 'F') == t.(esc := IDLE, x := 0, y := Max(t.y - n, t.top))
  {
    hide Sent, Sized, Means;
    Moved(t, s, n, 'A');
    Moved(t, s, n, 'B');
    Moved(t, s, n, 'E');
    Moved(t, s, n, 'F');
  }

  lemma LeftRight(t: Term, s: string, n: nat)
    requires OneArg(t, s, n)
    ensures Sent(t, s, 'C') == t.(esc := IDLE, x := Min(t.x + n, t.cols - 1))
    ensures Sent(t, s, 'D') == t.(esc := IDLE, x := Max(t.x - n, 0))
  {
    hide Sent, Sized, Means;
    Moved(t, s, n, 'C');
    Moved(t, s, n, 'D');
  }

  // To column n or row n, counted from 1; a row alone goes to its first column.
  lemma ToPosition(t: Term, s: string, n: nat)
    requires OneArg(t, s, n)
    ensures Sent(t, s, 'G') == t.(esc := IDLE, x := Min(Max(n - 1, 0), t.cols - 1))
    ensures Sent(t, s, 'd') == t.(esc := IDLE, y := Min(Max(n - 1, 0), t.rows - 1))
    ensures Sent(t, s, 'H') == t.(esc := IDLE, x := 0, y := Min(Max(n - 1, 0), t.rows - 1))
    ensures Sent(t, s, 'f') == t.(esc := IDLE, x := 0, y := Min(Max(n - 1, 0), t.rows - 1))
  {
    hide Sent, Sized, Means;
    Moved(t, s, n, 'G');
    Moved(t, s, n, 'd');
    Moved(t, s, n, 'H');
    Moved(t, s, n, 'f');
  }

  // The region from row n, counted from 1, to the foot of the screen, unless that is
  // less than two rows; the cursor goes to the corner.
  lemma RegionFrom(t: Term, s: string, n: nat)
    requires OneArg(t, s, n)
    ensures Sent(t, s, 'r') == t.(esc := IDLE, x := 0, y := 0, bottom := t.rows - 1,
                                  top := if n < t.rows then Max(n - 1, 0) else 0)
  {
    assert s == "" ==> n == 1;
    hide Sent, Sized, Means;
    SentIs(t, s, n, 'r');
  }

  lemma OtherFinals(t: Term, s: string, n: nat, final: char)
    requires OneArg(t, s, n) && '@' <= final <= '~' && final !in "ABCDEFGHJKLMPSTdfmrsu@"
    ensures Sent(t, s, final) == t.(esc := IDLE)
  {
    hide Sent, Sized, Means;
    SentIs(t, s, n, final);
    assert !Moves(final) && !Edits(final) && final != 'm' && final != 'r';
  }

  // ---- saving and restoring it ----

  lemma SaveRestore(t: Term)
    requires Inv(t) && Idle(t)
    ensures Sent(t, "", 's') == t.(esc := IDLE, savedX := t.x, savedY := t.y)
    ensures Sent(t, "", 'u') == t.(esc := IDLE, x := Min(t.savedX, t.cols - 1), y := t.savedY)
  {
    hide Sent, Sized;
    Moved(t, "", 1, 's');
    Moved(t, "", 1, 'u');
  }

  lemma TwoBytes(t: Term, b: char)
    requires Inv(t) && Idle(t)
    ensures Run(t, "\U{1B}" + [b]) == Step(t.(esc := t.esc.(inEsc := true)), b)
  {
    var u := t.(esc := t.esc.(inEsc := true));
    OneByte(t, '\U{1B}');
    OneByte(u, b);
    RunConcat(t, "\U{1B}", [b]);
    assert Step(t, '\U{1B}') == u;
    hide Run, Sized;
  }

  lemma EscSaveRestore(t: Term)
    requires Inv(t) && Idle(t)
    ensures Run(t, "\U{1B}7") == t.(savedX := t.x, savedY := t.y)
    ensures Run(t, "\U{1B}8") == t.(x := t.savedX, y := t.savedY)
  {
    TwoBytes(t, '7');
    TwoBytes(t, '8');
    assert "\U{1B}" + ['7'] == "\U{1B}7" && "\U{1B}" + ['8'] == "\U{1B}8";
    hide Run, Sized;
  }

  predicate StaysOnScreen(t: Term, bytes: string)
    requires Inv(t)
    decreases |bytes|
  {
    bytes != "" ==> Step(t, bytes[0]).onAlt == t.onAlt && StaysOnScreen(Step(t, bytes[0]), bytes[1..])
  }

  lemma {:induction false} SavedStays(t: Term, bytes: string)
    requires Inv(t) && StaysOnScreen(t, bytes) && NeverSaves(t, bytes)
    ensures SameSaved(t, Run(t, bytes)) && Run(t, bytes).cols == t.cols
    decreases |bytes|
  {
    hide Step, Inv, Saves;
    if bytes != "" {
      StepKeeps(t, bytes[0]);
      SavedStays(Step(t, bytes[0]), bytes[1..]);
    }
  }

  // Saved, anything in between that does not save or change screens, and restored:
  // the cursor is where it was, off the right edge for CSI u.
  lemma SavedComesBack(t: Term, bytes: string)
    requires Inv(t) && Idle(t)
    requires var v := t.(savedX := t.x, savedY := t.y);
      StaysOnScreen(v, bytes) && NeverSaves(v, bytes) && Idle(Run(v, bytes))
    ensures var v := Run(t, "\U{1B}7");
      v == t.(savedX := t.x, savedY := t.y)
      && var u := Run(Run(v, bytes), "\U{1B}8"); u.x == t.x && u.y == t.y
    ensures var v := Run(t, "\U{1B}7"); var u := Sent(Run(v, bytes), "", 'u');
      u.x == Min(t.x, t.cols - 1) && u.y == t.y
  {
    var v := t.(savedX := t.x, savedY := t.y);
    hide Sized, Step, Run, Sent;
    EscSaveRestore(t);
    SavedStays(v, bytes);
    EscSaveRestore(Run(v, bytes));
    SaveRestore(Run(v, bytes));
  }

  // ---- erasing ----

  lemma Edited(t: Term, s: string, n: nat, final: char)
    requires OneArg(t, s, n) && Edits(final)
    ensures Sent(t, s, final) == Edit(t, final, n).(esc := IDLE)
  {
    SentIs(t, s, n, final);
    assert !Moves(final);
    EditAnyParser(t, Esc(false, false, false, false, s), final, n);
    hide Sent, Sized, Upto0, Edit, MoveCursor;
  }

  lemma EditAnyParser(t: Term, e: Esc, final: char, n: nat)
    requires Inv(t) && |e.csi| <= CSI_MAX
    ensures Edit(t.(esc := e), final, n).(esc := IDLE) == Edit(t, final, n).(esc := IDLE)
  {
    if final == 'J' {
      DisplayAnyParser(t, e, n);
      hide EraseScreen, Sized;
    } else if final in "KP@" {
      LineAnyParser(t, e, final, n);
      hide Edit, Sized;
    } else {
      ShiftAnyParser(t, e, n);
      hide ScrollUp, ScrollDown, Sized;
    }
  }

  lemma DisplayAnyParser(t: Term, e: Esc, n: nat)
    requires Inv(t) && |e.csi| <= CSI_MAX
    ensures EraseScreen(t.(esc := e), n) == EraseScreen(t, n).(esc := e)
  {
    EraseAnyParser(t, e, if n == 1 then 1 else 0);
    var v := t.(esc := e);
    assert BlankRow(v) == BlankRow(t) && Cleared(v) == Cleared(t);
    hide Cleared, BlankRow, EraseLine, Attr;
  }

  lemma LineAnyParser(t: Term, e: Esc, final: char, n: nat)
    requires Inv(t) && |e.csi| <= CSI_MAX && final in "KP@"
    ensures Edit(t.(esc := e), final, n) == Edit(t, final, n).(esc := e)
  {
    EraseAnyParser(t, e, n);
    assert Blank(t.(esc := e)) == Blank(t);
    hide EraseLine, Blank, DeleteCells, InsertCells, Sized;
  }

  lemma EraseAnyParser(t: Term, e: Esc, n: nat)
    requires Inv(t) && |e.csi| <= CSI_MAX
    ensures EraseLine(t.(esc := e), n) == EraseLine(t, n)
  {
    hide Attr, Sized;
    assert BlankRow(t.(esc := e)) == BlankRow(t);
  }

  lemma ShiftAnyParser(t: Term, e: Esc, n: nat)
    requires Inv(t) && |e.csi| <= CSI_MAX
    ensures forall from: nat :: ScrollUp(t.(esc := e), n, from) == ScrollUp(t, n, from).(esc := e)
    ensures forall from: nat :: from < t.rows ==> ScrollDown(t.(esc := e), n, from) == ScrollDown(t, n, from).(esc := e)
  {
    assert BlankRow(t.(esc := e)) == BlankRow(t);
    hide BlankRow, RowsUp, RowsDown, Sized;
  }

  // Which columns erasing in a line blanks: 2 all, 1 up to the cursor, anything else
  // from the cursor on. A missing parameter is 1 here too.
  predicate ErasedInLine(t: Term, n: nat, c: int)
  {
    n == 2 || (if n == 1 then c <= t.x else c >= t.x)
  }

  lemma EraseLineAt(t: Term, n: nat, c: nat)
    requires Inv(t) && c < t.cols
    ensures EraseLine(t, n)[c] == if ErasedInLine(t, n, c) then Blank(t) else Active(t)[t.y][c]
  {
    hide Blank;
  }

  lemma EraseInLine(t: Term, s: string, n: nat, r: nat, c: nat)
    requires OneArg(t, s, n) && OnScreen(t, r, c)
    ensures var u := Sent(t, s, 'K');
      && Redrawn(t, u, t.x, t.y)
      && CellAt(u, r, c) == if r == t.y && ErasedInLine(t, n, c) then Space(t) else CellAt(t, r, c)
  {
    Edited(t, s, n, 'K');
    SpaceIs(t);
    EraseLineAt(t, n, c);
    hide Sent, EraseLine, Attr, Means, ErasedInLine;
  }

  // Which cells erasing in the display blanks: 2 and 3 all, 1 up to the cursor,
  // anything else from the cursor on.
  predicate Erased(t: Term, n: nat, r: int, c: int)
  {
    n == 2 || n == 3
    || (if n == 1 then r < t.y || (r == t.y && c <= t.x) else r > t.y || (r == t.y && c >= t.x))
  }

  lemma EraseInDisplay(t: Term, s: string, n: nat, r: nat, c: nat)
    requires OneArg(t, s, n) && OnScreen(t, r, c)
    ensures var u, home := Sent(t, s, 'J'), n == 2 || n == 3;
      && Redrawn(t, u, if home then 0 else t.x, if home then 0 else t.y)
      && CellAt(u, r, c) == if Erased(t, n, r, c) then Space(t) else CellAt(t, r, c)
  {
    Edited(t, s, n, 'J');
    SpaceIs(t);
    EraseLineAt(t, if n == 1 then 1 else 0, c);
    hide Sent, EraseLine, Attr, Means;
  }

  // ---- lines and cells moved ----

  // n blank lines let in at the cursor, the lines below it down within the region.
  // Below the region only the cursor's own line is blanked.
  lemma InsertLines(t: Term, s: string, n: nat)
    requires OneArg(t, s, n)
    ensures var u := Sent(t, s, 'L');
      && Redrawn(t, u, t.x, t.y)
      && (if t.y <= t.bottom then ShiftedDown(t, Active(u), t.y, n)
          else if n > 0 then BlankedRow(t, Active(u), t.y) else u == t.(esc := IDLE))
  {
    var d := ScrollDown(t, n, t.y);
    Edited(t, s, n, 'L');
    DownIs(t, n, t.y);
    AtRest(t, d);
    assert Edit(t, 'L', n) == d;
    hide Sent, ScrollDown, OneArg, Redrawn, ShiftedDown, BlankedRow, Edit, Sized;
  }

  // n lines taken out at the cursor. Below the region the region's last line is
  // blanked instead.
  lemma DeleteLines(t: Term, s: string, n: nat)
    requires OneArg(t, s, n)
    ensures var u := Sent(t, s, 'M');
      && Redrawn(t, u, t.x, t.y)
      && (if t.y <= t.bottom then ShiftedUp(t, Active(u), t.y, n)
          else if n > 0 then BlankedRow(t, Active(u), t.bottom) else u == t.(esc := IDLE))
  {
    var d := ScrollUp(t, n, t.y);
    Edited(t, s, n, 'M');
    UpIs(t, n, t.y);
    AtRest(t, d);
    assert Edit(t, 'M', n) == d;
    hide Sent, ScrollUp, OneArg, Redrawn, ShiftedUp, BlankedRow, Edit, Sized;
  }

  lemma ScrollRegionUp(t: Term, s: string, n: nat)
    requires OneArg(t, s, n)
    ensures var u := Sent(t, s, 'S'); Redrawn(t, u, t.x, t.y) && ShiftedUp(t, Active(u), t.top, n)
  {
    var d := ScrollUp(t, n, t.top);
    Edited(t, s, n, 'S');
    UpIs(t, n, t.top);
    AtRest(t, d);
    assert Edit(t, 'S', n) == d;
    hide Sent, ScrollUp, OneArg, Redrawn, ShiftedUp, BlankedRow, Edit, Sized;
  }

  lemma ScrollRegionDown(t: Term, s: string, n: nat)
    requires OneArg(t, s, n)
    ensures var u := Sent(t, s, 'T'); Redrawn(t, u, t.x, t.y) && ShiftedDown(t, Active(u), t.top, n)
  {
    var d := ScrollDown(t, n, t.top);
    Edited(t, s, n, 'T');
    DownIs(t, n, t.top);
    AtRest(t, d);
    assert Edit(t, 'T', n) == d;
    hide Sent, ScrollDown, OneArg, Redrawn, ShiftedDown, BlankedRow, Edit, Sized;
  }

  lemma DeletedAt(row: seq<Cell>, x: nat, n: nat, b: Cell, c: nat)
    requires x <= |row| && c < |row|
    ensures DeleteCells(row, x, n, b)[c] == if c < x then row[c] else if c + n < |row| then row[c + n] else b
  {
  }

  lemma InsertedAt(row: seq<Cell>, x: nat, n: nat, b: Cell, c: nat)
    requires x <= |row| && c < |row|
    ensures InsertCells(row, x, n, b)[c] == if c < x then row[c] else if c - n >= x then row[c - n] else b
  {
  }

  // A new row where the cursor stands.
  lemma RowSet(t: Term, row: seq<Cell>, r: nat, c: nat)
    requires Inv(t) && |row| == t.cols && OnScreen(t, r, c)
    ensures var u := SetRow(t, t.y, row).(esc := IDLE);
      Redrawn(t, u, t.x, t.y) && CellAt(u, r, c) == if r == t.y then row[c] else CellAt(t, r, c)
  {
  }

  // n cells taken out of the line at the cursor, blanks coming in at its end.
  lemma DeleteChars(t: Term, s: string, n: nat, r: nat, c: nat)
    requires OneArg(t, s, n) && OnScreen(t, r, c)
    ensures var u := Sent(t, s, 'P');
      && Redrawn(t, u, t.x, t.y)
      && CellAt(u, r, c) == if r != t.y || c < t.x then CellAt(t, r, c)
                            else if c + n < t.cols then CellAt(t, r, c + n) else Space(t)
  {
    Edited(t, s, n, 'P');
    SpaceIs(t);
    DeletedAt(Active(t)[t.y], t.x, n, Space(t), c);
    hide Sent, Attr, Means, DeleteCells, Space, Blank, Redrawn;
    RowSet(t, DeleteCells(Active(t)[t.y], t.x, n, Space(t)), r, c);
  }

  // n blanks let into the line at the cursor, its last cells going out.
  lemma InsertChars(t: Term, s: string, n: nat, r: nat, c: nat)
    requires OneArg(t, s, n) && OnScreen(t, r, c)
    ensures var u := Sent(t, s, '@');
      && Redrawn(t, u, t.x, t.y)
      && CellAt(u, r, c) == if r != t.y || c < t.x then CellAt(t, r, c)
                            else if c - n >= t.x then CellAt(t, r, c - n) else Space(t)
  {
    Edited(t, s, n, '@');
    SpaceIs(t);
    InsertedAt(Active(t)[t.y], t.x, n, Space(t), c);
    hide Sent, Attr, Means, InsertCells, Space, Blank, Redrawn;
    RowSet(t, InsertCells(Active(t)[t.y], t.x, n, Space(t)), r, c);
  }

  // ---- colours ----

  // One SGR parameter, as the pen the next cell is written with.
  lemma Colours(t: Term, s: string, n: nat)
    requires OneArg(t, s, n) && s != ""
    ensures var u, p := Sent(t, s, 'm'), t.pen;
      && u == t.(esc := IDLE, pen := u.pen)
      && u.pen.fg == (if n == 0 || n == 27 || n == 39 then 7
                      else if 30 <= n <= 37 then n - 30 + (if p.bold then 8 else 0)
                      else if 90 <= n <= 97 then n - 82
                      else if n == 7 then p.bg else if n == 22 then p.fg % 8 else p.fg)
      && u.pen.bg == (if n == 0 || n == 27 || n == 49 then 0
                      else if 40 <= n <= 47 then n - 40
                      else if 100 <= n <= 107 then n - 92
                      else if n == 7 then p.fg else p.bg)
      && (u.pen.bold <==> n == 1 || (p.bold && n != 0 && n != 22 && n != 27))
  {
    DigitsOnly(s);
    CsiPen(t.(esc := Esc(false, false, false, false, s)), [n]);
    OneSgr(t.pen, n);
    hide Sent, Sized, Means, SgrAll, Upto0, Csi;
    SentIs(t, s, n, 'm');
  }

  lemma OneSgr(p: Pen, n: nat)
    requires PenOk(p)
    ensures SgrAll(p, [n]) == Sgr(p, n)
  {
    hide Sgr;
    assert [n][1..] == [];
    assert forall q: Pen | PenOk(q) :: SgrAll(q, []) == q;
  }

  lemma NoColours(t: Term)
    requires Inv(t) && Idle(t)
    ensures Sent(t, "", 'm') == t.(esc := IDLE, pen := Pen(7, 0, false))
  {
    SentIs(t, "", 1, 'm');
    hide Sent, Sized;
  }

  // In ESC [ a ; b m the separator resets the pen, so only b counts.
  lemma TwoColours(t: Term, a: string, b: string)
    requires Inv(t) && Idle(t) && AllDigits(a) && AllDigits(b) && |a| + |b| < CSI_MAX
    ensures Run(t, Sequence(a + ";" + b) + "m").pen == Sgr(DEFAULT_PEN, Value(b, 0))
  {
    hide Params, Upto0, Sized, Value, Run, Sequence, Digital, Sgr;
    var u := TwoParamSequence(t, a, b, 'm');
    ThreeSgr(u, Value(a, 0), Value(b, 0));
    hide Finish;
  }

  lemma CsiPen(t: Term, p: seq<nat>)
    requires Inv(t) && Upto0(t.esc.csi) != ""
    ensures Csi(t, 'm', p) == t.(pen := SgrAll(t.pen, p))
  {
    hide SgrAll, Upto0, Sized;
  }

  lemma ThreeSgr(u: Term, p: nat, q: nat)
    requires Inv(u) && !u.esc.priv && Params(Upto0(u.esc.csi), []) == [p, 0, q]
    ensures Finish(u, 'm').pen == Sgr(DEFAULT_PEN, q)
  {
    NoMoreParams([]);
    CsiPen(u, [p, 0, q]);
    ThreePens(u.pen, p, q);
    hide Params, Sized, Sgr, SgrAll, Csi, Upto0;
  }

  lemma ThreePens(pen: Pen, p: nat, q: nat)
    requires PenOk(pen)
    ensures SgrAll(pen, [p, 0, q]) == Sgr(DEFAULT_PEN, q)
  {
    ResetSgr(Sgr(pen, p));
    OneSgr(DEFAULT_PEN, q);
    hide Sgr;
    assert [p, 0, q][1..] == [0, q] && [0, q][1..] == [q];
    assert SgrAll(Sgr(pen, p), [0, q]) == SgrAll(Sgr(Sgr(pen, p), 0), [q]);
  }

  lemma ResetSgr(p: Pen)
    requires PenOk(p)
    ensures Sgr(p, 0) == DEFAULT_PEN
  {
  }

  // What of a pen p is still seen after one more parameter q: q must not set it.
  predicate NothingToLose(p: Pen, q: nat)
  {
    && (q == 0 || q == 27 || q == 39 || 30 <= q <= 37 || 90 <= q <= 97 || (if q == 22 then p.fg % 8 == 7 else p.fg == 7))
    && (q == 0 || q == 27 || q == 49 || 40 <= q <= 47 || 100 <= q <= 107 || p.bg == 0)
    && (q == 0 || q == 27 || q == 22 || q == 1 || !p.bold)
  }

  // Both parameters are honoured exactly when b overrides all that a would leave.
  lemma TwoColoursHonoured(t: Term, a: string, b: string)
    requires Inv(t) && Idle(t) && AllDigits(a) && AllDigits(b) && |a| + |b| < CSI_MAX
    ensures var p := Sent(t, a, 'm');
      Run(t, Sequence(a + ";" + b) + "m").pen == Sent(p, b, 'm').pen <==> NothingToLose(p.pen, Value(b, 0))
  {
    TwoColours(t, a, b);
    hide Sized, Value, Run, Sequence, Digital, Sgr;
    Colours(t, a, Value(a, 0));
    var p := Sent(t, a, 'm');
    Colours(p, b, Value(b, 0));
    OneColour(p, b);
    LastColour(p.pen, Value(b, 0));
    hide Sent;
  }

  lemma OneColour(t: Term, s: string)
    requires Inv(t) && Idle(t) && AllDigits(s) && |s| <= CSI_MAX
    ensures Sent(t, s, 'm').pen == Sgr(t.pen, Value(s, 0))
  {
    DigitsOnly(s);
    var v := t.(esc := Esc(false, false, false, false, s));
    CsiPen(v, [Value(s, 0)]);
    OneSgr(t.pen, Value(s, 0));
    hide Sent, Sized, SgrAll, Upto0, Sgr, Csi, Value;
    SentIs(t, s, Value(s, 0), 'm');
  }

  lemma LastColour(p: Pen, q: nat)
    requires PenOk(p)
    ensures Sgr(DEFAULT_PEN, q) == Sgr(p, q) <==> NothingToLose(p, q)
  {
  }

  // ---- control bytes ----

  lemma OneByte(t: Term, b: char)
    requires Inv(t)
    ensures Run(t, [b]) == Step(t, b)
  {
    hide Step, Inv;
    assert [b][1..] == "";
  }

  // Return goes to the first column.
  lemma CarriageReturn(t: Term)
    requires Inv(t) && Idle(t)
    ensures Run(t, "\r") == t.(x := 0)
  {
    OneByte(t, '\r');
    hide Run, Sized;
  }

  lemma Backspace(t: Term, b: char)
    requires Inv(t) && Idle(t) && (b == '\U{8}' || b == '\U{7F}')
    ensures Run(t, [b]) == t.(x := Max(t.x - 1, 0))
  {
    OneByte(t, b);
    hide Run, Sized, LineFeed, TabTo, PutChar;
  }

  // Every other control byte, and every byte past ASCII, does nothing.
  lemma SilentByte(t: Term, b: char)
    requires Inv(t) && Idle(t) && (b < ' ' || b >= '\U{80}')
    requires b !in "\r\n\t" && b != '\U{1B}' && b != '\U{8}' && b != '\U{B}' && b != '\U{C}'
    ensures Run(t, [b]) == t
  {
    OneByte(t, b);
    assert b != '\r' && b != '\n' && b != '\t' by {
      assert '\r' in "\r\n\t" && '\n' in "\r\n\t" && '\t' in "\r\n\t";
    }
    hide Run, Sized, LineFeed, TabTo, PutChar;
  }

  // Down one line, and at the foot of the region, or below it, the region moves up.
  lemma LineFeedBytes(t: Term, b: char)
    requires Inv(t) && Idle(t) && (b == '\n' || b == '\U{B}' || b == '\U{C}')
    ensures t.y < t.bottom ==> Run(t, [b]) == t.(y := t.y + 1)
    ensures t.y >= t.bottom ==>
      var u := Run(t, [b]); u == WithActive(t, Active(u)).(y := t.bottom) && ShiftedUp(t, Active(u), t.top, 1)
  {
    OneByte(t, b);
    assert Step(t, b) == LineFeed(t) by { hide ScrollUp, Sized; }
    UpIs(t, 1, t.top);
    var d := ScrollUp(t, 1, t.top);
    assert Active(d.(y := t.bottom)) == Active(d);
    hide Run, ScrollUp, Step, ShiftedUp, Sized;
  }

  // Up one line, and at the head of the region, or above it, the region moves down.
  lemma ReverseLineFeed(t: Term)
    requires Inv(t) && Idle(t)
    ensures t.y > t.top ==> Run(t, "\U{1B}M") == t.(y := t.y - 1)
    ensures t.y <= t.top ==>
      var u := Run(t, "\U{1B}M"); u == WithActive(t, Active(u)) && ShiftedDown(t, Active(u), t.top, 1)
  {
    assert "\U{1B}" + ['M'] == "\U{1B}M";
    IndexByte(t);
    DownIs(t, 1, t.top);
    hide Run, ScrollDown, ShiftedDown, Step, Sized;
    TwoBytes(t, 'M');
  }

  lemma IndexByte(t: Term)
    requires Inv(t) && Idle(t)
    ensures Step(t.(esc := t.esc.(inEsc := true)), 'M') ==
      if t.y > t.top then t.(y := t.y - 1) else ScrollDown(t, 1, t.top)
  {
    var v := t.(esc := t.esc.(inEsc := true));
    assert v.(esc := t.esc) == t && v.(esc := v.esc.(inEsc := false)) == t;
    hide ScrollDown, Sized;
  }

  // Blanks from column x up to `next` in the cursor's line.
  ghost predicate Tabbed(t: Term, u: Term, next: int)
    requires Inv(t) && Inv(u) && u.rows == t.rows && u.cols == t.cols
  {
    && u == WithActive(t, Active(u)).(x := next)
    && forall r, c :: OnScreen(t, r, c) ==>
         CellAt(u, r, c) == (if r == t.y && t.x <= c < next then Space(t) else CellAt(t, r, c))
  }

  lemma {:induction false} TabIs(t: Term, next: nat)
    requires Inv(t) && t.x < next <= t.cols
    ensures TabTo(t, next).rows == t.rows && TabTo(t, next).cols == t.cols && Tabbed(t, TabTo(t, next), next)
    decreases next - t.x
  {
    SpaceIs(t);
    hide Attr;
    var u := PutChar(t, ' ');
    assert u == WriteCell(t, ' ');
    if t.x + 1 < next {
      TabIs(u, next);
    }
  }

  lemma {:induction false} TabStops(t: Term, next: int, last: int)
    requires Inv(t) && next >= t.cols == last
    ensures TabTo(t, next) == TabTo(t, last)
    decreases next - t.x
  {
    if t.x < t.cols {
      hide PutChar;
      TabStops(PutChar(t, ' '), next, last);
    }
  }

  lemma TabByte(t: Term)
    requires Inv(t) && Idle(t)
    ensures Step(t, '\t') == TabTo(t, (t.x / 8 + 1) * 8)
  {
    hide TabTo, Sized;
  }

  lemma TabLands(t: Term, next: nat)
    requires Inv(t) && next > t.x
    ensures var u := TabTo(t, next);
      && u.rows == t.rows && u.cols == t.cols
      && (if t.x == t.cols then u == t else Tabbed(t, u, Min(next, t.cols)))
  {
    hide PutChar, Tabbed, Sized;
    if t.x < t.cols {
      if next > t.cols {
        TabStops(t, next, t.cols);
      }
      TabIs(t, Min(next, t.cols));
    }
  }

  // To the next multiple of eight or past the last column, writing blanks on the
  // way; past the last column already, nothing.
  lemma Tab(t: Term)
    requires Inv(t) && Idle(t)
    ensures t.x == t.cols ==> Run(t, "\t") == t
    ensures var u := Run(t, "\t");
      && u.rows == t.rows && u.cols == t.cols
      && (t.x < t.cols ==> Tabbed(t, u, Min((t.x / 8 + 1) * 8, t.cols)))
  {
    var next := (t.x / 8 + 1) * 8;
    assert next > t.x;
    hide Run, Step, Tabbed, Sized, TabTo;
    OneByte(t, '\t');
    TabByte(t);
    TabLands(t, next);
  }

  // A character past the last column comes after a return and a line feed.
  lemma Wraps(t: Term, c: char)
    requires Inv(t) && Idle(t) && t.x == t.cols && ' ' <= c <= '~'
    ensures Run(t, [c]) == Run(t, "\r\n" + [c])
  {
    OneByte(t, c);
    OneByte(t, '\r');
    var u := t.(x := 0);
    OneByte(u, '\n');
    var v := LineFeed(u);
    OneByte(v, c);
    RunConcat(t, "\r", "\n");
    RunConcat(t, "\r\n", [c]);
    assert "\r" + "\n" == "\r\n";
    ReturnAndFeed(t);
    LineFeedParser(u);
    PutAfterWrap(t, v, c);
    CharByte(v, c);
    CharByte(t, c);
    hide Run, LineFeed, PutChar, Step, Sized;
  }

  lemma CharByte(t: Term, c: char)
    requires Inv(t) && Idle(t) && ' ' <= c <= '~'
    ensures Step(t, c) == PutChar(t, c)
  {
    hide PutChar, Sized;
  }

  lemma ReturnAndFeed(t: Term)
    requires Inv(t) && Idle(t)
    ensures Step(t, '\r') == t.(x := 0) && Step(t.(x := 0), '\n') == LineFeed(t.(x := 0))
  {
    hide LineFeed, Sized;
  }

  lemma LineFeedParser(t: Term)
    requires Inv(t)
    ensures LineFeed(t).esc == t.esc && LineFeed(t).x == t.x && LineFeed(t).cols == t.cols
  {
    hide RowsUp, Sized;
  }

  lemma PutAfterWrap(t: Term, v: Term, c: char)
    requires Inv(t) && t.x == t.cols && v == LineFeed(t.(x := 0)) && Inv(v) && v.x == 0 && v.cols == t.cols
    ensures PutChar(t, c) == PutChar(v, c)
  {
    hide LineFeed, WriteCell, Sized;
  }

  // ---- strings and screens ----

  lemma {:induction false} InOscStays(t: Term, w: string)
    requires Inv(t) && t.esc.inOsc
    requires forall i :: 0 <= i < |w| ==> w[i] != '\U{7}' && w[i] != '\U{9C}' && w[i] != '\U{1B}'
    ensures Run(t, w) == t
    decreases |w|
  {
    if w != "" {
      InOscStays(t, w[1..]);
    }
  }

  // An operating system command leaves no trace.
  lemma OscIsIgnored(t: Term, w: string)
    requires Inv(t) && Idle(t)
    requires forall i :: 0 <= i < |w| ==> w[i] != '\U{7}' && w[i] != '\U{9C}' && w[i] != '\U{1B}'
    ensures Run(t, "\U{1B}]" + w + "\U{7}") == t
  {
    TwoBytes(t, ']');
    var u := t.(esc := t.esc.(inOsc := true));
    assert "\U{1B}" + [']'] == "\U{1B}]";
    InOscStays(u, w);
    OneByte(u, '\U{7}');
    RunConcat(t, "\U{1B}]", w);
    RunConcat(t, "\U{1B}]" + w, "\U{7}");
    hide Run, Sized;
  }

  lemma PrivateRead(t: Term, s: string, final: char)
    requires Inv(t) && Idle(t) && ParamBytes(s) && |s| <= CSI_MAX && '@' <= final <= '~'
    ensures Run(t, Sequence("?" + s) + [final]) == Finish(t.(esc := Esc(false, false, false, true, s)), final)
  {
    var w := t.(esc := Esc(false, true, false, true, s));
    PrivateBegins(t, s);
    LastByte(w, final);
    hide Run, Sized, Finish, Step, ParamBytes;
    RunConcat(t, Sequence("?" + s), [final]);
  }

  lemma PrivateBegins(t: Term, s: string)
    requires Inv(t) && Idle(t) && ParamBytes(s) && |s| <= CSI_MAX
    ensures Run(t, Sequence("?" + s)) == t.(esc := Esc(false, true, false, true, s))
  {
    assert "\U{1B}[?" + s == Sequence("?" + s) && "" + s == s;
    hide Run, Sized, ParamBytes, Sequence;
    PrivateOpen(t);
    var v := t.(esc := Esc(false, true, false, true, ""));
    PrivateCollects(v, "", s);
    RunConcat(t, "\U{1B}[?", s);
  }

  lemma LastByte(w: Term, final: char)
    requires Inv(w) && w.esc.inCsi && !w.esc.inOsc && '@' <= final <= '~'
    ensures Run(w, [final]) == Finish(w.(esc := w.esc.(inCsi := false)), final)
  {
    OneByte(w, final);
    hide Run, Sized, Finish;
  }

  lemma PrivateOpen(t: Term)
    requires Inv(t) && Idle(t)
    ensures Run(t, "\U{1B}[?") == t.(esc := Esc(false, true, false, true, ""))
  {
    TwoBytes(t, '[');
    var u := t.(esc := Esc(false, true, false, false, ""));
    OneByte(u, '?');
    RunConcat(t, "\U{1B}[", "?");
    assert "\U{1B}" + ['['] == "\U{1B}[" && "\U{1B}[" + "?" == "\U{1B}[?";
    hide Run, Sized;
  }

  lemma {:induction false} PrivateCollects(t: Term, s: string, rest: string)
    requires Inv(t) && t.esc.inCsi && !t.esc.inOsc && t.esc.csi == s
    requires ParamBytes(rest) && |s| + |rest| <= CSI_MAX
    ensures Run(t, rest) == t.(esc := t.esc.(csi := s + rest))
    decreases |rest|
  {
    if rest == "" {
      assert s + rest == s;
    } else {
      assert s + [rest[0]] + rest[1..] == s + rest;
      PrivateCollects(Step(t, rest[0]), s + [rest[0]], rest[1..]);
    }
  }

  // ESC [ ? 1049 h, or 1047, or 47: on the main screen it saves the cursor, shows
  // the alternate screen, blank, and goes to its corner. The same with l goes back.
  lemma SwitchScreens(t: Term, s: string, mode: nat)
    requires Inv(t) && Idle(t) && s != "" && Means(s, mode) && |s| <= CSI_MAX
    requires mode == 1049 || mode == 1047 || mode == 47
    ensures var u := Run(t, Sequence("?" + s) + "h");
      if t.onAlt then u == t.(esc := IDLE)
      else u == t.(esc := IDLE, onAlt := true, savedX := t.x, savedY := t.y, x := 0, y := 0, alt := u.alt)
           && Sized(u.alt, t.rows, t.cols)
           && forall r, c :: 0 <= r < t.rows && 0 <= c < t.cols ==> u.alt[r][c] == Space(t)
    ensures Run(t, Sequence("?" + s) + "l") ==
      if t.onAlt then t.(esc := IDLE, onAlt := false, x := t.savedX, y := t.savedY) else t.(esc := IDLE)
  {
    OneParameter(s, mode);
    PrivateRead(t, s, 'h');
    PrivateRead(t, s, 'l');
    SpaceIs(t);
    hide Run, Sequence, Params, Upto0, Means, Attr;
  }
}
