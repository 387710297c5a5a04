// ssh_term_t: the emulator's fields and arrays, updated byte by byte. Every
// method is proved against the function of Terminal.dfy that it computes.

module SshTerm {
  import opened CStrings
  import opened Terminal
  import Cells = TerminalCells

  lemma InitIs(rows: nat, cols: nat)
    requires rows >= 2 && cols >= 1
    ensures var t := Init(rows, cols);
      && t.rows == rows && t.cols == cols && !t.onAlt
      && t.x == t.y == t.savedX == t.savedY == 0 && t.top == 0 && t.bottom == rows - 1
      && t.pen == DEFAULT_PEN && t.esc == Esc(false, false, false, false, "")
      && forall r, c :: 0 <= r < rows && 0 <= c < cols ==>
           t.main[r][c] == Cell(' ', 7) && t.alt[r][c] == Cell(' ', 7)
  {
  }

  class Emulator {
    const mainCells: array2<Cell>
    const altCells: array2<Cell>
    const csiBuf: array<char>
    const rows: nat
    const cols: nat
    var altScreen: bool
    var cursorX: int
    var cursorY: int
    var savedX: int
    var savedY: int
    var scrollTop: int
    var scrollBottom: int
    var pen: Pen
    var inEsc: bool
    var inCsi: bool
    var inOsc: bool
    var csiPrivate: bool
    var csiLen: nat

    ghost predicate Arrays()
    {
      && mainCells.Length0 == rows && mainCells.Length1 == cols
      && altCells.Length0 == rows && altCells.Length1 == cols
      && mainCells != altCells && csiBuf.Length == CSI_MAX + 1
    }

    ghost predicate Screens(main: Grid, alt: Grid)
      reads mainCells, altCells
    {
      Cells.Shows(mainCells, main) && Cells.Shows(altCells, alt)
    }

    ghost predicate Fields(t: Term)
      reads this
    {
      && rows == t.rows && cols == t.cols && altScreen == t.onAlt
      && cursorX == t.x && cursorY == t.y && savedX == t.savedX && savedY == t.savedY
      && scrollTop == t.top && scrollBottom == t.bottom && pen == t.pen
    }

    ghost predicate Parsing(e: Esc)
      reads this, csiBuf
    {
      && inEsc == e.inEsc && inCsi == e.inCsi && inOsc == e.inOsc && csiPrivate == e.priv
      && csiLen <= csiBuf.Length && csiBuf[..csiLen] == e.csi
    }

    // The object is in the state t.
    ghost predicate Matches(t: Term)
      reads this, mainCells, altCells, csiBuf
    {
      Inv(t) && Arrays() && Screens(t.main, t.alt) && Fields(t) && Parsing(t.esc)
    }

    constructor (rows: nat, cols: nat)
      requires rows >= 2 && cols >= 1
      ensures Matches(Init(rows, cols))
      ensures fresh(mainCells) && fresh(altCells) && fresh(csiBuf)
    {
      hide Init;
      InitIs(rows, cols);
      this.rows, this.cols := rows, cols;
      mainCells := new Cell[rows, cols]((_, _) => Cell(' ', 7));
      altCells := new Cell[rows, cols]((_, _) => Cell(' ', 7));
      csiBuf := new char[CSI_MAX + 1](_ => '\0');
      altScreen, cursorX, cursorY, savedX, savedY := false, 0, 0, 0, 0;
      scrollTop, scrollBottom, pen := 0, rows - 1, DEFAULT_PEN;
      inEsc, inCsi, inOsc, csiPrivate, csiLen := false, false, false, false, 0;
    }

    method ActiveCells(ghost t: Term) returns (cells: array2<Cell>)
      requires Matches(t)
      ensures Cells.Shows(cells, Active(t)) && cells == if t.onAlt then altCells else mainCells
      ensures cells.Length0 == rows && cells.Length1 == cols
    {
      cells := if altScreen then altCells else mainCells;
    }

    method BlankCell(ghost t: Term) returns (c: Cell)
      requires Matches(t)
      ensures c == Blank(t)
    {
      c := Cell(' ', pen.bg % 16 * 16 + pen.fg % 16);
    }

    // A negative from_row stands for the top of the region.
    method ScrollUp(ghost t: Term, count: nat, fromRow: int)
      requires Matches(t)
      modifies mainCells, altCells
      ensures Matches(Terminal.ScrollUp(t, count, if fromRow < 0 then t.top else fromRow))
    {
      var cells := ActiveCells(t);
      var blank := BlankCell(t);
      var from := if fromRow < 0 then scrollTop else fromRow;
      Cells.ScrollUp(cells, count, from, scrollBottom, blank, Active(t));
    }

    method ScrollDown(ghost t: Term, count: nat, fromRow: int)
      requires Matches(t) && fromRow < rows
      modifies mainCells, altCells
      ensures Matches(Terminal.ScrollDown(t, count, if fromRow < 0 then t.top else fromRow))
    {
      var cells := ActiveCells(t);
      var blank := BlankCell(t);
      var from := if fromRow < 0 then scrollTop else fromRow;
      Cells.ScrollDown(cells, count, from, scrollBottom, blank, Active(t));
    }

    method LineFeed(ghost t: Term)
      requires Matches(t)
      modifies `cursorY, mainCells, altCells
      ensures Matches(Terminal.LineFeed(t))
    {
      if cursorY + 1 > scrollBottom {
        ScrollUp(t, 1, -1);
        cursorY := scrollBottom;
      } else {
        cursorY := cursorY + 1;
      }
    }

    method PutChar(ghost t: Term, ch: char)
      requires Matches(t)
      modifies `cursorX, `cursorY, mainCells, altCells
      ensures Matches(Terminal.PutChar(t, ch))
    {
      Wrap(t);
      WriteCell(Wrapped(t), ch);
    }

    method Wrap(ghost t: Term)
      requires Matches(t)
      modifies `cursorX, `cursorY, mainCells, altCells
      ensures Matches(Wrapped(t))
    {
      if cursorX >= cols {
        cursorX := 0;
        LineFeed(t.(x := 0));
      }
      cursorY := Min(cursorY, rows - 1);
    }

    method WriteCell(ghost t: Term, ch: char)
      requires Matches(t) && t.x < t.cols
      modifies `cursorX, mainCells, altCells
      ensures Matches(Terminal.WriteCell(t, ch))
    {
      var cells := ActiveCells(t);
      cells[cursorY, cursorX] := Cell(ch, pen.bg % 16 * 16 + pen.fg % 16);
      cursorX := cursorX + 1;
    }

    method Tab(ghost t: Term)
      requires Matches(t)
      modifies `cursorX, `cursorY, mainCells, altCells
      ensures Matches(TabTo(t, (t.x / 8 + 1) * 8))
    {
      var next := (cursorX / 8 + 1) * 8;
      ghost var u := t;
      while cursorX < next && cursorX < cols
        invariant Matches(u) && TabTo(u, next) == TabTo(t, next)
        decreases next - cursorX
      {
        PutChar(u, ' ');
        u := Terminal.PutChar(u, ' ');
      }
    }

    // ---- CSI sequences ----

    // strtol over the digits at position s.
    method ReadNumber(s: nat, ghost l: string) returns (v: nat, e: nat)
      requires csiBuf.Length == CSI_MAX + 1 && AtBuf(s, l) && l != "" && IsDigit(l[0])
      ensures v == Number(l[1..], l[0] as nat - '0' as nat).0
      ensures AtBuf(e, Number(l[1..], l[0] as nat - '0' as nat).1)
    {
      v := csiBuf[s] as nat - '0' as nat;
      e := s + 1;
      ghost var rest := l[1..];
      while '0' <= csiBuf[e] <= '9'
        invariant AtBuf(e, rest) && Number(l[1..], l[0] as nat - '0' as nat) == Number(rest, v)
        decreases |rest|
      {
        v := v * 10 + (csiBuf[e] as nat - '0' as nat);
        e, rest := e + 1, rest[1..];
      }
    }

    // The C string l stands at position s of the parameter buffer.
    ghost predicate AtBuf(s: nat, l: string)
      reads csiBuf
    {
      && s + |l| < csiBuf.Length && csiBuf[s + |l|] == '\0' && '\0' !in l
      && forall i :: 0 <= i < |l| ==> csiBuf[s + i] == l[i]
    }

    // Parameters p[0..pc]; the slots not reached keep their -1.
    method ReadParams(ghost l: string) returns (p: array<int>, pc: nat)
      requires csiBuf.Length == CSI_MAX + 1 && AtBuf(0, l)
      ensures fresh(p) && p.Length == MAX_PARAMS && pc == |Params(l, [])|
      ensures forall i :: 0 <= i < MAX_PARAMS ==> p[i] == if i < pc then Params(l, [])[i] else -1
    {
      p := new int[MAX_PARAMS](_ => -1);
      pc := 0;
      var s: nat := 0;
      ghost var rest, seen: seq<nat> := l, [];
      while csiBuf[s] != '\0' && pc < MAX_PARAMS
        invariant AtBuf(s, rest) && pc == |seen| <= MAX_PARAMS && Params(l, []) == Params(rest, seen)
        invariant forall i :: 0 <= i < MAX_PARAMS ==> p[i] == if i < pc then seen[i] else -1
        decreases |rest|
      {
        if '0' <= csiBuf[s] <= '9' {
          var v;
          ghost var digits := rest;
          v, s := ReadNumber(s, digits);
          rest := Number(digits[1..], digits[0] as nat - '0' as nat).1;
          p[pc] := v;
          seen, pc := seen + [v], pc + 1;
        } else if csiBuf[s] == ';' {
          if p[pc] < 0 {
            p[pc] := 0;
          }
          seen, pc := seen + [0], pc + 1;
          s, rest := s + 1, rest[1..];
        } else {
          s, rest := s + 1, rest[1..];
        }
      }
    }

    method ApplySgr(p: array<int>, pc: nat, ghost values: seq<nat>, ghost t: Term)
      requires Matches(t) && pc == |values| <= p.Length
      requires forall i :: 0 <= i < pc ==> p[i] == values[i]
      modifies `pen
      ensures Matches(t.(pen := SgrAll(t.pen, values)))
    {
      assert values[0..] == values;
      for i := 0 to pc
        invariant PenOk(pen) && SgrAll(pen, values[i..]) == SgrAll(t.pen, values)
      {
        assert values[i..][1..] == values[i + 1..];
        SgrOne(p[i]);
      }
    }

    method SgrOne(v: nat)
      requires PenOk(pen)
      modifies `pen
      ensures pen == Sgr(old(pen), v)
    {
      if v == 0 {
        pen := DEFAULT_PEN;
      } else if v == 1 {
        pen := pen.(bold := true);
      } else if v == 22 {
        pen := pen.(bold := false, fg := pen.fg % 8);
      } else if v == 7 {
        var tmp := pen.fg;
        pen := pen.(fg := pen.bg);
        pen := pen.(bg := tmp);
      } else if v == 27 {
        pen := DEFAULT_PEN;
      } else if 30 <= v <= 37 {
        pen := pen.(fg := v - 30 + if pen.bold then BRIGHT else 0);
      } else if v == 39 {
        pen := pen.(fg := WHITE);
      } else if 40 <= v <= 47 {
        pen := pen.(bg := v - 40);
      } else if v == 49 {
        pen := pen.(bg := BLACK);
      } else if 90 <= v <= 97 {
        pen := pen.(fg := v - 90 + BRIGHT);
      } else if 100 <= v <= 107 {
        pen := pen.(bg := v - 100 + BRIGHT);
      }
    }

    method MoveCursor(final: char, p1: nat, p2: nat, ghost t: Term)
      requires Inv(t) && Fields(t)
      modifies `cursorX, `cursorY, `savedX, `savedY
      ensures Fields(Terminal.MoveCursor(t, final, p1, p2))
    {
      match final {
        case 'A' =>
          cursorY := cursorY - p1;
          if cursorY < scrollTop { cursorY := scrollTop; }
        case 'B' =>
          cursorY := cursorY + p1;
          if cursorY > scrollBottom { cursorY := scrollBottom; }
        case 'C' =>
          cursorX := cursorX + p1;
          if cursorX >= cols { cursorX := cols - 1; }
        case 'D' =>
          cursorX := cursorX - p1;
          if cursorX < 0 { cursorX := 0; }
        case 'E' =>
          cursorY, cursorX := cursorY + p1, 0;
          if cursorY > scrollBottom { cursorY := scrollBottom; }
        case 'F' =>
          cursorY, cursorX := cursorY - p1, 0;
          if cursorY < scrollTop { cursorY := scrollTop; }
        case 'G' =>
          cursorX := Clamp(p1 - 1, 0, cols - 1);
        case 'd' =>
          cursorY := Clamp(p1 - 1, 0, rows - 1);
        case 's' =>
          savedX, savedY := cursorX, cursorY;
        case 'u' =>
          cursorX, cursorY := Min(savedX, cols - 1), Min(savedY, rows - 1);
        case _ =>
          cursorY, cursorX := Clamp(p1 - 1, 0, rows - 1), Clamp(p2 - 1, 0, cols - 1);
      }
    }

    method ClearActive(ghost t: Term)
      requires Matches(t)
      modifies mainCells, altCells
      ensures Matches(WithActive(t, Cleared(t)))
    {
      var cells := ActiveCells(t);
      var blank := BlankCell(t);
      Cells.FillRows(cells, 0, rows, blank, Active(t));
      assert Active(t)[..0] + Repeat(rows, BlankRow(t)) + Active(t)[rows..] == Cleared(t);
    }

    method EraseLine(mode: nat, ghost t: Term)
      requires Matches(t)
      modifies mainCells, altCells
      ensures Matches(SetRow(t, t.y, Terminal.EraseLine(t, mode)))
    {
      var cells := ActiveCells(t);
      var blank := BlankCell(t);
      if mode == 2 {
        Cells.FillRow(cells, cursorY, blank, Active(t));
      } else if mode == 1 {
        Cells.EraseCells(cells, cursorY, 0, cursorX + 1, blank, Active(t));
      } else {
        Cells.EraseCells(cells, cursorY, cursorX, cols, blank, Active(t));
      }
    }

    method FillRows(from: nat, to: nat, ghost t: Term)
      requires Matches(t) && from <= to <= rows
      modifies mainCells, altCells
      ensures Matches(WithActive(t, ClearRows(t, Active(t), from, to)))
    {
      var cells := ActiveCells(t);
      var blank := BlankCell(t);
      Cells.FillRows(cells, from, to, blank, Active(t));
    }

    method EraseScreen(mode: nat, ghost t: Term)
      requires Matches(t)
      modifies `cursorX, `cursorY, mainCells, altCells
      ensures Matches(Terminal.EraseScreen(t, mode))
    {
      if mode == 2 || mode == 3 {
        ClearActive(t);
        cursorX, cursorY := 0, 0;
      } else {
        ghost var line := if mode == 1 then 1 else 0;
        EraseLine(if mode == 1 then 1 else 0, t);
        ghost var u := SetRow(t, t.y, Terminal.EraseLine(t, line));
        if mode == 1 {
          FillRows(0, cursorY, u);
        } else {
          FillRows(cursorY + 1, rows, u);
        }
      }
    }

    method Edit(final: char, p1: nat, ghost t: Term)
      requires Matches(t) && Edits(final)
      modifies `cursorX, `cursorY, mainCells, altCells
      ensures Matches(Terminal.Edit(t, final, p1))
    {
      MatchesCursor(t);
      MatchesInv(t);
      hide Matches, Terminal.EraseScreen, Terminal.EraseLine, Terminal.ScrollUp, Terminal.ScrollDown;
      match final {
        case 'J' => EraseScreen(p1, t);
        case 'K' => EraseLine(p1, t);
        case 'L' => ScrollDown(t, p1, cursorY);
        case 'M' => ScrollUp(t, p1, cursorY);
        case 'P' => DeleteChars(p1, t);
        case '@' => InsertChars(p1, t);
        case 'S' => ScrollUp(t, p1, -1);
        case _ => ScrollDown(t, p1, -1);
      }
    }

    lemma MatchesCursor(t: Term)
      requires Matches(t)
      ensures cursorX == t.x && cursorY == t.y && rows == t.rows
    {
    }

    method DeleteChars(n: nat, ghost t: Term)
      requires Matches(t)
      modifies mainCells, altCells
      ensures Matches(SetRow(t, t.y, DeleteCells(Active(t)[t.y], t.x, n, Blank(t))))
    {
      hide DeleteCells;
      var cells := ActiveCells(t);
      var blank := BlankCell(t);
      Cells.DeleteCells(cells, cursorY, cursorX, n, blank, Active(t));
    }

    method InsertChars(n: nat, ghost t: Term)
      requires Matches(t)
      modifies mainCells, altCells
      ensures Matches(SetRow(t, t.y, InsertCells(Active(t)[t.y], t.x, n, Blank(t))))
    {
      hide InsertCells;
      var cells := ActiveCells(t);
      var blank := BlankCell(t);
      Cells.InsertCells(cells, cursorY, cursorX, n, blank, Active(t));
    }

    method SetRegion(p1: nat, p2: nat, ghost t: Term)
      requires Inv(t) && Fields(t)
      modifies `cursorX, `cursorY, `scrollTop, `scrollBottom
      ensures Fields(Terminal.SetRegion(t, p1, p2))
    {
      scrollTop, scrollBottom := p1 - 1, p2 - 1;
      if scrollTop < 0 { scrollTop := 0; }
      if scrollBottom >= rows { scrollBottom := rows - 1; }
      if scrollTop >= scrollBottom {
        scrollTop, scrollBottom := 0, rows - 1;
      }
      cursorX, cursorY := 0, 0;
    }

    method PrivateMode(final: char, mode: nat, ghost t: Term)
      requires Matches(t)
      modifies `altScreen, `savedX, `savedY, `cursorX, `cursorY, `csiPrivate, altCells
      ensures Matches(Private(t, final, mode))
    {
      MatchesAlt(t);
      hide Matches;
      ghost var u := t;
      if mode == 1049 || mode == 1047 || mode == 47 {
        if final == 'h' && !altScreen {
          Enter(t);
          u := EnterAlt(t);
        } else if final == 'l' && altScreen {
          Leave(t);
          u := LeaveAlt(t);
        }
      }
      EndPrivate(u);
    }

    lemma MatchesAlt(t: Term)
      requires Matches(t)
      ensures altScreen == t.onAlt && csiPrivate == t.esc.priv && rows == t.rows && csiBuf.Length == CSI_MAX + 1
    {
    }

    method Enter(ghost t: Term)
      requires Matches(t) && !t.onAlt
      modifies `altScreen, `savedX, `savedY, `cursorX, `cursorY, altCells
      ensures Matches(EnterAlt(t))
    {
      ClearAlt(t);
      hide Cells.Shows, Sized, Cleared;
      altScreen := true;
      savedX, savedY := cursorX, cursorY;
      cursorX, cursorY := 0, 0;
    }

    method Leave(ghost t: Term)
      requires Matches(t) && t.onAlt
      modifies `altScreen, `cursorX, `cursorY
      ensures Matches(LeaveAlt(t))
    {
      hide Cells.Shows, Sized;
      altScreen := false;
      cursorX, cursorY := savedX, savedY;
    }

    method EndPrivate(ghost t: Term)
      requires Matches(t)
      modifies `csiPrivate
      ensures Matches(t.(esc := t.esc.(priv := false)))
    {
      hide Cells.Shows, Sized;
      csiPrivate := false;
    }

    method ClearAlt(ghost t: Term)
      requires Matches(t)
      modifies altCells
      ensures Matches(t.(alt := Cleared(t)))
    {
      var blank := BlankCell(t);
      Cells.FillRows(altCells, 0, rows, blank, t.alt);
      assert t.alt[..0] + Repeat(rows, BlankRow(t)) + t.alt[rows..] == Cleared(t);
    }

    static function Slot(v: int, missing: nat): nat
    {
      if v < 0 then missing else v
    }

    // The final byte of a CSI sequence, its parameters in csiBuf[..csiLen].
    method HandleCsi(final: char, ghost t: Term)
      requires Matches(t) && AtBuf(0, Upto0(t.esc.csi))
      modifies this, mainCells, altCells
      ensures Matches(Handle(t, final))
    {
      hide Private, Terminal.MoveCursor, Terminal.Edit, Terminal.SetRegion, Params, Matches, Inv, Upto0;
      MatchesInv(t);
      MatchesAlt(t);
      ghost var l := Upto0(t.esc.csi);
      assert csiBuf[0] == '\0' <==> l == "" by {
        assert l != "" ==> l[0] in l;
      }
      var p, pc := ReadParams(l);
      var p1, p2 := Slot(p[0], 1), Slot(p[1], 1);
      if csiPrivate {
        PrivateMode(final, Slot(p[0], 0), t);
      } else if Moves(final) {
        Move(final, p1, p2, t);
      } else if Edits(final) {
        Edit(final, p1, t);
      } else if final == 'm' {
        if csiBuf[0] == '\0' {
          ResetPen(t);
        } else {
          ApplySgr(p, pc, Params(l, []), t);
        }
      } else if final == 'r' {
        Region(p1, Slot(p[1], rows), t);
      }
    }

    method ResetPen(ghost t: Term)
      requires Matches(t)
      modifies `pen
      ensures Matches(t.(pen := DEFAULT_PEN))
    {
      hide Cells.Shows, Sized;
      pen := DEFAULT_PEN;
    }

    method Move(final: char, p1: nat, p2: nat, ghost t: Term)
      requires Matches(t)
      modifies `cursorX, `cursorY, `savedX, `savedY
      ensures Matches(Terminal.MoveCursor(t, final, p1, p2))
    {
      hide Cells.Shows, Sized, Terminal.MoveCursor;
      MoveCursor(final, p1, p2, t);
    }

    method Region(p1: nat, p2: nat, ghost t: Term)
      requires Matches(t)
      modifies `cursorX, `cursorY, `scrollTop, `scrollBottom
      ensures Matches(Terminal.SetRegion(t, p1, p2))
    {
      hide Cells.Shows, Sized, Terminal.SetRegion;
      SetRegion(p1, p2, t);
    }

    // ---- one byte ----

    method ByteInOsc(ch: char, ghost t: Term)
      requires Matches(t)
      modifies `inOsc, `inEsc
      ensures Matches(InOsc(t, ch))
    {
      hide Screens, Sized;
      if ch == '\U{7}' || ch == '\U{9C}' {
        inOsc := false;
      } else if ch == '\U{1B}' {
        inOsc, inEsc := false, true;
      }
    }

    method ByteInCsi(ch: char, ghost t: Term)
      requires Matches(t)
      modifies this, mainCells, altCells, csiBuf
      ensures Matches(InCsi(t, ch))
    {
      hide Screens, Sized, Handle;
      if '@' <= ch <= '~' {
        csiBuf[csiLen] := '\0';
        inCsi := false;
        ghost var s := t.(esc := t.esc.(inCsi := false));
        assert csiBuf[..csiLen] == t.esc.csi;
        HandleCsi(ch, s);
        csiLen := 0;
      } else if ch == '?' {
        csiPrivate := true;
      } else if csiLen < csiBuf.Length - 1 {
        csiBuf[csiLen] := ch;
        csiLen := csiLen + 1;
        assert csiBuf[..csiLen] == t.esc.csi + [ch];
      }
    }

    method ByteInEsc(ch: char, ghost t: Term)
      requires Matches(t)
      modifies this, mainCells, altCells
      ensures Matches(InEsc(t, ch))
    {
      hide Matches, Inv, Terminal.ScrollDown;
      MatchesInv(t);
      EndEsc(t);
      ghost var u := t.(esc := t.esc.(inEsc := false));
      if ch == '[' {
        StartCsi(u);
      } else if ch == ']' {
        StartOsc(u);
      } else if ch == '7' {
        SaveCursor(u);
      } else if ch == '8' {
        RestoreCursor(u);
      } else if ch == 'M' {
        ReverseIndex(u);
      }
    }

    method StartCsi(ghost t: Term)
      requires Matches(t)
      modifies `inCsi, `csiLen, `csiPrivate
      ensures Matches(t.(esc := t.esc.(inCsi := true, csi := "", priv := false)))
    {
      hide Cells.Shows, Sized;
      inCsi, csiLen, csiPrivate := true, 0, false;
    }

    method StartOsc(ghost t: Term)
      requires Matches(t)
      modifies `inOsc
      ensures Matches(t.(esc := t.esc.(inOsc := true)))
    {
      hide Cells.Shows, Sized;
      inOsc := true;
    }

    method SaveCursor(ghost t: Term)
      requires Matches(t)
      modifies `savedX, `savedY
      ensures Matches(t.(savedX := t.x, savedY := t.y))
    {
      hide Cells.Shows, Sized;
      savedX, savedY := cursorX, cursorY;
    }

    method RestoreCursor(ghost t: Term)
      requires Matches(t)
      modifies `cursorX, `cursorY
      ensures Matches(t.(x := t.savedX, y := t.savedY))
    {
      hide Cells.Shows, Sized;
      cursorX, cursorY := savedX, savedY;
    }

    method EndEsc(ghost t: Term)
      requires Matches(t)
      modifies `inEsc
      ensures Matches(t.(esc := t.esc.(inEsc := false)))
    {
      hide Cells.Shows, Sized;
      inEsc := false;
    }

    method ReverseIndex(ghost t: Term)
      requires Matches(t)
      modifies `cursorY, mainCells, altCells
      ensures Matches(if t.y > t.top then t.(y := t.y - 1) else Terminal.ScrollDown(t, 1, t.top))
    {
      hide Cells.Shows, Sized, Terminal.ScrollDown;
      if cursorY > scrollTop {
        cursorY := cursorY - 1;
      } else {
        ScrollDown(t, 1, -1);
      }
    }

    method PlainByte(ch: char, ghost t: Term)
      requires Matches(t)
      modifies `cursorX, `cursorY, `inEsc, mainCells, altCells
      ensures Matches(Plain(t, ch))
    {
      hide Terminal.LineFeed, TabTo, Terminal.PutChar, Screens, Sized;
      if ch == '\U{1B}' {
        inEsc := true;
      } else if ch == '\r' {
        cursorX := 0;
      } else if ch == '\n' || ch == '\U{B}' || ch == '\U{C}' {
        LineFeed(t);
      } else if ch == '\U{8}' || ch == '\U{7F}' {
        if cursorX > 0 {
          cursorX := cursorX - 1;
        }
      } else if ch == '\t' {
        Tab(t);
      } else if ch >= ' ' && ch < '\U{80}' {
        PutChar(t, ch);
      }
    }

    method ProcessByte(ch: char, ghost t: Term)
      requires Matches(t)
      modifies this, mainCells, altCells, csiBuf
      ensures Matches(Step(t, ch))
    {
      hide InOsc, InCsi, InEsc, Plain, Inv, Cells.Shows;
      if inOsc {
        ByteInOsc(ch, t);
      } else if inCsi {
        ByteInCsi(ch, t);
      } else if inEsc {
        ByteInEsc(ch, t);
      } else {
        PlainByte(ch, t);
      }
    }

    // ssh_term_process_bytes: after any bytes the object is in the state Run gives.
    method ProcessBytes(buf: string, ghost t: Term)
      requires Matches(t)
      modifies this, mainCells, altCells, csiBuf
      ensures Matches(Run(t, buf))
    {
      hide Matches, Step, Inv;
      MatchesInv(t);
      ghost var u := t;
      assert buf[0..] == buf;
      for i := 0 to |buf|
        invariant Inv(u) && Matches(u) && Run(u, buf[i..]) == Run(t, buf)
      {
        ProcessByte(buf[i], u);
        assert buf[i..][1..] == buf[i + 1..];
        u := Step(u, buf[i]);
      }
    }

    lemma MatchesInv(t: Term)
      requires Matches(t)
      ensures Inv(t)
    {
    }
  }
}
