// The SSH terminal emulator (cmd/ssh.c, ssh_term_*): escape-sequence state
// machine, two screens, scroll region. This is its behaviour as a function of
// one byte; TerminalCells.dfy is the program that shifts the cells in place.

module Terminal {
  import opened CStrings

  datatype Cell = Cell(ch: char, attr: nat)
  type Grid = seq<seq<Cell>>

  const WHITE := 7
  const BLACK := 0
  const BRIGHT := 8
  const CSI_MAX := 63
  const MAX_PARAMS := 8

  // The attributes the next cell is written with.
  datatype Pen = Pen(fg: nat, bg: nat, bold: bool)

  // Where the parser stands between bytes.
  datatype Esc = Esc(inEsc: bool, inCsi: bool, inOsc: bool, priv: bool, csi: string)

  datatype Term = Term(
    rows: nat, cols: nat,
    main: Grid, alt: Grid, onAlt: bool,
    x: int, y: int, savedX: int, savedY: int,
    top: int, bottom: int,
    pen: Pen, esc: Esc)

  predicate Sized(g: Grid, rows: nat, cols: nat)
  {
    |g| == rows && forall r :: 0 <= r < rows ==> |g[r]| == cols
  }

  predicate PenOk(p: Pen) { p.fg < 16 && p.bg < 16 }

  // What every step keeps. A cursor at x == cols waits to wrap.
  predicate Inv(t: Term)
  {
    && t.rows >= 2 && t.cols >= 1
    && Sized(t.main, t.rows, t.cols) && Sized(t.alt, t.rows, t.cols)
    && 0 <= t.x <= t.cols && 0 <= t.y < t.rows
    && 0 <= t.savedX <= t.cols && 0 <= t.savedY < t.rows
    && 0 <= t.top < t.bottom < t.rows
    && PenOk(t.pen) && |t.esc.csi| <= CSI_MAX
  }

  function Active(t: Term): Grid { if t.onAlt then t.alt else t.main }

  function WithActive(t: Term, g: Grid): Term
  {
    if t.onAlt then t.(alt := g) else t.(main := g)
  }

  function Attr(p: Pen): nat { p.bg % 16 * 16 + p.fg % 16 }

  function Blank(t: Term): Cell { Cell(' ', Attr(t.pen)) }

  function Repeat<T>(n: nat, v: T): (s: seq<T>)
    ensures |s| == n && forall i :: 0 <= i < n ==> s[i] == v
  {
    seq(n, _ => v)
  }

  function BlankRow(t: Term): seq<Cell> { Repeat(t.cols, Blank(t)) }

  function Cleared(t: Term): Grid { Repeat(t.rows, BlankRow(t)) }

  const DEFAULT_PEN := Pen(WHITE, BLACK, false)

  function Init(rows: nat, cols: nat): (t: Term)
    requires rows >= 2 && cols >= 1
    ensures Inv(t)
  {
    var t := Term(rows, cols, [], [], false, 0, 0, 0, 0, 0, rows - 1, DEFAULT_PEN,
                  Esc(false, false, false, false, ""));
    t.(main := Cleared(t), alt := Cleared(t))
  }

  // ---- rows and cells, moved at once ----

  // Rows from..bottom move up by n and leave `row` behind. Below the region only
  // its last row is overwritten.
  function RowsUp(g: Grid, from: nat, bottom: nat, n: nat, row: seq<Cell>): (h: Grid)
    requires bottom < |g|
    ensures |h| == |g|
  {
    if n == 0 then g
    else if from > bottom then g[bottom := row]
    else seq(|g|, r requires 0 <= r < |g| =>
           if from <= r <= bottom then (if r + n <= bottom then g[r + n] else row) else g[r])
  }

  function RowsDown(g: Grid, from: nat, bottom: nat, n: nat, row: seq<Cell>): (h: Grid)
    requires bottom < |g| && from < |g|
    ensures |h| == |g|
  {
    if n == 0 then g
    else if from > bottom then g[from := row]
    else seq(|g|, r requires 0 <= r < |g| =>
           if from <= r <= bottom then (if r - n >= from then g[r - n] else row) else g[r])
  }

  // n cells taken out of a row at x, blanks let in at its end.
  function DeleteCells(row: seq<Cell>, x: nat, n: nat, blank: Cell): (r: seq<Cell>)
    requires x <= |row|
    ensures |r| == |row|
  {
    var k := Min(n, |row| - x);
    row[..x] + row[x + k..] + Repeat(k, blank)
  }

  // n blanks put into a row at x, its last cells pushed out.
  function InsertCells(row: seq<Cell>, x: nat, n: nat, blank: Cell): (r: seq<Cell>)
    requires x <= |row|
    ensures |r| == |row|
  {
    var k := Min(n, |row| - x);
    row[..x] + Repeat(k, blank) + row[x..|row| - k]
  }

  function EraseCells(row: seq<Cell>, from: nat, to: nat, blank: Cell): (r: seq<Cell>)
    requires from <= to <= |row|
    ensures |r| == |row|
  {
    row[..from] + Repeat(to - from, blank) + row[to..]
  }

  function ScrollUp(t: Term, count: nat, from: nat): (u: Term)
    requires Inv(t)
    ensures Inv(u)
  {
    WithActive(t, RowsUp(Active(t), from, t.bottom, count, BlankRow(t)))
  }

  function ScrollDown(t: Term, count: nat, from: nat): (u: Term)
    requires Inv(t) && from < t.rows
    ensures Inv(u)
  {
    WithActive(t, RowsDown(Active(t), from, t.bottom, count, BlankRow(t)))
  }

  // Onto the next line; past the region it scrolls, from wherever the cursor was.
  function LineFeed(t: Term): (u: Term)
    requires Inv(t)
    ensures Inv(u)
  {
    if t.y + 1 > t.bottom then ScrollUp(t, 1, t.top).(y := t.bottom) else t.(y := t.y + 1)
  }

  // A cursor waiting past the last column wraps before anything is written.
  function Wrapped(t: Term): (u: Term)
    requires Inv(t)
    ensures Inv(u) && u.x < u.cols && (t.x < t.cols ==> u == t)
  {
    if t.x >= t.cols then LineFeed(t.(x := 0)) else t
  }

  function WriteCell(t: Term, ch: char): (u: Term)
    requires Inv(t) && t.x < t.cols
    ensures Inv(u) && u.x == t.x + 1
  {
    var g := Active(t);
    WithActive(t, g[t.y := g[t.y][t.x := Cell(ch, Attr(t.pen))]]).(x := t.x + 1)
  }

  function PutChar(t: Term, ch: char): (u: Term)
    requires Inv(t)
    ensures Inv(u) && (t.x < t.cols ==> u.x == t.x + 1)
  {
    WriteCell(Wrapped(t), ch)
  }

  function TabTo(t: Term, next: int): (u: Term)
    requires Inv(t)
    ensures Inv(u)
    decreases next - t.x
  {
    if t.x < next && t.x < t.cols then TabTo(PutChar(t, ' '), next) else t
  }

  // ---- CSI sequences ----

  predicate IsDigit(c: char) { '0' <= c <= '9' }

  // The digits at the start of s as a number after those already read.
  function Number(s: string, acc: nat): (r: (nat, string))
    ensures |r.1| <= |s|
  {
    if s != "" && IsDigit(s[0]) then Number(s[1..], acc * 10 + (s[0] as nat - '0' as nat))
    else (acc, s)
  }

  // A run of digits is a parameter, and so is every `;`.
  function Params(s: string, p: seq<nat>): (r: seq<nat>)
    requires |p| <= MAX_PARAMS
    ensures p <= r && |r| <= MAX_PARAMS
    decreases |s|
  {
    if s == "" || |p| == MAX_PARAMS then p
    else if IsDigit(s[0]) then
      var (v, rest) := Number(s[1..], s[0] as nat - '0' as nat);
      Params(rest, p + [v])
    else if s[0] == ';' then Params(s[1..], p + [0])
    else Params(s[1..], p)
  }

  function Param(p: seq<nat>, i: nat, missing: nat): nat
  {
    if i < |p| then p[i] else missing
  }

  function Clamp(v: int, lo: int, hi: int): int
  {
    if v < lo then lo else if v > hi then hi else v
  }

  // One SGR parameter.
  function Sgr(p: Pen, v: nat): (q: Pen)
    requires PenOk(p)
    ensures PenOk(q)
  {
    if v == 0 then DEFAULT_PEN
    else if v == 1 then p.(bold := true)
    else if v == 22 then p.(bold := false, fg := p.fg % 8)
    else if v == 7 then p.(fg := p.bg, bg := p.fg)
    else if v == 27 then DEFAULT_PEN
    else if 30 <= v <= 37 then p.(fg := v - 30 + if p.bold then BRIGHT else 0)
    else if v == 39 then p.(fg := WHITE)
    else if 40 <= v <= 47 then p.(bg := v - 40)
    else if v == 49 then p.(bg := BLACK)
    else if 90 <= v <= 97 then p.(fg := v - 90 + BRIGHT)
    else if 100 <= v <= 107 then p.(bg := v - 100 + BRIGHT)
    else p
  }

  function SgrAll(p: Pen, vs: seq<nat>): (q: Pen)
    requires PenOk(p)
    ensures PenOk(q)
    decreases |vs|
  {
    if vs == [] then p else SgrAll(Sgr(p, vs[0]), vs[1..])
  }

  function EnterAlt(t: Term): Term
  {
    t.(onAlt := true, savedX := t.x, savedY := t.y, x := 0, y := 0, alt := Cleared(t))
  }

  function LeaveAlt(t: Term): Term
  {
    t.(onAlt := false, x := t.savedX, y := t.savedY)
  }

  predicate AltMode(mode: nat) { mode == 1049 || mode == 1047 || mode == 47 }

  function Private(t: Term, final: char, mode: nat): (u: Term)
    requires Inv(t)
    ensures Inv(u)
  {
    (if AltMode(mode) && final == 'h' && !t.onAlt then EnterAlt(t)
     else if AltMode(mode) && final == 'l' && t.onAlt then LeaveAlt(t)
     else t).(esc := t.esc.(priv := false))
  }

  function SetRow(t: Term, r: int, row: seq<Cell>): Term
    requires Inv(t) && 0 <= r < t.rows
  {
    WithActive(t, Active(t)[r := row])
  }

  // Rows from..to-1 blanked.
  function ClearRows(t: Term, g: Grid, from: int, to: int): (h: Grid)
    requires Sized(g, t.rows, t.cols) && 0 <= from <= to <= t.rows
    ensures Sized(h, t.rows, t.cols)
  {
    g[..from] + Repeat(to - from, BlankRow(t)) + g[to..]
  }

  function EraseLine(t: Term, mode: nat): (row: seq<Cell>)
    requires Inv(t)
    ensures |row| == t.cols
  {
    var row := Active(t)[t.y];
    if mode == 2 then BlankRow(t)
    else if mode == 1 then EraseCells(row, 0, Min(t.x + 1, t.cols), Blank(t))
    else EraseCells(row, t.x, t.cols, Blank(t))
  }

  function EraseScreen(t: Term, mode: nat): (u: Term)
    requires Inv(t)
    ensures Inv(u)
  {
    if mode == 2 || mode == 3 then WithActive(t, Cleared(t)).(x := 0, y := 0)
    else
      var g := Active(t)[t.y := EraseLine(t, if mode == 1 then 1 else 0)];
      WithActive(t, if mode == 1 then ClearRows(t, g, 0, t.y) else ClearRows(t, g, t.y + 1, t.rows))
  }

  function SetRegion(t: Term, p1: int, p2: int): (u: Term)
    requires Inv(t)
    ensures Inv(u) && u == t.(x := 0, y := 0, top := u.top, bottom := u.bottom)
  {
    var top := if p1 - 1 < 0 then 0 else p1 - 1;
    var bottom := if p2 - 1 >= t.rows then t.rows - 1 else p2 - 1;
    (if top >= bottom then t.(top := 0, bottom := t.rows - 1) else t.(top := top, bottom := bottom))
    .(x := 0, y := 0)
  }

  // Upwards stops at the top margin, downwards at the bottom one, from wherever
  // the cursor was.
  function Up(t: Term, n: nat): int { if t.y - n < t.top then t.top else t.y - n }
  function Down(t: Term, n: nat): int { if t.y + n > t.bottom then t.bottom else t.y + n }

  function MoveCursor(t: Term, final: char, p1: nat, p2: nat): (u: Term)
    requires Inv(t)
    ensures Inv(u) && u == t.(x := u.x, y := u.y, savedX := u.savedX, savedY := u.savedY)
  {
    match final
    case 'A' => t.(y := Up(t, p1))
    case 'B' => t.(y := Down(t, p1))
    case 'C' => t.(x := if t.x + p1 >= t.cols then t.cols - 1 else t.x + p1)
    case 'D' => t.(x := if t.x - p1 < 0 then 0 else t.x - p1)
    case 'E' => t.(y := Down(t, p1), x := 0)
    case 'F' => t.(y := Up(t, p1), x := 0)
    case 'G' => t.(x := Clamp(p1 - 1, 0, t.cols - 1))
    case 'd' => t.(y := Clamp(p1 - 1, 0, t.rows - 1))
    case 's' => t.(savedX := t.x, savedY := t.y)
    case 'u' => t.(x := Min(t.savedX, t.cols - 1), y := Min(t.savedY, t.rows - 1))
    case _ => t.(y := Clamp(p1 - 1, 0, t.rows - 1), x := Clamp(p2 - 1, 0, t.cols - 1))
  }

  function Edit(t: Term, final: char, p1: nat): (u: Term)
    requires Inv(t)
    ensures Inv(u)
  {
    match final
    case 'J' => EraseScreen(t, p1)
    case 'K' => SetRow(t, t.y, EraseLine(t, p1))
    case 'L' => ScrollDown(t, p1, t.y)
    case 'M' => ScrollUp(t, p1, t.y)
    case 'P' => SetRow(t, t.y, DeleteCells(Active(t)[t.y], t.x, p1, Blank(t)))
    case '@' => SetRow(t, t.y, InsertCells(Active(t)[t.y], t.x, p1, Blank(t)))
    case 'S' => ScrollUp(t, p1, t.top)
    case _ => ScrollDown(t, p1, t.top)
  }

  predicate Moves(final: char) { final in "ABCDEFGHfdsu" }
  predicate Edits(final: char) { final in "JKLMP@ST" }

  function Csi(t: Term, final: char, p: seq<nat>): (u: Term)
    requires Inv(t)
    ensures Inv(u)
  {
    if Moves(final) then MoveCursor(t, final, Param(p, 0, 1), Param(p, 1, 1))
    else if Edits(final) then Edit(t, final, Param(p, 0, 1))
    else if final == 'm' then
      t.(pen := if Upto0(t.esc.csi) == "" then DEFAULT_PEN else SgrAll(t.pen, p))
    else if final == 'r' then SetRegion(t, Param(p, 0, 1), Param(p, 1, t.rows))
    else t
  }

  function Handle(t: Term, final: char): (u: Term)
    requires Inv(t)
    ensures Inv(u)
  {
    var p := Params(Upto0(t.esc.csi), []);
    if t.esc.priv then Private(t, final, Param(p, 0, 0)) else Csi(t, final, p)
  }

  // The final byte of a sequence.
  function Finish(t: Term, final: char): (u: Term)
    requires Inv(t)
    ensures Inv(u)
  {
    var u := Handle(t, final);
    u.(esc := u.esc.(csi := ""))
  }

  // ---- one byte ----

  function InOsc(t: Term, b: char): Term
  {
    if b == '\U{7}' || b == '\U{9C}' then t.(esc := t.esc.(inOsc := false))
    else if b == '\U{1B}' then t.(esc := t.esc.(inOsc := false, inEsc := true))
    else t
  }

  function InCsi(t: Term, b: char): (u: Term)
    requires Inv(t)
    ensures Inv(u)
  {
    if '@' <= b <= '~' then Finish(t.(esc := t.esc.(inCsi := false)), b)
    else if b == '?' then t.(esc := t.esc.(priv := true))
    else if |t.esc.csi| < CSI_MAX then t.(esc := t.esc.(csi := t.esc.csi + [b]))
    else t
  }

  function InEsc(t0: Term, b: char): (u: Term)
    requires Inv(t0)
    ensures Inv(u)
  {
    var e := t0.esc.(inEsc := false);
    var t := t0.(esc := e);
    match b
    case '[' => t.(esc := e.(inCsi := true, csi := "", priv := false))
    case ']' => t.(esc := e.(inOsc := true))
    case '7' => t.(savedX := t.x, savedY := t.y)
    case '8' => t.(x := t.savedX, y := t.savedY)
    case 'M' => if t.y > t.top then t.(y := t.y - 1) else ScrollDown(t, 1, t.top)
    case _ => t
  }

  function Plain(t: Term, b: char): (u: Term)
    requires Inv(t)
    ensures Inv(u)
  {
    if b == '\U{1B}' then t.(esc := t.esc.(inEsc := true))
    else if b == '\r' then t.(x := 0)
    else if b == '\n' || b == '\U{B}' || b == '\U{C}' then LineFeed(t)
    else if b == '\U{8}' || b == '\U{7F}' then t.(x := if t.x > 0 then t.x - 1 else 0)
    else if b == '\t' then TabTo(t, (t.x / 8 + 1) * 8)
    else if b < ' ' || b >= '\U{80}' then t
    else PutChar(t, b)
  }

  function Step(t: Term, b: char): (u: Term)
    requires Inv(t)
    ensures Inv(u)
  {
    if t.esc.inOsc then InOsc(t, b)
    else if t.esc.inCsi then InCsi(t, b)
    else if t.esc.inEsc then InEsc(t, b)
    else Plain(t, b)
  }

  function Run(t: Term, bytes: string): (u: Term)
    requires Inv(t)
    ensures Inv(u)
    decreases |bytes|
  {
    if bytes == "" then t else Run(Step(t, bytes[0]), bytes[1..])
  }
}
