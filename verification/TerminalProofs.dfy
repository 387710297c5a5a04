// What the terminal keeps over every run of bytes.

module TerminalProofs {
  import opened CStrings
  import opened Terminal

  // ---- the two screens ----

  // ESC 7 and CSI s, the bytes that save the cursor where it is.
  predicate Saves(t: Term, b: char)
  {
    if t.esc.inOsc then false
    else if t.esc.inCsi then b == 's' && !t.esc.priv
    else t.esc.inEsc && b == '7'
  }

  // The screen that is not shown, and the saved cursor.
  predicate SameBehind(t: Term, u: Term)
  {
    && u.onAlt == t.onAlt && u.rows == t.rows && u.cols == t.cols
    && (if t.onAlt then u.main == t.main else u.alt == t.alt)
  }

  predicate SameSaved(t: Term, u: Term)
  {
    u.savedX == t.savedX && u.savedY == t.savedY
  }

  lemma {:induction false} TabKeeps(t: Term, next: int)
    requires Inv(t)
    ensures SameBehind(t, TabTo(t, next)) && SameSaved(t, TabTo(t, next))
    decreases next - t.x
  {
    if t.x < next && t.x < t.cols {
      TabKeeps(PutChar(t, ' '), next);
    }
  }

  lemma PutKeeps(t: Term, b: char)
    requires Inv(t)
    ensures SameBehind(t, PutChar(t, b)) && SameSaved(t, PutChar(t, b))
    ensures SameBehind(t, LineFeed(t)) && SameSaved(t, LineFeed(t))
  {
    hide RowsUp, Attr;
  }

  lemma PlainKeeps(t: Term, b: char)
    requires Inv(t)
    ensures SameBehind(t, Plain(t, b)) && SameSaved(t, Plain(t, b))
  {
    hide LineFeed, PutChar, TabTo;
    TabKeeps(t, (t.x / 8 + 1) * 8);
    PutKeeps(t, b);
  }

  lemma EditKeeps(t: Term, final: char, p1: nat)
    requires Inv(t)
    ensures SameBehind(t, Edit(t, final, p1)) && SameSaved(t, Edit(t, final, p1))
  {
    hide Cleared, RowsUp, RowsDown, EraseLine, ClearRows, DeleteCells, InsertCells, Attr;
  }

  lemma CsiKeeps(t: Term, final: char, p: seq<nat>)
    requires Inv(t)
    ensures SameBehind(t, Csi(t, final, p)) && (final != 's' ==> SameSaved(t, Csi(t, final, p)))
  {
    if !Moves(final) && Edits(final) {
      EditKeeps(t, final, Param(p, 0, 1));
    }
    hide Edit, SgrAll;
  }

  // What one byte does to the screen behind and to the saved cursor: nothing,
  // unless it enters or leaves the alternate screen or saves the cursor.
  lemma StepKeeps(t: Term, b: char)
    requires Inv(t)
    ensures var u := Step(t, b);
      && (u.onAlt == t.onAlt ==> SameBehind(t, u) && (!Saves(t, b) ==> SameSaved(t, u)))
      && (!t.onAlt && u.onAlt ==> u == EnterAlt(t).(esc := u.esc))
      && (t.onAlt && !u.onAlt ==> u == LeaveAlt(t).(esc := u.esc))
  {
    if t.esc.inOsc {
    } else if t.esc.inCsi {
      if '@' <= b <= '~' {
        var s := t.(esc := t.esc.(inCsi := false));
        if t.esc.priv {
          assert Cleared(s) == Cleared(t);
        } else {
          CsiKeeps(s, b, Params(Upto0(s.esc.csi), []));
        }
        hide Csi, Params, Cleared;
        assert Step(t, b) == Finish(s, b);
      }
    } else if t.esc.inEsc {
      hide RowsDown;
    } else {
      PlainKeeps(t, b);
      hide Plain;
    }
  }

  predicate Enters(t: Term, b: char)
    requires Inv(t)
  {
    !t.onAlt && Step(t, b).onAlt
  }

  // On the alternate screen nothing reaches the main one; off it nothing reaches
  // the alternate one, which is blank on entry.
  lemma ScreensAreApart(t: Term, b: char)
    requires Inv(t)
    ensures t.onAlt ==> Step(t, b).main == t.main
    ensures !t.onAlt ==> Step(t, b).alt == if Enters(t, b) then Cleared(t) else t.alt
  {
    hide Step, Inv, Cleared;
    StepKeeps(t, b);
  }

  // Every state of the run, the last included, is on the alternate screen.
  predicate StaysOnAlt(t: Term, bytes: string)
    requires Inv(t)
    decreases |bytes|
  {
    t.onAlt && (bytes != "" ==> StaysOnAlt(Step(t, bytes[0]), bytes[1..]))
  }

  predicate NeverSaves(t: Term, bytes: string)
    requires Inv(t)
    decreases |bytes|
  {
    bytes != "" ==> !Saves(t, bytes[0]) && NeverSaves(Step(t, bytes[0]), bytes[1..])
  }

  lemma {:induction false} OnAltKeeps(t: Term, bytes: string)
    requires Inv(t) && StaysOnAlt(t, bytes)
    ensures Run(t, bytes).main == t.main && Run(t, bytes).onAlt
    ensures NeverSaves(t, bytes) ==> SameSaved(t, Run(t, bytes))
    decreases |bytes|
  {
    hide Step, Inv, Saves;
    if bytes != "" {
      StepKeeps(t, bytes[0]);
      OnAltKeeps(Step(t, bytes[0]), bytes[1..]);
    }
  }

  // A full-screen program's whole visit: byte b enters, `bytes` are anything it
  // prints, byte c leaves. The main screen is as it was, and so is the cursor
  // unless the program saved another.
  lemma AltSession(t: Term, b: char, bytes: string, c: char)
    requires Inv(t) && Enters(t, b) && StaysOnAlt(Step(t, b), bytes)
    requires !Step(Run(Step(t, b), bytes), c).onAlt
    ensures var u := Step(Run(Step(t, b), bytes), c);
      u.main == t.main && (NeverSaves(Step(t, b), bytes) ==> u.x == t.x && u.y == t.y)
  {
    hide Step, Inv;
    StepKeeps(t, b);
    OnAltKeeps(Step(t, b), bytes);
    StepKeeps(Run(Step(t, b), bytes), c);
  }

  // The cuts between reads do not matter.
  lemma {:induction false} RunConcat(t: Term, a: string, b: string)
    requires Inv(t)
    ensures Run(t, a + b) == Run(Run(t, a), b)
    decreases |a|
  {
    hide Step, Inv;
    if a == "" {
      assert a + b == b;
    } else {
      assert (a + b)[1..] == a[1..] + b;
      RunConcat(Step(t, a[0]), a[1..], b);
    }
  }

  // ---- text ----

  predicate Printable(s: string) { forall i :: 0 <= i < |s| ==> ' ' <= s[i] <= '~' }

  predicate Idle(t: Term) { !t.esc.inOsc && !t.esc.inCsi && !t.esc.inEsc }

  function Cells(s: string, attr: nat): (r: seq<Cell>)
    ensures |r| == |s|
  {
    seq(|s|, i requires 0 <= i < |s| => Cell(s[i], attr))
  }

  // The row with s written over it from x on.
  function Overwrite(row: seq<Cell>, x: nat, s: string, attr: nat): (r: seq<Cell>)
    requires x + |s| <= |row|
    ensures |r| == |row|
  {
    row[..x] + Cells(s, attr) + row[x + |s|..]
  }

  lemma PrintOne(t: Term, c: char)
    requires Inv(t) && Idle(t) && ' ' <= c <= '~' && t.x < t.cols
    ensures Step(t, c) == WriteCell(t, c)
  {
    hide WriteCell;
  }

  lemma OverwriteStep(row: seq<Cell>, x: nat, s: string, attr: nat)
    requires s != "" && x + |s| <= |row|
    ensures Overwrite(row[x := Cell(s[0], attr)], x + 1, s[1..], attr) == Overwrite(row, x, s, attr)
  {
  }

  // Text that fits on the line lands there, cell by cell, and moves nothing else.
  lemma {:induction false} PrintText(t: Term, s: string)
    requires Inv(t) && Idle(t) && Printable(s) && t.x + |s| <= t.cols
    ensures Run(t, s) ==
      SetRow(t, t.y, Overwrite(Active(t)[t.y], t.x, s, Attr(t.pen))).(x := t.x + |s|)
    decreases |s|
  {
    hide Step, Attr;
    var row := Active(t)[t.y];
    if s == "" {
      assert Overwrite(row, t.x, s, Attr(t.pen)) == row;
      assert Active(t)[t.y := row] == Active(t);
    } else {
      PrintOne(t, s[0]);
      var u := WriteCell(t, s[0]);
      PrintText(u, s[1..]);
      OverwriteStep(row, t.x, s, Attr(t.pen));
      hide Overwrite, Inv;
      var g := Active(t);
      assert g[t.y := row[t.x := Cell(s[0], Attr(t.pen))]][t.y := Overwrite(row, t.x, s, Attr(t.pen))]
          == g[t.y := Overwrite(row, t.x, s, Attr(t.pen))];
    }
  }

  // ---- shifting ----

  lemma RowUpAt(g: Grid, from: nat, bottom: nat, n: nat, row: seq<Cell>, r: nat)
    requires from <= bottom < |g| && r < |g|
    ensures RowsUp(g, from, bottom, n, row)[r] ==
      if from <= r <= bottom && n > 0 then (if r + n <= bottom then g[r + n] else row) else g[r]
  {
  }

  // Scrolling by m and then by n is scrolling by m + n.
  lemma RowsUpAdd(g: Grid, from: nat, bottom: nat, m: nat, n: nat, row: seq<Cell>)
    requires from <= bottom < |g|
    ensures RowsUp(RowsUp(g, from, bottom, m, row), from, bottom, n, row) == RowsUp(g, from, bottom, m + n, row)
  {
    hide RowsUp;
    var h := RowsUp(g, from, bottom, m, row);
    var u, v := RowsUp(h, from, bottom, n, row), RowsUp(g, from, bottom, m + n, row);
    forall r | 0 <= r < |g| ensures u[r] == v[r] {
      RowUpAt(g, from, bottom, m + n, row, r);
      RowUpAt(h, from, bottom, n, row, r);
      RowUpAt(g, from, bottom, m, row, r);
      if r + n < |g| {
        RowUpAt(g, from, bottom, m, row, r + n);
      }
    }
  }

  // ---- parameters ----

  predicate AllDigits(s: string)
  {
    s != "" && Digital(s)
  }

  predicate Digital(s: string)
  {
    forall i :: 0 <= i < |s| ==> IsDigit(s[i])
  }

  function Value(s: string, acc: nat): nat
    requires Digital(s)
  {
    if s == "" then acc
    else
      assert IsDigit(s[0]);
      Value(s[1..], acc * 10 + (s[0] as nat - '0' as nat))
  }

  lemma {:induction false} NumberOf(s: string, rest: string, acc: nat)
    requires Digital(s)
    requires rest == "" || !IsDigit(rest[0])
    ensures Number(s + rest, acc) == (Value(s, acc), rest)
  {
    if s == "" {
      assert s + rest == rest;
    } else {
      assert (s + rest)[1..] == s[1..] + rest;
      NumberOf(s[1..], rest, acc * 10 + (s[0] as nat - '0' as nat));
    }
  }

  lemma ParamsDigit(s: string, p: seq<nat>)
    requires s != "" && IsDigit(s[0]) && |p| < MAX_PARAMS
    ensures var (v, rest) := Number(s[1..], s[0] as nat - '0' as nat);
      Params(s, p) == Params(rest, p + [v])
  {
    hide Number;
  }

  lemma ValueStep(s: string)
    requires AllDigits(s)
    ensures IsDigit(s[0]) && Digital(s[1..]) && Value(s, 0) == Value(s[1..], s[0] as nat - '0' as nat)
  {
  }

  lemma OneParam(s: string, rest: string, p: seq<nat>)
    requires AllDigits(s) && (rest == "" || !IsDigit(rest[0])) && |p| < MAX_PARAMS
    ensures Params(s + rest, p) == Params(rest, p + [Value(s, 0)])
  {
    hide Params, Number, Value, Digital;
    ValueStep(s);
    assert (s + rest)[0] == s[0] && (s + rest)[1..] == s[1..] + rest;
    ParamsDigit(s + rest, p);
    NumberOf(s[1..], rest, s[0] as nat - '0' as nat);
  }

  // The separator counts as a parameter of its own.
  lemma TwoParams(a: string, b: string)
    requires AllDigits(a) && AllDigits(b)
    ensures Params(a + ";" + b, []) == [Value(a, 0), 0, Value(b, 0)]
  {
    hide Number, Value;
    var r := ";" + b;
    assert a + ";" + b == a + r;
    OneParam(a, r, []);
    var p := [Value(a, 0)];
    assert [] + p == p && r[1..] == b;
    assert p + [0] == [Value(a, 0), 0];
    assert b + "" == b;
    OneParam(b, "", p + [0]);
    assert p + [0] + [Value(b, 0)] == [Value(a, 0), 0, Value(b, 0)];
  }

  lemma {:induction false} DigitsOnly(s: string)
    requires forall i :: 0 <= i < |s| ==> IsDigit(s[i]) || s[i] == ';'
    ensures Upto0(s) == s
  {
    if s != "" {
      DigitsOnly(s[1..]);
    }
  }

  // ---- two parameters on the wire ----

  // A terminal that has just read ESC [ and the bytes of s.
  predicate HasRead(t: Term, s: string)
  {
    Inv(t) && t.esc.inCsi && !t.esc.inOsc && !t.esc.priv && t.esc.csi == s
  }

  predicate ParamBytes(s: string)
  {
    forall i :: 0 <= i < |s| ==> IsDigit(s[i]) || s[i] == ';'
  }

  lemma {:induction false} Collects(t: Term, s: string, rest: string)
    requires HasRead(t, s) && ParamBytes(rest) && |s| + |rest| <= CSI_MAX
    ensures Run(t, rest) == t.(esc := t.esc.(csi := s + rest))
    decreases |rest|
  {
    if rest == "" {
      assert s + rest == s;
    } else {
      assert s + [rest[0]] + rest[1..] == s + rest;
      Collects(Step(t, rest[0]), s + [rest[0]], rest[1..]);
    }
  }

  // The bytes of a control sequence with parameters s, its final byte missing.
  function Sequence(s: string): string { "\U{1B}[" + s }

  lemma SequenceRead(t: Term, s: string)
    requires Inv(t) && Idle(t) && ParamBytes(s) && |s| <= CSI_MAX
    ensures Run(t, Sequence(s)) == t.(esc := Esc(false, true, false, false, s))
  {
    var u := Step(t, '\U{1B}');
    var v := Step(u, '[');
    assert Sequence(s)[1..] == "[" + s && ("[" + s)[1..] == s;
    Collects(v, "", s);
    assert "" + s == s;
  }

  lemma FinalByte(t: Term, s: string, final: char)
    requires Inv(t) && Idle(t) && ParamBytes(s) && |s| <= CSI_MAX && '@' <= final <= '~'
    ensures Run(t, Sequence(s) + [final]) == Finish(t.(esc := Esc(false, false, false, false, s)), final)
  {
    SequenceRead(t, s);
    RunConcat(t, Sequence(s), [final]);
    var u := Run(t, Sequence(s));
    assert [final][1..] == "";
    assert Run(u, [final]) == Step(u, final);
  }

  // A sequence with two numbers ends as one with the parameters [a, 0, b].
  lemma TwoParamSequence(t: Term, a: string, b: string, final: char) returns (u: Term)
    requires Inv(t) && Idle(t) && AllDigits(a) && AllDigits(b) && |a| + |b| < CSI_MAX && '@' <= final <= '~'
    ensures Inv(u) && !u.esc.priv && Params(Upto0(u.esc.csi), []) == [Value(a, 0), 0, Value(b, 0)]
    ensures u.rows == t.rows && u.cols == t.cols
    ensures Run(t, Sequence(a + ";" + b) + [final]) == Finish(u, final)
  {
    var s := a + ";" + b;
    TwoParams(a, b);
    DigitsOnly(s);
    hide Params, Upto0, Sized, Value, Run, Finish, Sequence;
    FinalByte(t, s, final);
    u := t.(esc := Esc(false, false, false, false, s));
  }

  // The final bytes themselves, on parameters [p, 0, q].
  lemma FinishCursor(t: Term, p: nat, q: nat)
    requires Inv(t) && !t.esc.priv && Params(Upto0(t.esc.csi), []) == [p, 0, q]
    ensures var u := Finish(t, 'H'); u.y == Clamp(p - 1, 0, t.rows - 1) && u.x == 0
  {
    hide Params, Upto0, Sized;
  }

  lemma FirstColumn(q: nat, cols: nat)
    requires cols >= 1
    ensures Clamp(q - 1, 0, cols - 1) == 0 <==> q <= 1 || cols == 1
  {
  }

  lemma FinishRegion(t: Term, p: nat, q: nat)
    requires Inv(t) && !t.esc.priv && Params(Upto0(t.esc.csi), []) == [p, 0, q]
    ensures var u := Finish(t, 'r'); u.top == 0 && u.bottom == t.rows - 1 && u.x == 0 && u.y == 0
  {
    hide Params, Upto0, Sized;
  }

  // CUP with both parameters (section 8.3.21 of ECMA-48) should reach column b.
  // It does exactly when that is the first column.
  lemma CursorPosition(t: Term, a: string, b: string)
    requires Inv(t) && Idle(t) && AllDigits(a) && AllDigits(b) && |a| + |b| < CSI_MAX
    ensures var u := Run(t, Sequence(a + ";" + b) + "H");
      && u.y == Clamp(Value(a, 0) - 1, 0, t.rows - 1) && u.x == 0
      && (u.x == Clamp(Value(b, 0) - 1, 0, t.cols - 1) <==> Value(b, 0) <= 1 || t.cols == 1)
  {
    hide Params, Upto0, Sized, Value, Run, Sequence, Finish, Clamp, Digital;
    FirstColumn(Value(b, 0), t.cols);
    var u := TwoParamSequence(t, a, b, 'H');
    FinishCursor(u, Value(a, 0), Value(b, 0));
  }

  // So with DECSTBM: given both margins, the region becomes the whole screen,
  // which is what was asked for exactly when the margins were its edges.
  lemma RegionFromTwoParams(t: Term, a: string, b: string)
    requires Inv(t) && Idle(t) && AllDigits(a) && AllDigits(b) && |a| + |b| < CSI_MAX
    ensures var u, p, q := Run(t, Sequence(a + ";" + b) + "r"), Value(a, 0), Value(b, 0);
      && u.top == 0 && u.bottom == t.rows - 1 && u.x == 0 && u.y == 0
      && (1 <= p < q <= t.rows ==> (u.top == p - 1 && u.bottom == q - 1 <==> p == 1 && q == t.rows))
  {
    hide Params, Upto0, Sized, Value, Run, Sequence, Finish;
    var u := TwoParamSequence(t, a, b, 'r');
    FinishRegion(u, Value(a, 0), Value(b, 0));
  }
}
