// What a run of a command line means, segment by segment, and what text spells
// which script.

module ShellLaws {
  import opened CStrings
  import opened ShellScript

  // ---- segments in line order ----

  // What stands behind a segment.
  datatype Op = AndNext | Semicolon | EndOfLine

  datatype Segment = Segment(raw: string, op: Op)

  function ListSegments(l: AndList, op: Op): seq<Segment>
  {
    match l
    case Cmd(raw) => [Segment(raw, op)]
    case And(raw, rest) => [Segment(raw, AndNext)] + ListSegments(rest, op)
  }

  function Segments(p: Script): seq<Segment>
  {
    match p
    case Last(l) => ListSegments(l, EndOfLine)
    case Then(l, rest) => ListSegments(l, Semicolon) + Segments(rest)
  }

  function OpText(op: Op): string
  {
    match op
    case AndNext => "&&"
    case Semicolon => ";"
    case EndOfLine => ""
  }

  function Text(ss: seq<Segment>): string
  {
    if ss == [] then "" else ss[0].raw + OpText(ss[0].op) + Text(ss[1..])
  }

  lemma {:induction false} TextConcat(a: seq<Segment>, b: seq<Segment>)
    ensures Text(a + b) == Text(a) + Text(b)
  {
    if a == [] {
      assert a + b == b;
    } else {
      assert (a + b)[1..] == a[1..] + b;
      TextConcat(a[1..], b);
    }
  }

  lemma {:induction false} ListText(l: AndList, op: Op)
    ensures Text(ListSegments(l, op)) == UnparseList(l) + OpText(op)
  {
    match l
    case Cmd(raw) =>
    case And(raw, rest) => ListText(rest, op);
  }

  lemma {:induction false} ScriptText(p: Script)
    ensures Text(Segments(p)) == Unparse(p)
  {
    match p
    case Last(l) => ListText(l, EndOfLine);
    case Then(l, rest) =>
      ListText(l, Semicolon);
      ScriptText(rest);
      TextConcat(ListSegments(l, Semicolon), Segments(rest));
  }

  // The segments of a line are the line.
  lemma SegmentsAreTheLine(s: string)
    ensures Text(Segments(Parse(s, None))) == s
  {
    ParseLosesNothing(s, None);
    ScriptText(Parse(s, None));
  }

  // ---- blanks around a command ----

  function Blanks(n: nat): string { seq(n, _ => ' ') }

  predicate NoOuterBlanks(t: string)
  {
    t == "" || (t[0] != ' ' && t[|t| - 1] != ' ')
  }

  lemma {:induction false} TrimLeftIs(s: string) returns (n: nat)
    ensures s == Blanks(n) + TrimLeft(s) && (TrimLeft(s) != "" ==> TrimLeft(s)[0] != ' ')
  {
    n := 0;
    if s != "" && s[0] == ' ' {
      var m := TrimLeftIs(s[1..]);
      n := m + 1;
      assert s == [' '] + s[1..] && [' '] + Blanks(m) == Blanks(n);
    } else {
      assert Blanks(0) + s == s;
    }
  }

  lemma {:induction false} TrimRightIs(s: string) returns (n: nat)
    ensures s == TrimRight(s) + Blanks(n) && (TrimRight(s) != "" ==> TrimRight(s)[|TrimRight(s)| - 1] != ' ')
  {
    n := 0;
    if s != "" && s[|s| - 1] == ' ' {
      var m := TrimRightIs(s[..|s| - 1]);
      n := m + 1;
      assert s == s[..|s| - 1] + [' '] && Blanks(m) + [' '] == Blanks(n);
    } else {
      assert s + Blanks(0) == s;
    }
  }

  // A trimmed segment is the segment without the blanks around it.
  lemma TrimIs(raw: string) returns (i: nat, j: nat)
    ensures raw == Blanks(i) + Trim(raw) + Blanks(j) && NoOuterBlanks(Trim(raw))
  {
    i := TrimLeftIs(raw);
    j := TrimRightIs(TrimLeft(raw));
    hide TrimLeft, TrimRight;
    var l, t := TrimLeft(raw), Trim(raw);
    assert raw == Blanks(i) + t + Blanks(j);
    assert t != "" ==> t[0] == l[0];
  }

  // ---- a run ----

  // Where a run stands between two segments: whether the next one is reached, what
  // has run, and the last return code.
  datatype Point = Point(reached: bool, ran: seq<string>, code: int)

  // What a segment does. A command that is reached runs and its code is the code; a
  // blank one gives 0, at the end of the line nothing. `&&` lets the next segment be
  // reached on 0 only, `;` always.
  predicate Moves(g: Segment, a: Point, b: Point, oracle: Oracle)
  {
    var cmd := Trim(g.raw);
    && b.ran == (if a.reached && cmd != "" then a.ran + [cmd] else a.ran)
    && (a.reached && cmd != "" ==> b.code == oracle(b.ran))
    && (a.reached && cmd == "" ==> b.code == if g.op == EndOfLine then a.code else 0)
    && (!a.reached ==> b.code == a.code)
    && (g.op == AndNext ==> (b.reached <==> a.reached && b.code == 0))
    && (g.op == Semicolon ==> b.reached)
  }

  predicate Follows(ss: seq<Segment>, ps: seq<Point>, oracle: Oracle)
  {
    |ps| == |ss| + 1 && forall i :: 0 <= i < |ss| ==> Moves(ss[i], ps[i], ps[i + 1], oracle)
  }

  // From an empty shell to what ran and the result.
  predicate IsRun(ss: seq<Segment>, ps: seq<Point>, ran: seq<string>, ret: int, oracle: Oracle)
  {
    && Follows(ss, ps, oracle) && ps[0] == Point(true, [], 0)
    && ran == ps[|ss|].ran && ret == ps[|ss|].code
  }

  lemma FollowsConcat(s1: seq<Segment>, p1: seq<Point>, s2: seq<Segment>, p2: seq<Point>, oracle: Oracle)
    requires Follows(s1, p1, oracle) && Follows(s2, p2, oracle) && p1[|s1|] == p2[0]
    ensures Follows(s1 + s2, p1 + p2[1..], oracle)
    ensures (p1 + p2[1..])[0] == p1[0] && (p1 + p2[1..])[|s1| + |s2|] == p2[|s2|]
  {
    hide Moves;
    var ss, ps := s1 + s2, p1 + p2[1..];
    forall i | 0 <= i < |ss| ensures Moves(ss[i], ps[i], ps[i + 1], oracle) {
      if i < |s1| {
        assert Moves(s1[i], p1[i], p1[i + 1], oracle);
      } else {
        assert Moves(s2[i - |s1|], p2[i - |s1|], p2[i - |s1| + 1], oracle);
      }
    }
  }

  function ShellOf(p: Point): Shell { Shell(p.ran, p.code) }

  lemma {:induction false} ListRuns(l: AndList, op: Op, a: Point, oracle: Oracle) returns (ps: seq<Point>)
    requires op != AndNext
    ensures |ps| == |ListSegments(l, op)| + 1 && Follows(ListSegments(l, op), ps, oracle) && ps[0] == a
    ensures var z := ps[|ListSegments(l, op)|];
      && (op == Semicolon ==> z.reached)
      && ShellOf(z) == if a.reached then RunList(l, op == EndOfLine, ShellOf(a), oracle) else ShellOf(a)
    decreases l
  {
    match l
    case Cmd(raw) =>
      var sh := if a.reached then RunCommand(raw, op == EndOfLine, ShellOf(a), oracle) else ShellOf(a);
      ps := [a, Point(op == Semicolon, sh.ran, sh.ret)];
    case And(raw, rest) =>
      var sh := if a.reached then RunCommand(raw, false, ShellOf(a), oracle) else ShellOf(a);
      var b := Point(a.reached && sh.ret == 0, sh.ran, sh.ret);
      var more := ListRuns(rest, op, b, oracle);
      hide ListSegments;
      FirstSegment(raw, rest, op);
      FollowsConcat([Segment(raw, AndNext)], [a, b], ListSegments(rest, op), more, oracle);
      ps := [a, b] + more[1..];
  }

  lemma FirstSegment(raw: string, rest: AndList, op: Op)
    ensures ListSegments(And(raw, rest), op) == [Segment(raw, AndNext)] + ListSegments(rest, op)
  {
  }

  lemma {:induction false} ScriptRuns(p: Script, a: Point, oracle: Oracle) returns (ps: seq<Point>)
    requires a.reached
    ensures |ps| == |Segments(p)| + 1 && Follows(Segments(p), ps, oracle) && ps[0] == a
    ensures ShellOf(ps[|Segments(p)|]) == RunScript(p, ShellOf(a), oracle)
    decreases p
  {
    hide Follows;
    match p
    case Last(l) =>
      ps := ListRuns(l, EndOfLine, a, oracle);
    case Then(l, rest) =>
      var p1 := ListRuns(l, Semicolon, a, oracle);
      var p2 := ScriptRuns(rest, p1[|ListSegments(l, Semicolon)|], oracle);
      FollowsConcat(ListSegments(l, Semicolon), p1, Segments(rest), p2, oracle);
      ps := p1 + p2[1..];
  }

  // The interpreter runs the segments of the line by those rules.
  lemma RunIsRun(p: Script, oracle: Oracle)
    ensures var sh := RunScript(p, Shell([], 0), oracle);
      exists ps :: IsRun(Segments(p), ps, sh.ran, sh.ret, oracle)
  {
    hide Follows, RunScript;
    var ps := ScriptRuns(p, Point(true, [], 0), oracle);
    var sh := RunScript(p, Shell([], 0), oracle);
    assert IsRun(Segments(p), ps, sh.ran, sh.ret, oracle);
  }

  // ---- laws of a run ----

  // The commands are segments of the line in line order, each trimmed, and every
  // point of the run has run a prefix of them.
  lemma {:induction false} RanGrows(ss: seq<Segment>, ps: seq<Point>, oracle: Oracle, i: nat, j: nat)
    requires Follows(ss, ps, oracle) && i <= j <= |ss|
    ensures ps[i].ran <= ps[j].ran && |ps[j].ran| <= |ps[i].ran| + (j - i)
    decreases j - i
  {
    if i < j {
      RanGrows(ss, ps, oracle, i, j - 1);
      assert Moves(ss[j - 1], ps[j - 1], ps[j], oracle);
    }
  }

  // The result is 0 or what the last command returned; it is the latter when no
  // segment in front of an operator is blank and something ran.
  lemma {:induction false} CodeIsFromLast(ss: seq<Segment>, ps: seq<Point>, oracle: Oracle, n: nat)
    requires Follows(ss, ps, oracle) && n <= |ss| && ps[0] == Point(true, [], 0)
    ensures ps[n].code == 0 || (ps[n].ran != [] && ps[n].code == oracle(ps[n].ran))
    ensures ps[n].ran != [] && (forall i :: 0 <= i < n && ss[i].op != EndOfLine ==> Trim(ss[i].raw) != "") ==>
      ps[n].code == oracle(ps[n].ran)
  {
    if n > 0 {
      CodeIsFromLast(ss, ps, oracle, n - 1);
      assert Moves(ss[n - 1], ps[n - 1], ps[n], oracle);
    }
  }

  // Of two commands joined by `&&`, the first of which runs, the second runs if and
  // only if the first returned 0.
  lemma AndGates(ss: seq<Segment>, ps: seq<Point>, oracle: Oracle, i: nat)
    requires Follows(ss, ps, oracle) && i + 1 < |ss| && ps[i].reached && ss[i].op == AndNext
    requires var x, y := Trim(ss[i].raw), Trim(ss[i + 1].raw); x != "" && y != ""
    ensures var ran, y := ps[i].ran + [Trim(ss[i].raw)], Trim(ss[i + 1].raw);
      if oracle(ran) == 0 then ps[i + 2].ran == ran + [y] && ps[i + 2].code == oracle(ran + [y])
      else ps[i + 2].ran == ran && ps[i + 2].code == oracle(ran)
  {
    assert Moves(ss[i], ps[i], ps[i + 1], oracle);
    assert Moves(ss[i + 1], ps[i + 1], ps[i + 2], oracle);
  }

  // A list is left at its first failure: nothing more of it runs, its code stays,
  // and the next list starts.
  lemma {:induction false} FailureEndsList(ss: seq<Segment>, ps: seq<Point>, oracle: Oracle, i: nat, j: nat)
    requires Follows(ss, ps, oracle) && i < j < |ss| && ps[i + 1].code != 0
    requires forall k :: i <= k < j ==> ss[k].op == AndNext
    ensures ps[j + 1].ran == ps[i + 1].ran && ps[j + 1].code == ps[i + 1].code
    ensures ss[j].op == Semicolon ==> ps[j + 1].reached
    decreases j
  {
    assert Moves(ss[i], ps[i], ps[i + 1], oracle);
    if j > i + 1 {
      FailureEndsList(ss, ps, oracle, i, j - 1);
    }
    assert Moves(ss[j - 1], ps[j - 1], ps[j], oracle);
    assert Moves(ss[j], ps[j], ps[j + 1], oracle);
  }

  // ---- which text spells which script ----

  // What a command may be spelled of: a character that means nothing to the shell,
  // a `&` that stands alone, and a quoted stretch, operators in it included.
  datatype Piece = Char(c: char) | Amp(next: char) | Quoted(q: char, body: string)

  predicate Inert(c: char) { !IsQuote(c) && c != ';' && c != '&' }

  predicate PieceOk(p: Piece)
  {
    match p
    case Char(c) => Inert(c)
    case Amp(c) => Inert(c)
    case Quoted(q, body) => IsQuote(q) && q !in body
  }

  function PieceText(p: Piece): string
  {
    match p
    case Char(c) => [c]
    case Amp(c) => ['&', c]
    case Quoted(q, body) => [q] + body + [q]
  }

  function Spelling(ps: seq<Piece>): string
  {
    if ps == [] then "" else PieceText(ps[0]) + Spelling(ps[1..])
  }

  // Text put in front of the first command.
  function AddText(t: string, p: Script): Script { p.(list := p.list.(raw := t + p.list.raw)) }

  lemma ParseChar(c: char, rest: string)
    requires c != ';' && (c == '&' ==> rest == "" || rest[0] != '&')
    ensures Parse([c] + rest, None) == AddText([c], Parse(rest, QuoteAfter(None, c)))
  {
    var s := [c] + rest;
    assert s[1..] == rest;
    assert |s| > 1 ==> s[1] == rest[0];
    assert !("&&" <= s);
  }

  lemma AddAddText(x: string, y: string, p: Script)
    ensures AddText(x, AddText(y, p)) == AddText(x + y, p)
  {
    assert x + (y + p.list.raw) == x + y + p.list.raw;
  }

  lemma {:induction false} ParseQuoted(q: char, body: string, rest: string)
    requires IsQuote(q) && q !in body
    ensures Parse(body + [q] + rest, Some(q)) == AddText(body + [q], Parse(rest, None))
  {
    var s := body + [q] + rest;
    if body == "" {
      assert s == [q] + rest && s[0] == q && s[1..] == rest;
      assert body + [q] == [q];
      assert Parse(s, Some(q)) == AddChar(q, Parse(rest, None));
    } else {
      assert s[0] == body[0] && s[1..] == body[1..] + [q] + rest;
      ParseQuoted(q, body[1..], rest);
      AddAddText([body[0]], body[1..] + [q], Parse(rest, None));
      assert [body[0]] + (body[1..] + [q]) == body + [q];
    }
  }

  lemma ParsePiece(p: Piece, rest: string)
    requires PieceOk(p)
    ensures Parse(PieceText(p) + rest, None) == AddText(PieceText(p), Parse(rest, None))
  {
    hide Parse;
    match p
    case Char(c) => ParseChar(c, rest);
    case Amp(c) =>
      assert PieceText(p) + rest == ['&'] + ([c] + rest);
      ParseChar('&', [c] + rest);
      ParseChar(c, rest);
      AddAddText(['&'], [c], Parse(rest, None));
      assert ['&'] + [c] == PieceText(p);
    case Quoted(q, body) =>
      assert PieceText(p) + rest == [q] + (body + [q] + rest);
      ParseChar(q, body + [q] + rest);
      ParseQuoted(q, body, rest);
      AddAddText([q], body + [q], Parse(rest, None));
      assert [q] + (body + [q]) == [q] + body + [q];
  }

  lemma {:induction false} ParseSpelling(ps: seq<Piece>, rest: string)
    requires forall p :: p in ps ==> PieceOk(p)
    ensures Parse(Spelling(ps) + rest, None) == AddText(Spelling(ps), Parse(rest, None))
  {
    hide Parse, PieceText, PieceOk;
    if ps == [] {
      var p := Parse(rest, None);
      assert "" + rest == rest && "" + p.list.raw == p.list.raw;
    } else {
      var t := Spelling(ps[1..]);
      assert Spelling(ps) + rest == PieceText(ps[0]) + (t + rest);
      ParsePiece(ps[0], t + rest);
      ParseSpelling(ps[1..], rest);
      AddAddText(PieceText(ps[0]), t, Parse(rest, None));
    }
  }

  ghost predicate Spelled(raw: string)
  {
    exists ps: seq<Piece> :: (forall p :: p in ps ==> PieceOk(p)) && Spelling(ps) == raw
  }

  ghost predicate ListSpelled(l: AndList)
  {
    Spelled(l.raw) && (l.And? ==> ListSpelled(l.rest))
  }

  ghost predicate ScriptSpelled(p: Script)
  {
    ListSpelled(p.list) && (p.Then? ==> ScriptSpelled(p.rest))
  }

  lemma SpelledStart(raw: string, rest: string)
    requires Spelled(raw)
    ensures Parse(raw + rest, None) == AddText(raw, Parse(rest, None))
  {
    var ps: seq<Piece> :| (forall p :: p in ps ==> PieceOk(p)) && Spelling(ps) == raw;
    ParseSpelling(ps, rest);
  }

  // The list l in front of the rest of a line, which ends or starts with `;`.
  function Before(l: AndList, p: Script): Script
  {
    match l
    case Cmd(raw) => AddText(raw, p)
    case And(raw, rest) => AddText(raw, AddAnd("", Before(rest, p)))
  }

  lemma {:induction false} ParseListText(l: AndList, rest: string)
    requires ListSpelled(l)
    ensures Parse(UnparseList(l) + rest, None) == Before(l, Parse(rest, None))
  {
    hide Spelled, Parse;
    match l
    case Cmd(raw) => SpelledStart(raw, rest);
    case And(raw, more) =>
      var t := UnparseList(more) + rest;
      assert UnparseList(l) + rest == raw + ("&&" + t);
      SpelledStart(raw, "&&" + t);
      ParseAnd(t);
      ParseListText(more, rest);
  }

  lemma ParseAnd(t: string)
    ensures Parse("&&" + t, None) == AddAnd("", Parse(t, None))
  {
    assert ("&&" + t)[2..] == t;
  }

  lemma ParseSemicolon(t: string)
    ensures Parse(";" + t, None) == Then(Cmd(""), Parse(t, None))
  {
    var s := ";" + t;
    assert s[1..] == t && s[0] == ';';
    assert !("&&" <= s);
  }

  lemma {:induction false} BeforeIs(l: AndList, p: Script)
    requires p.list == Cmd("")
    ensures Before(l, p) == p.(list := l)
  {
    match l
    case Cmd(raw) => assert raw + "" == raw;
    case And(raw, rest) =>
      BeforeIs(rest, p);
      assert raw + "" == raw;
  }

  // Any script whose commands are spelled so, quotes closed, is what its text is
  // read as: operators in quotes are not operators, all others are.
  lemma {:induction false} ScriptRoundTrip(p: Script)
    requires ScriptSpelled(p)
    ensures Parse(Unparse(p), None) == p
  {
    hide Spelled, Parse;
    match p
    case Last(l) =>
      assert UnparseList(l) + "" == UnparseList(l);
      ParseListText(l, "");
      ParseEmpty();
      BeforeIs(l, Last(Cmd("")));
    case Then(l, rest) =>
      assert Unparse(p) == UnparseList(l) + (";" + Unparse(rest));
      ParseListText(l, ";" + Unparse(rest));
      ParseSemicolon(Unparse(rest));
      ScriptRoundTrip(rest);
      BeforeIs(l, Then(Cmd(""), rest));
  }

  lemma ParseEmpty()
    ensures Parse("", None) == Last(Cmd(""))
  {
  }
}
