// What a command line means: `;`-separated lists of `&&`-separated commands,
// read in one left-to-right pass, and an interpreter for them.

module ShellScript {
  import opened CStrings

  datatype AndList = Cmd(raw: string) | And(raw: string, rest: AndList)

  datatype Script = Last(list: AndList) | Then(list: AndList, rest: Script)

  predicate IsQuote(c: char) { c == '"' || c == '\'' }

  // The open quote after reading c.
  function QuoteAfter(q: Option<char>, c: char): Option<char>
  {
    match q
    case Some(d) => if c == d then None else q
    case None => if IsQuote(c) then Some(c) else None
  }

  function AddAnd(raw: string, p: Script): Script { p.(list := And(raw, p.list)) }

  function AddChar(c: char, p: Script): Script { p.(list := p.list.(raw := [c] + p.list.raw)) }

  // One pass with one quote state, which the operators do not reset.
  function Parse(s: string, q: Option<char>): Script
  {
    if s == "" then Last(Cmd(""))
    else if q.None? && "&&" <= s then AddAnd("", Parse(s[2..], None))
    else if q.None? && s[0] == ';' then Then(Cmd(""), Parse(s[1..], None))
    else AddChar(s[0], Parse(s[1..], QuoteAfter(q, s[0])))
  }

  function TrimLeft(s: string): string
  {
    if s != "" && s[0] == ' ' then TrimLeft(s[1..]) else s
  }

  function TrimRight(s: string): string
  {
    if s != "" && s[|s| - 1] == ' ' then TrimRight(s[..|s| - 1]) else s
  }

  function Trim(s: string): string
  {
    TrimRight(TrimLeft(s))
  }

  // The commands run so far, and the last return code.
  datatype Shell = Shell(ran: seq<string>, ret: int)

  // What a command returns may depend on everything that ran before it.
  type Oracle = seq<string> -> int

  // `final`: nothing follows the command, not even an operator. An empty command
  // then keeps the last return code; before an operator it succeeds.
  function RunCommand(raw: string, final: bool, sh: Shell, oracle: Oracle): Shell
  {
    var cmd := Trim(raw);
    if cmd != "" then Shell(sh.ran + [cmd], oracle(sh.ran + [cmd]))
    else if final then sh
    else sh.(ret := 0)
  }

  function RunList(l: AndList, final: bool, sh: Shell, oracle: Oracle): Shell
  {
    match l
    case Cmd(raw) => RunCommand(raw, final, sh, oracle)
    case And(raw, rest) =>
      var next := RunCommand(raw, false, sh, oracle);
      if next.ret != 0 then next else RunList(rest, final, next, oracle)
  }

  function RunScript(p: Script, sh: Shell, oracle: Oracle): Shell
  {
    match p
    case Last(l) => RunList(l, true, sh, oracle)
    case Then(l, rest) => RunScript(rest, RunList(l, false, sh, oracle), oracle)
  }

  // ---- the script is the line ----

  function UnparseList(l: AndList): string
  {
    match l
    case Cmd(raw) => raw
    case And(raw, rest) => raw + "&&" + UnparseList(rest)
  }

  function Unparse(p: Script): string
  {
    match p
    case Last(l) => UnparseList(l)
    case Then(l, rest) => UnparseList(l) + ";" + Unparse(rest)
  }

  // Nothing of the line is lost or reordered by parsing it.
  lemma {:induction false} ParseLosesNothing(s: string, q: Option<char>)
    ensures Unparse(Parse(s, q)) == s
  {
    if s == "" {
    } else if q.None? && "&&" <= s {
      ParseLosesNothing(s[2..], None);
      assert s == "&&" + s[2..];
    } else if q.None? && s[0] == ';' {
      ParseLosesNothing(s[1..], None);
      assert s == UnparseList(Cmd("")) + ";" + s[1..];
    } else {
      ParseLosesNothing(s[1..], QuoteAfter(q, s[0]));
      UnparseChar(s[0], Parse(s[1..], QuoteAfter(q, s[0])));
      hide Unparse;
    }
  }

  lemma UnparseChar(c: char, p: Script)
    ensures Unparse(AddChar(c, p)) == [c] + Unparse(p)
  {
    assert UnparseList(AddChar(c, p).list) == [c] + UnparseList(p.list);
  }

  // ---- finding operators ----

  function Shift(k: Option<nat>, n: nat): Option<nat>
  {
    if k.None? then None else Some(k.value + n)
  }

  // The first place where op stands outside quotes.
  function Find(s: string, q: Option<char>, op: string): (k: Option<nat>)
    ensures k.Some? ==> k.value + |op| <= |s| && op <= s[k.value..]
  {
    if s == "" then None
    else if q.None? && !IsQuote(s[0]) && op <= s then Some(0)
    else Shift(Find(s[1..], QuoteAfter(q, s[0]), op), 1)
  }

  predicate AndFirst(a: Option<nat>, b: Option<nat>)
  {
    a.Some? && (b.None? || a.value < b.value)
  }

  // The script of a line whose first `&&` and `;` stand at a and b.
  function Cut(s: string, a: Option<nat>, b: Option<nat>): Script
    requires a.Some? ==> a.value + 2 <= |s|
    requires b.Some? ==> b.value + 1 <= |s|
  {
    if AndFirst(a, b) then AddAnd(s[..a.value], Parse(s[a.value + 2..], None))
    else if b.Some? then Then(Cmd(s[..b.value]), Parse(s[b.value + 1..], None))
    else Last(Cmd(s))
  }

  lemma CutChar(s: string, a: Option<nat>, b: Option<nat>)
    requires s != ""
    requires a.Some? ==> a.value + 3 <= |s|
    requires b.Some? ==> b.value + 2 <= |s|
    ensures AddChar(s[0], Cut(s[1..], a, b)) == Cut(s, Shift(a, 1), Shift(b, 1))
  {
    hide Parse;
    assert a.Some? ==> s[..a.value + 1] == [s[0]] + s[1..][..a.value]
                       && s[1..][a.value + 2..] == s[a.value + 3..];
    assert b.Some? ==> s[..b.value + 1] == [s[0]] + s[1..][..b.value]
                       && s[1..][b.value + 1..] == s[b.value + 2..];
    assert s == [s[0]] + s[1..];
  }

  // The operator that comes first cuts the line where the single pass does, and
  // reading on with a fresh quote state is reading on.
  lemma {:induction false} CutAtFirst(s: string, q: Option<char>)
    ensures Parse(s, q) == Cut(s, Find(s, q, "&&"), Find(s, q, ";"))
  {
    if s != "" && !(q.None? && "&&" <= s) && !(q.None? && s[0] == ';') {
      var r := QuoteAfter(q, s[0]);
      CutAtFirst(s[1..], r);
      CutChar(s, Find(s[1..], r, "&&"), Find(s[1..], r, ";"));
    }
  }

  // Skipping to the next `;` skips the rest of one list, whatever it holds.
  lemma {:induction false} CutAtSemicolon(s: string, q: Option<char>)
    ensures var b, p := Find(s, q, ";"), Parse(s, q);
      if b.None? then p.Last? else p.Then? && p.rest == Parse(s[b.value + 1..], None)
  {
    hide Find, QuoteAfter;
    FindSemicolon(s, q);
    if s == "" {
    } else if q.None? && "&&" <= s {
      CutAtSemicolon(s[2..], None);
      FindTwo(s);
    } else if !(q.None? && s[0] == ';') {
      CutAtSemicolon(s[1..], QuoteAfter(q, s[0]));
    }
  }

  lemma FindSemicolon(s: string, q: Option<char>)
    ensures Find(s, q, ";") ==
      if s == "" then None
      else if q.None? && s[0] == ';' then Some(0)
      else Shift(Find(s[1..], QuoteAfter(q, s[0]), ";"), 1)
  {
    assert s != "" ==> (";" <= s <==> s[0] == ';');
  }

  lemma FindTwo(s: string)
    requires "&&" <= s
    ensures Find(s, None, ";") == Shift(Find(s[2..], None, ";"), 2)
  {
    assert s[0] == '&' && s[1] == '&';
    assert s[1..][1..] == s[2..];
    assert Find(s[1..], None, ";") == Shift(Find(s[1..][1..], None, ";"), 1);
  }

  // ---- trailing blanks ----

  function PushList(l: AndList): AndList
  {
    match l
    case Cmd(raw) => Cmd(raw + " ")
    case And(raw, rest) => And(raw, PushList(rest))
  }

  function PushLast(p: Script): Script
  {
    match p
    case Last(l) => Last(PushList(l))
    case Then(l, rest) => Then(l, PushLast(rest))
  }

  lemma {:induction false} ParseTrailing(s: string, q: Option<char>)
    ensures Parse(s + " ", q) == PushLast(Parse(s, q))
  {
    var t := s + " ";
    if s == "" {
      assert t[1..] == "";
      assert t == " " && [' '] + "" == " ";
      assert !("&&" <= t);
    } else if q.None? && "&&" <= s {
      assert t[2..] == s[2..] + " ";
      ParseTrailing(s[2..], None);
    } else {
      assert t[1..] == s[1..] + " ";
      assert |s| >= 2 ==> t[..2] == s[..2];
      assert q.None? ==> !("&&" <= t) by { if |s| == 1 { assert t[1] == ' '; } }
      ParseTrailing(s[1..], if q.None? && s[0] == ';' then None else QuoteAfter(q, s[0]));
      PushAfterChar(s[0], Parse(s[1..], QuoteAfter(q, s[0])));
    }
  }

  lemma PushAfterChar(c: char, p: Script)
    ensures PushLast(AddChar(c, p)) == AddChar(c, PushLast(p))
  {
    assert [c] + (p.list.raw + " ") == [c] + p.list.raw + " ";
  }

  lemma {:induction false} TrimTrailing(s: string)
    ensures Trim(s + " ") == Trim(s)
  {
    if s != "" && s[0] == ' ' {
      assert (s + " ")[1..] == s[1..] + " ";
      TrimTrailing(s[1..]);
    } else {
      assert TrimRight(s + " ") == TrimRight(s) by { assert (s + " ")[..|s|] == s; }
      if s == "" {
        assert " "[1..] == "";
      }
    }
  }

  lemma {:induction false} RunListTrailing(l: AndList, sh: Shell, oracle: Oracle)
    ensures RunList(PushList(l), true, sh, oracle) == RunList(l, true, sh, oracle)
  {
    match l
    case Cmd(raw) => TrimTrailing(raw);
    case And(raw, rest) => RunListTrailing(rest, RunCommand(raw, false, sh, oracle), oracle);
  }

  lemma {:induction false} RunTrailing(p: Script, sh: Shell, oracle: Oracle)
    ensures RunScript(PushLast(p), sh, oracle) == RunScript(p, sh, oracle)
  {
    match p
    case Last(l) => RunListTrailing(l, sh, oracle);
    case Then(l, rest) => RunTrailing(rest, RunList(l, false, sh, oracle), oracle);
  }

  // Blanks at the end of the line change nothing, not even after an open quote.
  lemma {:induction false} RunTrimRight(s: string, sh: Shell, oracle: Oracle)
    ensures RunScript(Parse(TrimRight(s), None), sh, oracle) == RunScript(Parse(s, None), sh, oracle)
  {
    if s != "" && s[|s| - 1] == ' ' {
      var t := s[..|s| - 1];
      assert s == t + " ";
      RunTrimRight(t, sh, oracle);
      ParseTrailing(t, None);
      RunTrailing(Parse(t, None), sh, oracle);
    }
  }

  lemma {:induction false} TrimRightAppend(a: string, b: string)
    requires TrimRight(b) != ""
    ensures TrimRight(a + b) == a + TrimRight(b)
  {
    if b[|b| - 1] == ' ' {
      assert (a + b)[..|a + b| - 1] == a + b[..|b| - 1];
      TrimRightAppend(a, b[..|b| - 1]);
    }
  }

  lemma {:induction false} ParseBlank(s: string)
    requires Trim(s) == ""
    ensures Parse(s, None) == Last(Cmd(s))
  {
    if s != "" {
      if s[0] == ' ' {
        ParseBlank(s[1..]);
        assert [' '] + s[1..] == s;
        assert !("&&" <= s);
      } else {
        TrimRightKeeps(s);
      }
    }
  }

  lemma {:induction false} TrimRightKeeps(s: string)
    requires s != "" && s[0] != ' '
    ensures TrimRight(s) != ""
  {
    if s[|s| - 1] == ' ' {
      TrimRightKeeps(s[..|s| - 1]);
    }
  }
}
