// breezybox_exec and parse_args (breezy_exec.c) as they run: scanning a line
// buffer in place and writing NULs into it.

module ShellBuffer {
  import opened CStrings
  import opened ShellScript

  // The buffer holds the C string s at position i.
  ghost predicate Holds(buf: seq<char>, i: nat, s: string)
  {
    i + |s| < |buf| && buf[i..i + |s|] == s && buf[i + |s|] == '\0' && '\0' !in s
  }

  // A suffix of the string, a string cut at a NUL, and a buffer changed elsewhere.
  lemma HoldsSuffix(buf: seq<char>, i: nat, s: string, k: nat)
    requires Holds(buf, i, s) && k <= |s|
    ensures Holds(buf, i + k, s[k..])
  {
    assert buf[i + k..i + |s|] == buf[i..i + |s|][k..];
  }

  lemma HoldsChar(buf: seq<char>, i: nat, s: string, k: nat)
    requires Holds(buf, i, s) && k <= |s|
    ensures i + k < |buf| && buf[i + k] == if k < |s| then s[k] else '\0'
  {
    assert k < |s| ==> buf[i..i + |s|][k] == buf[i + k];
  }

  lemma HoldsClean(buf: seq<char>, i: nat, s: string)
    requires Holds(buf, i, s)
    ensures '\0' !in s
  {
  }

  ghost predicate SameFrom(a: seq<char>, b: seq<char>, i: nat)
  {
    |a| == |b| && i <= |a| && a[i..] == b[i..]
  }

  lemma SameFromLater(a: seq<char>, b: seq<char>, i: nat, j: nat)
    requires SameFrom(a, b, i) && i <= j <= |a|
    ensures SameFrom(a, b, j)
  {
    assert a[j..] == a[i..][j - i..] && b[j..] == b[i..][j - i..];
  }

  lemma HoldsSame(a: seq<char>, b: seq<char>, i: nat, s: string)
    requires Holds(a, i, s) && SameFrom(a, b, i)
    ensures Holds(b, i, s)
  {
    assert a[i..][..|s|] == a[i..i + |s|] && b[i..][..|s|] == b[i..i + |s|];
    assert a[i..][|s|] == b[i..][|s|];
  }

  lemma HoldsCut(a: seq<char>, b: seq<char>, i: nat, s: string, k: nat)
    requires Holds(a, i, s) && k <= |s| && |a| == |b| && b == a[i + k := '\0']
    ensures Holds(b, i, s[..k])
  {
    assert b[i..i + k] == a[i..i + |s|][..k];
  }

  // A string put at the k-th byte of s, what precedes it left as it was.
  lemma HoldsBefore(a: seq<char>, b: seq<char>, i: nat, s: string, k: nat, r: string)
    requires Holds(a, i, s) && k <= |s| && Holds(b, i + k, r)
    requires i + k + |r| <= |a| && b[..i + k + |r|] == a[..i + k + |r|]
    ensures Holds(b, i, s[..k] + r)
  {
    assert b[i..i + k] == b[..i + k + |r|][i..i + k];
    assert a[i..i + k] == a[..i + k + |r|][i..i + k];
    assert a[i..i + k] == a[i..i + |s|][..k];
    assert b[i..i + k + |r|] == b[i..i + k] + b[i + k..i + k + |r|];
  }

  method StrDup(s: string) returns (buf: array<char>)
    requires '\0' !in s
    ensures fresh(buf) && buf.Length == |s| + 1 && Holds(buf[..], 0, s)
  {
    buf := new char[|s| + 1](i => if 0 <= i < |s| then s[i] else '\0');
    assert buf[..][0..|s|] == s;
  }

  method StrLen(buf: array<char>, i: nat, ghost s: string) returns (n: nat)
    requires Holds(buf[..], i, s)
    ensures n == |s|
  {
    n := 0;
    HoldsChar(buf[..], i, s, 0);
    while buf[i + n] != '\0'
      decreases |s| - n
      invariant n <= |s| && buf[i + n] == if n < |s| then s[n] else '\0'
    {
      n := n + 1;
      HoldsChar(buf[..], i, s, n);
    }
  }

  // trim_in_place: skips blanks in front, and overwrites those behind.
  method TrimInPlace(buf: array<char>, i: nat, ghost s: string) returns (t: nat)
    requires Holds(buf[..], i, s)
    modifies buf
    ensures Holds(buf[..], t, Trim(s))
    ensures if Trim(s) == "" then SameFrom(old(buf[..]), buf[..], i) else Holds(buf[..], i, TrimRight(s))
    ensures SameFrom(old(buf[..]), buf[..], i + |s|)
  {
    t := SkipBlanks(buf, i, s);
    ghost var l := TrimLeft(s);
    EraseBlanks(buf, t, l);
    if TrimRight(l) != "" {
      TrimRightAppend(s[..t - i], l);
      assert s == s[..t - i] + l;
      HoldsBefore(old(buf[..]), buf[..], i, s, t - i, TrimRight(l));
    } else {
      TrimmedLeft(s);
    }
  }

  lemma {:induction false} TrimmedLeft(s: string)
    ensures TrimLeft(s) != "" ==> TrimLeft(s)[0] != ' ' && TrimRight(TrimLeft(s)) != ""
  {
    if s != "" {
      if s[0] == ' ' { TrimmedLeft(s[1..]); } else { TrimRightKeeps(s); }
    }
  }

  method SkipBlanks(buf: array<char>, i: nat, ghost s: string) returns (t: nat)
    requires Holds(buf[..], i, s)
    ensures i <= t && t + |TrimLeft(s)| == i + |s| && TrimLeft(s) == s[t - i..]
    ensures Holds(buf[..], t, TrimLeft(s))
  {
    t := i;
    ghost var l := s;
    HoldsChar(buf[..], t, l, 0);
    while buf[t] == ' '
      invariant i <= t && t + |l| == i + |s| && l == s[t - i..]
      invariant Holds(buf[..], t, l) && TrimLeft(s) == TrimLeft(l)
      invariant buf[t] == if l == "" then '\0' else l[0]
      decreases |l|
    {
      HoldsSuffix(buf[..], t, l, 1);
      t, l := t + 1, l[1..];
      HoldsChar(buf[..], t, l, 0);
    }
  }

  method EraseBlanks(buf: array<char>, t: nat, ghost s: string)
    requires Holds(buf[..], t, s)
    modifies buf
    ensures Holds(buf[..], t, TrimRight(s)) && |TrimRight(s)| <= |s|
    ensures buf[..t + |TrimRight(s)|] == old(buf[..t + |TrimRight(s)|])
    ensures SameFrom(old(buf[..]), buf[..], t + |s|)
    ensures TrimRight(s) == s ==> buf[..] == old(buf[..])
  {
    var len := StrLen(buf, t, s);
    ghost var l := s;
    while len > 0 && buf[t + len - 1] == ' '
      invariant len == |l| <= |s| && Holds(buf[..], t, l)
      invariant TrimRight(l) == TrimRight(s)
      invariant buf[..t + len] == old(buf[..t + len])
      invariant SameFrom(old(buf[..]), buf[..], t + |s|)
      invariant len < |s| || buf[..] == old(buf[..])
    {
      HoldsChar(buf[..], t, l, len - 1);
      ghost var was := buf[..];
      len := len - 1;
      buf[t + len] := '\0';
      HoldsCut(was, buf[..], t, l, len);
      assert was[..t + len] == buf[..t + len] && was[..t + len + 1][..t + len] == was[..t + len];
      l := l[..len];
    }
    if len > 0 {
      HoldsChar(buf[..], t, l, len - 1);
    }
  }
}

module ShellExec {
  import opened CStrings
  import opened ShellScript
  import opened ShellBuffer
  import L = ShellLaws

  ghost predicate IsOperator(op: string)
  {
    op == "&&" || op == ";"
  }

  // strncmp(p, op, strlen(op)) == 0: the comparison stops at the first NUL.
  method StartsWith(buf: array<char>, i: nat, op: string, ghost s: string) returns (b: bool)
    requires Holds(buf[..], i, s) && '\0' !in op
    ensures b == (op <= s)
  {
    var n := 0;
    HoldsChar(buf[..], i, s, 0);
    while n < |op| && buf[i + n] == op[n]
      invariant n <= |op| && n <= |s| && op[..n] == s[..n]
      invariant buf[i + n] == if n < |s| then s[n] else '\0'
    {
      n := n + 1;
      HoldsChar(buf[..], i, s, n);
    }
    b := n == |op|;
    assert b ==> op == op[..n];
  }

  // Reading on past a byte that does not start an operator outside quotes.
  lemma FindStep(s: string, q: Option<char>, op: string)
    ensures s == "" ==> Find(s, q, op) == None
    ensures s != "" && q.None? && !IsQuote(s[0]) && op <= s ==> Find(s, q, op) == Some(0)
    ensures s != "" && !(q.None? && !IsQuote(s[0]) && op <= s) ==>
      Find(s, q, op) == Shift(Find(s[1..], QuoteAfter(q, s[0]), op), 1)
  {
  }

  method FindTopLevelOperator(buf: array<char>, i: nat, op: string, ghost s: string)
    returns (at: Option<nat>)
    requires Holds(buf[..], i, s) && IsOperator(op)
    ensures at == Shift(Find(s, None, op), i)
  {
    hide Holds, Find;
    var quote: Option<char> := None;
    var p: nat := i;
    ghost var l := s;
    HoldsChar(buf[..], p, l, 0);
    while buf[p] != '\0'
      invariant i <= p < buf.Length && Holds(buf[..], p, l)
      invariant buf[p] == if l == "" then '\0' else l[0]
      invariant Find(s, None, op) == Shift(Find(l, quote, op), p - i)
      decreases |l|
    {
      FindStep(l, quote, op);
      if quote.Some? {
        if buf[p] == quote.value {
          quote := None;
        }
      } else if buf[p] == '"' || buf[p] == '\'' {
        quote := Some(buf[p]);
      } else {
        var here := StartsWith(buf, p, op, l);
        if here {
          return Some(p);
        }
      }
      HoldsSuffix(buf[..], p, l, 1);
      p, l := p + 1, l[1..];
      HoldsChar(buf[..], p, l, 0);
    }
    assert '\0' !in l by { HoldsClean(buf[..], p, l); }
    FindStep(l, quote, op);
    at := None;
  }

  method ReadSegment(buf: array<char>, i: nat, ghost s: string) returns (cmd: string)
    requires Holds(buf[..], i, s)
    ensures cmd == s
  {
    var n := StrLen(buf, i, s);
    cmd := buf[i..i + n];
  }

  // One command: trim it, and run it unless nothing is left.
  method RunSegment(buf: array<char>, i: nat, ghost raw: string, final: bool, sh: Shell, oracle: Oracle)
    returns (next: Shell)
    requires Holds(buf[..], i, raw)
    modifies buf
    ensures next == RunCommand(raw, final, sh, oracle)
    ensures SameFrom(old(buf[..]), buf[..], i + |raw|)
  {
    var t := TrimInPlace(buf, i, raw);
    HoldsChar(buf[..], t, Trim(raw), 0);
    if buf[t] != '\0' {
      var cmd := ReadSegment(buf, t, Trim(raw));
      next := Shell(sh.ran + [cmd], oracle(sh.ran + [cmd]));
    } else if final {
      next := sh;
    } else {
      next := sh.(ret := 0);
    }
  }

  // What is left to run once a command before `&&` has failed.
  ghost function Skipped(s: string, sh: Shell, oracle: Oracle): Shell
  {
    var p := Parse(s, None);
    if p.Last? then sh else RunScript(p.rest, sh, oracle)
  }

  lemma SkippedStep(s: string, sh: Shell, oracle: Oracle)
    ensures var b := Find(s, None, ";");
      Skipped(s, sh, oracle) == if b.None? then sh else RunScript(Parse(s[b.value + 1..], None), sh, oracle)
  {
    CutAtSemicolon(s, None);
  }

  lemma SkippedBlank(s: string, sh: Shell, oracle: Oracle)
    requires Trim(s) == ""
    ensures RunScript(Parse(s, None), sh, oracle) == Skipped(s, sh, oracle)
  {
    ParseBlank(s);
  }

  // Past the next `;` that is followed by anything but blanks.
  method SkipList(buf: array<char>, i: nat, ghost s: string, ghost sh: Shell, ghost oracle: Oracle)
    returns (cursor: Option<nat>, ghost rest: string)
    requires Holds(buf[..], i, s)
    modifies buf
    ensures cursor.None? ==> Skipped(s, sh, oracle) == sh
    ensures cursor.Some? ==> Holds(buf[..], cursor.value, rest) && |rest| < |s|
    ensures cursor.Some? ==> Skipped(s, sh, oracle) == RunScript(Parse(rest, None), sh, oracle)
  {
    hide Holds, RunScript, Parse, Trim, TrimRight, Skipped, Find;
    var c: nat := i;
    rest := s;
    while true
      invariant Holds(buf[..], c, rest) && |rest| <= |s|
      invariant Skipped(s, sh, oracle) == Skipped(rest, sh, oracle)
      decreases |rest|
    {
      var next := FindTopLevelOperator(buf, c, ";", rest);
      SkippedStep(rest, sh, oracle);
      if next.None? {
        return None, rest;
      }
      HoldsSuffix(buf[..], c, rest, next.value + 1 - c);
      c, rest := next.value + 1, rest[next.value + 1 - c..];
      ghost var was := buf[..];
      var t := TrimInPlace(buf, c, rest);
      HoldsChar(buf[..], t, Trim(rest), 0);
      if buf[t] != '\0' {
        RunTrimRight(rest, sh, oracle);
        TrimRightShorter(rest);
        HoldsClean(buf[..], t, Trim(rest));
        return Some(c), TrimRight(rest);
      }
      TrimmedEmpty(buf[..], t, Trim(rest));
      HoldsSame(was, buf[..], c, rest);
      SkippedBlank(rest, sh, oracle);
    }
  }

  lemma TrimRightShorter(s: string)
    ensures |TrimRight(s)| <= |s|
  {
  }

  lemma TrimmedEmpty(buf: seq<char>, t: nat, s: string)
    requires Holds(buf, t, s) && buf[t] == '\0'
    ensures s == ""
  {
    HoldsChar(buf, t, s, 0);
  }

  // What the script of a line is worth once its first operator is found.
  lemma RunCut(s: string, sh: Shell, oracle: Oracle)
    ensures var a, b := Find(s, None, "&&"), Find(s, None, ";");
      RunScript(Parse(s, None), sh, oracle) ==
        if AndFirst(a, b) then
          var next, rest := RunCommand(s[..a.value], false, sh, oracle), s[a.value + 2..];
          if next.ret != 0 then Skipped(rest, next, oracle) else RunScript(Parse(rest, None), next, oracle)
        else if b.Some? then
          RunScript(Parse(s[b.value + 1..], None), RunCommand(s[..b.value], false, sh, oracle), oracle)
        else RunCommand(s, true, sh, oracle)
  {
    hide Parse, Find, RunCommand;
    CutAtFirst(s, None);
  }

  // The command up to the operator at sep, which becomes its end.
  method RunUpTo(buf: array<char>, i: nat, ghost s: string, sep: nat, width: nat, sh: Shell, oracle: Oracle)
    returns (next: Shell)
    requires Holds(buf[..], i, s) && i <= sep && 0 < width && sep + width <= i + |s|
    modifies buf
    ensures next == RunCommand(s[..sep - i], false, sh, oracle)
    ensures Holds(buf[..], sep + width, s[sep - i + width..])
  {
    ghost var rest := s[sep - i + width..];
    HoldsSuffix(buf[..], i, s, sep - i + width);
    ghost var was := buf[..];
    buf[sep] := '\0';
    HoldsCut(was, buf[..], i, s, sep - i);
    hide Holds, RunCommand;
    HoldsSame(was, buf[..], sep + width, rest);
    was := buf[..];
    next := RunSegment(buf, i, s[..sep - i], false, sh, oracle);
    SameFromLater(was, buf[..], sep, sep + width);
    HoldsSame(was, buf[..], sep + width, rest);
  }

  // What is left of the run: done with `sh`, or `rest` still to be run after it.
  ghost function Left(cursor: Option<nat>, rest: string, sh: Shell, oracle: Oracle): Shell
  {
    if cursor.None? then sh else RunScript(Parse(rest, None), sh, oracle)
  }

  // One turn of the loop: up to the first operator, or to the end of the line.
  method RunNext(line: array<char>, cursor: nat, ghost s: string, sh: Shell, oracle: Oracle)
    returns (at: Option<nat>, ghost rest: string, next: Shell)
    requires Holds(line[..], cursor, s)
    modifies line
    ensures at.Some? ==> Holds(line[..], at.value, rest) && |rest| < |s|
    ensures Left(at, rest, next, oracle) == RunScript(Parse(s, None), sh, oracle)
  {
    hide Holds, RunCommand, Find, RunScript, Parse, Skipped;
    var andPos := FindTopLevelOperator(line, cursor, "&&", s);
    var semiPos := FindTopLevelOperator(line, cursor, ";", s);
    RunCut(s, sh, oracle);
    if andPos.Some? && (semiPos.None? || andPos.value < semiPos.value) {
      next := RunUpTo(line, cursor, s, andPos.value, 2, sh, oracle);
      rest := s[andPos.value - cursor + 2..];
      if next.ret != 0 {
        at, rest := SkipList(line, andPos.value + 2, rest, next, oracle);
      } else {
        at := Some(andPos.value + 2);
      }
    } else if semiPos.Some? {
      next := RunUpTo(line, cursor, s, semiPos.value, 1, sh, oracle);
      at, rest := Some(semiPos.value + 1), s[semiPos.value - cursor + 1..];
    } else {
      next := RunSegment(line, cursor, s, true, sh, oracle);
      at, rest := None, "";
    }
  }

  // breezybox_exec: the commands run and the result are those of the script, for
  // every line and whatever the commands return.
  method Exec(cmdline: string, oracle: Oracle) returns (ran: seq<string>, ret: int)
    requires '\0' !in cmdline
    ensures Shell(ran, ret) == RunScript(Parse(cmdline, None), Shell([], 0), oracle)
    ensures exists ps :: L.IsRun(L.Segments(Parse(cmdline, None)), ps, ran, ret, oracle)
    ensures ret == 0 || (ran != [] && ret == oracle(ran))
  {
    CodeOfRun(cmdline, oracle);
    L.RunIsRun(Parse(cmdline, None), oracle);
    if cmdline == "" {
      return [], 0;
    }
    hide Holds, RunScript, Parse, L.IsRun, L.Segments;
    var line := StrDup(cmdline);
    var sh := Shell([], 0);
    var cursor: Option<nat> := Some(0);
    ghost var s := cmdline;
    while cursor.Some?
      invariant fresh(line) && (cursor.Some? ==> Holds(line[..], cursor.value, s))
      invariant Left(cursor, s, sh, oracle) == RunScript(Parse(cmdline, None), Shell([], 0), oracle)
      decreases cursor.Some?, |s|
    {
      cursor, s, sh := RunNext(line, cursor.value, s, sh, oracle);
    }
    ran, ret := sh.ran, sh.ret;
  }

  lemma CodeOfRun(cmdline: string, oracle: Oracle)
    ensures var sh := RunScript(Parse(cmdline, None), Shell([], 0), oracle);
      sh.ret == 0 || (sh.ran != [] && sh.ret == oracle(sh.ran))
  {
    hide RunScript, Parse, L.Segments, L.Follows;
    var p := Parse(cmdline, None);
    var sh, ss := RunScript(p, Shell([], 0), oracle), L.Segments(p);
    L.RunIsRun(p, oracle);
    var ps :| L.IsRun(ss, ps, sh.ran, sh.ret, oracle);
    L.CodeIsFromLast(ss, ps, oracle, |ss|);
  }
}
