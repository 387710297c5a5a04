// Every command line spells an argument list, and the tokenizer reads that list.

module ArgsSpelling {
  import opened CStrings
  import opened ShellScript
  import opened Tokenizer

  // How an argument stands on the line: as it is, between quotes, or after a quote
  // that is never closed.
  datatype Form = Bare | Between(q: char) | Open(q: char)

  // An argument and the blanks in front of it.
  datatype Word = Word(gap: nat, form: Form, arg: string)

  function Blanks(n: nat): string { seq(n, _ => ' ') }

  function WordText(w: Word): string
  {
    match w.form
    case Bare => w.arg
    case Between(q) => [q] + w.arg + [q]
    case Open(q) => [q] + w.arg
  }

  // The line: the words and the blanks at its end.
  function LineText(ws: seq<Word>, end: nat): string
  {
    if ws == [] then Blanks(end) else Blanks(ws[0].gap) + (WordText(ws[0]) + LineText(ws[1..], end))
  }

  // A bare argument is not empty, holds no blank and does not start with a quote;
  // a quote further on is part of it.
  predicate Spells(w: Word)
  {
    match w.form
    case Bare => w.arg != "" && ' ' !in w.arg && !IsQuote(w.arg[0])
    case Between(q) => IsQuote(q) && q !in w.arg
    case Open(q) => IsQuote(q) && q !in w.arg
  }

  // A bare argument needs a blank behind it, and an open quote takes the rest.
  predicate Follows(w: Word, ws: seq<Word>, end: nat)
  {
    match w.form
    case Bare => ws == [] || ws[0].gap > 0
    case Between(_) => true
    case Open(_) => ws == [] && end == 0
  }

  predicate WellSpelled(ws: seq<Word>, end: nat)
  {
    ws == [] || (Spells(ws[0]) && Follows(ws[0], ws[1..], end) && WellSpelled(ws[1..], end))
  }

  function ArgsOf(ws: seq<Word>): seq<string>
  {
    seq(|ws|, i requires 0 <= i < |ws| => ws[i].arg)
  }

  lemma {:induction false} TokensAfterBlanks(n: nat, s: string)
    ensures Tokens(Blanks(n) + s) == Tokens(s)
  {
    hide Tokens;
    if n == 0 {
      assert Blanks(0) + s == s;
    } else {
      assert Blanks(n) + s == " " + (Blanks(n - 1) + s);
      TokensBlank(Blanks(n - 1) + s);
      TokensAfterBlanks(n - 1, s);
    }
  }

  lemma {:induction false} IndexOfNone(a: string, c: char)
    requires c !in a
    ensures IndexOf(a, c) == |a|
  {
    if a != "" {
      IndexOfNone(a[1..], c);
    }
  }

  lemma FirstToken(t: string)
    requires t != "" && t[0] != ' '
    ensures Tokens(t) == [Token(t)] + Tokens(AfterToken(t))
  {
    assert TrimLeft(t) == t;
  }

  lemma BareFirst(a: string, rest: string)
    requires a != "" && ' ' !in a && !IsQuote(a[0]) && (rest != "" ==> rest[0] == ' ')
    ensures Tokens(a + rest) == [a] + Tokens(rest)
  {
    hide Tokens;
    var t := a + rest;
    assert t[0] == a[0] && a[0] in a;
    FirstToken(t);
    if rest == "" {
      IndexOfNone(a, ' ');
      assert t == a && t[..|a|] == a;
    } else {
      assert t == a + [' '] + rest[1..];
      IndexOfFirst(a, ' ', rest[1..]);
      assert t[..|a|] == a;
      assert Drop(t, |a| + 1) == rest[1..];
      assert rest == " " + rest[1..];
      TokensBlank(rest[1..]);
    }
  }

  lemma QuotedFirst(q: char, a: string, rest: string)
    requires IsQuote(q) && q !in a
    ensures Tokens([q] + a + [q] + rest) == [a] + Tokens(rest)
  {
    hide Tokens, Token, AfterToken;
    QuotedToken(a, q, rest);
    FirstToken([q] + a + [q] + rest);
  }

  // A quote that is not closed runs to the end of the line.
  lemma OpenFirst(q: char, a: string)
    requires IsQuote(q) && q !in a
    ensures Tokens([q] + a) == [a]
  {
    hide Tokens;
    var t := [q] + a;
    assert t[1..] == a;
    IndexOfNone(a, q);
    FirstToken(t);
    assert a[..|a|] == a && AfterToken(t) == "";
    NoTokens();
  }

  lemma NoTokens()
    ensures Tokens("") == []
  {
  }

  // Arguments written bare or quoted, with any blanks between them, before them and
  // behind them, are read back.
  lemma {:induction false} SpelledRoundTrip(ws: seq<Word>, end: nat)
    requires WellSpelled(ws, end)
    ensures Tokens(LineText(ws, end)) == ArgsOf(ws)
    decreases |ws|
  {
    hide Tokens, Blanks;
    if ws == [] {
      assert Blanks(end) + "" == Blanks(end);
      TokensAfterBlanks(end, "");
      NoTokens();
    } else {
      var w, rest := ws[0], LineText(ws[1..], end);
      SpelledRoundTrip(ws[1..], end);
      TokensAfterBlanks(w.gap, WordText(w) + rest);
      assert ArgsOf(ws) == [w.arg] + ArgsOf(ws[1..]);
      match w.form
      case Bare =>
        BlankStart(ws[1..], end);
        BareFirst(w.arg, rest);
      case Between(q) => QuotedFirst(q, w.arg, rest);
      case Open(q) =>
        assert rest == "" by { NoBlanks(); }
        assert WordText(w) + rest == [q] + w.arg;
        OpenFirst(q, w.arg);
    }
  }

  lemma NoBlanks()
    ensures Blanks(0) == ""
  {
  }

  lemma BlankStart(ws: seq<Word>, end: nat)
    ensures ws == [] || ws[0].gap > 0 ==> (LineText(ws, end) != "" ==> LineText(ws, end)[0] == ' ')
  {
  }

  // ---- every line is such a spelling ----

  lemma {:induction false} LeadingBlanks(s: string) returns (n: nat)
    ensures s == Blanks(n) + TrimLeft(s)
  {
    n := 0;
    if s != "" && s[0] == ' ' {
      var m := LeadingBlanks(s[1..]);
      n := m + 1;
      assert s == [' '] + s[1..] && [' '] + Blanks(m) == Blanks(n);
    } else {
      assert Blanks(0) + s == s;
    }
  }

  // The first word of a line that does not start with a blank, and what is left.
  lemma FirstWord(t: string) returns (w: Word, rest: string)
    requires t != "" && t[0] != ' '
    ensures Spells(w) && w.gap == 0 && t == WordText(w) + rest && |rest| < |t|
    ensures w.form.Bare? ==> (rest != "" ==> rest[0] == ' ')
    ensures w.form.Open? ==> rest == ""
  {
    if !IsQuote(t[0]) {
      var k := IndexOf(t, ' ');
      w, rest := Word(0, Bare, t[..k]), t[k..];
    } else {
      var k := IndexOf(t[1..], t[0]);
      var a := t[1..][..k];
      if k < |t[1..]| {
        w, rest := Word(0, Between(t[0]), a), t[1..][k + 1..];
      } else {
        w, rest := Word(0, Open(t[0]), a), "";
        assert t == [t[0]] + a;
      }
    }
  }

  lemma {:induction false} EveryLineIsSpelled(s: string) returns (ws: seq<Word>, end: nat)
    ensures WellSpelled(ws, end) && LineText(ws, end) == s
    decreases |s|
  {
    var gap := LeadingBlanks(s);
    var t := TrimLeft(s);
    TrimLeftShorter(s);
    hide TrimLeft;
    if t == "" {
      ws, end := [], gap;
    } else {
      var w, rest := FirstWord(t);
      var more;
      more, end := EveryLineIsSpelled(rest);
      StartOf(more, end, rest);
      var first := w.(gap := gap);
      ws := [first] + more;
      assert ws[1..] == more && WordText(first) == WordText(w);
    }
  }

  lemma StartOf(ws: seq<Word>, end: nat, s: string)
    requires WellSpelled(ws, end) && LineText(ws, end) == s
    ensures s == "" ==> ws == [] && end == 0
    ensures s != "" && s[0] == ' ' ==> ws == [] || ws[0].gap > 0
  {
    if ws != [] && ws[0].gap == 0 {
      assert s == WordText(ws[0]) + LineText(ws[1..], end);
    }
  }
}
