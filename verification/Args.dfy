// parse_args (breezy_exec.c): the two-pass tokenizer that hands out pointers into
// a buffer it is writing NULs into, against a pure tokenizer.

module Tokenizer {
  import opened CStrings
  import opened ShellScript

  function Drop(s: string, n: nat): string
  {
    if n >= |s| then "" else s[n..]
  }

  // A token is a quoted stretch, its quotes gone, or runs to the next blank. A
  // quote that is not closed runs to the end. t starts with a token.
  function Token(t: string): string
    requires t != ""
  {
    if IsQuote(t[0]) then t[1..][..IndexOf(t[1..], t[0])] else t[..IndexOf(t, ' ')]
  }

  // What follows the token and the one byte that ends it.
  function AfterToken(t: string): (r: string)
    requires t != ""
    ensures |r| < |t|
  {
    if IsQuote(t[0]) then Drop(t[1..], IndexOf(t[1..], t[0]) + 1) else Drop(t, IndexOf(t, ' ') + 1)
  }

  function Tokens(s: string): seq<string>
    decreases |s|
  {
    var t := TrimLeft(s);
    TrimLeftShorter(s);
    if t == "" then [] else [Token(t)] + Tokens(AfterToken(t))
  }

  lemma TrimLeftShorter(s: string)
    ensures |TrimLeft(s)| <= |s|
    ensures TrimLeft(s) != "" ==> TrimLeft(s)[0] != ' '
  {
  }

  // ---- every argument list can be written down ----

  // An argument may hold blanks and operators, and one of the two quotes.
  predicate Quotable(a: string)
  {
    '\0' !in a && ('"' !in a || '\'' !in a)
  }

  function QuoteFor(a: string): char
  {
    if '"' !in a then '"' else '\''
  }

  function Quoted(args: seq<string>): string
  {
    if args == [] then ""
    else [QuoteFor(args[0])] + args[0] + [QuoteFor(args[0])] + " " + Quoted(args[1..])
  }

  lemma {:induction false} IndexOfFirst(a: string, c: char, rest: string)
    requires c !in a
    ensures IndexOf(a + [c] + rest, c) == |a|
  {
    if a != "" {
      assert (a + [c] + rest)[1..] == a[1..] + [c] + rest;
      IndexOfFirst(a[1..], c, rest);
    }
  }

  lemma QuotedToken(a: string, q: char, rest: string)
    requires IsQuote(q) && q !in a
    ensures var s := [q] + a + [q] + rest;
      TrimLeft(s) == s && Token(s) == a && AfterToken(s) == rest
  {
    var s := [q] + a + [q] + rest;
    assert s[0] == q && s[1..] == a + [q] + rest;
    IndexOfFirst(a, q, rest);
    assert s[1..][..|a|] == a;
    assert Drop(s[1..], |a| + 1) == rest;
  }

  lemma {:induction false} QuotedRoundTrip(args: seq<string>)
    requires forall a :: a in args ==> Quotable(a)
    ensures Tokens(Quoted(args)) == args
  {
    hide TrimLeft, Token, AfterToken;
    if args == [] {
      TrimLeftShorter("");
    } else {
      assert Quotable(args[0]);
      var rest := Quoted(args[1..]);
      QuotedToken(args[0], QuoteFor(args[0]), " " + rest);
      assert Quoted(args) == [QuoteFor(args[0])] + args[0] + [QuoteFor(args[0])] + (" " + rest);
      TokensBlank(rest);
      QuotedRoundTrip(args[1..]);
    }
  }

  lemma TokensBlank(s: string)
    ensures Tokens(" " + s) == Tokens(s)
  {
    assert (" " + s)[1..] == s;
    assert TrimLeft(" " + s) == TrimLeft(s);
  }

  // The first pass leaves the blank that ends a token; the second writes over it
  // and steps past it. Both read on the same.
  lemma TokensAtBlank(s: string, k: nat)
    requires k < |s| && s[k] == ' '
    ensures Tokens(s[k..]) == Tokens(s[k + 1..])
  {
    assert s[k..] == " " + s[k + 1..];
    TokensBlank(s[k + 1..]);
  }
}

module Args {
  import opened CStrings
  import opened ShellScript
  import opened ShellBuffer
  import opened Tokenizer

  // Forward to the first `stop`, or to the end.
  method ScanTo(buf: array<char>, i: nat, stop: char, ghost s: string) returns (e: nat)
    requires Holds(buf[..], i, s) && stop != '\0'
    ensures e == i + IndexOf(s, stop)
  {
    hide Holds, IndexOf;
    e := i;
    ghost var l := s;
    HoldsChar(buf[..], e, l, 0);
    while buf[e] != '\0' && buf[e] != stop
      invariant i <= e < buf.Length && Holds(buf[..], e, l)
      invariant buf[e] == if l == "" then '\0' else l[0]
      invariant IndexOf(s, stop) == e - i + IndexOf(l, stop)
      decreases |l|
    {
      IndexOfStep(l, stop);
      HoldsSuffix(buf[..], e, l, 1);
      e, l := e + 1, l[1..];
      HoldsChar(buf[..], e, l, 0);
    }
    HoldsClean(buf[..], e, l);
    IndexOfStep(l, stop);
  }

  lemma IndexOfStep(s: string, c: char)
    ensures IndexOf(s, c) == if s == "" || s[0] == c then 0 else 1 + IndexOf(s[1..], c)
  {
  }

  // Where the first pass goes on: it leaves the blank that ends a token.
  ghost function PastToken(t: string): (r: string)
    requires t != "" && t[0] != ' '
    ensures |r| < |t|
  {
    if IsQuote(t[0]) then AfterToken(t) else t[IndexOf(t, ' ')..]
  }

  lemma CountStep(s: string)
    ensures var t := TrimLeft(s);
      if t == "" then Tokens(s) == []
      else t[0] != ' ' && |Tokens(s)| == 1 + |Tokens(PastToken(t))|
  {
    var t := TrimLeft(s);
    TrimLeftShorter(s);
    hide IndexOf, TrimLeft;
    if t != "" && !IsQuote(t[0]) {
      PastWord(t);
    }
  }

  lemma PastWord(t: string)
    requires t != "" && t[0] != ' ' && !IsQuote(t[0])
    ensures Tokens(PastToken(t)) == Tokens(AfterToken(t))
  {
    var k := IndexOf(t, ' ');
    if k < |t| {
      TokensAtBlank(t, k);
      assert k + 1 == |t| ==> t[k + 1..] == "";
    }
  }

  lemma PastTokenIs(t: string)
    requires t != "" && t[0] != ' '
    ensures IsQuote(t[0]) ==> PastToken(t) == Drop(t[1..], IndexOf(t[1..], t[0]) + 1)
    ensures !IsQuote(t[0]) ==> IndexOf(t, ' ') <= |t| && PastToken(t) == t[IndexOf(t, ' ')..]
  {
    hide IndexOf;
  }

  method SkipToken(buf: array<char>, i: nat, ghost t: string) returns (p: nat)
    requires Holds(buf[..], i, t) && t != "" && t[0] != ' '
    ensures Holds(buf[..], p, PastToken(t))
  {
    hide Holds, IndexOf, PastToken, Drop;
    PastTokenIs(t);
    HoldsChar(buf[..], i, t, 0);
    HoldsClean(buf[..], i, t);
    if buf[i] == '"' || buf[i] == '\'' {
      HoldsSuffix(buf[..], i, t, 1);
      p := SkipQuoted(buf, i + 1, buf[i], t[1..]);
    } else {
      p := ScanTo(buf, i, ' ', t);
      HoldsSuffix(buf[..], i, t, p - i);
    }
  }

  method SkipQuoted(buf: array<char>, i: nat, quote: char, ghost t: string) returns (p: nat)
    requires Holds(buf[..], i, t) && quote != '\0'
    ensures Holds(buf[..], p, Drop(t, IndexOf(t, quote) + 1))
  {
    hide Holds, IndexOf;
    p := ScanTo(buf, i, quote, t);
    ghost var k := p - i;
    HoldsChar(buf[..], i, t, k);
    HoldsClean(buf[..], i, t);
    HoldsSuffix(buf[..], i, t, k);
    if buf[p] != '\0' {
      p := p + 1;
      HoldsSuffix(buf[..], i, t, k + 1);
    }
  }

  method CountArgs(buf: array<char>, ghost s: string) returns (argc: nat)
    requires Holds(buf[..], 0, s)
    ensures argc == |Tokens(s)|
  {
    hide Holds, Tokens, TrimLeft, PastToken;
    argc := 0;
    var p: nat := 0;
    ghost var l := s;
    HoldsChar(buf[..], 0, l, 0);
    while buf[p] != '\0'
      invariant p < buf.Length && Holds(buf[..], p, l)
      invariant buf[p] == if l == "" then '\0' else l[0]
      invariant |Tokens(s)| == argc + |Tokens(l)|
      decreases |l|
    {
      CountStep(l);
      TrimLeftShorter(l);
      p := SkipBlanks(buf, p, l);
      l := TrimLeft(l);
      HoldsChar(buf[..], p, l, 0);
      HoldsClean(buf[..], p, l);
      if buf[p] == '\0' {
        return;
      }
      argc := argc + 1;
      p := SkipToken(buf, p, l);
      l := PastToken(l);
      HoldsChar(buf[..], p, l, 0);
    }
    HoldsClean(buf[..], p, l);
    TrimLeftShorter(l);
    CountStep(l);
  }

  // Where a token starts and what ends it.
  ghost function Body(t: string): string
    requires t != ""
  {
    if IsQuote(t[0]) then t[1..] else t
  }

  ghost function Stop(t: string): char
    requires t != ""
  {
    if IsQuote(t[0]) then t[0] else ' '
  }

  lemma TokenIs(t: string)
    requires t != "" && t[0] != ' '
    ensures Token(t) == Body(t)[..IndexOf(Body(t), Stop(t))]
    ensures AfterToken(t) == Drop(Body(t), IndexOf(Body(t), Stop(t)) + 1)
  {
  }

  lemma AfterEnd(t: string, k: nat)
    requires k <= |t|
    ensures k <= Min(k + 1, |t|) && (Drop(t, k + 1) != "" ==> k < Min(k + 1, |t|))
  {
  }

  // The second pass: the token becomes a C string where it stands.
  method TakeToken(buf: array<char>, i: nat, ghost t: string) returns (start: nat, p: nat)
    requires Holds(buf[..], i, t) && t != "" && t[0] != ' '
    modifies buf
    ensures Holds(buf[..], start, Token(t)) && Holds(buf[..], p, AfterToken(t))
    ensures i <= start && start + |Token(t)| <= p
    ensures AfterToken(t) != "" ==> start + |Token(t)| < p
    ensures buf[..i] == old(buf[..i])
  {
    hide Holds, IndexOf, Token, AfterToken, Drop, Min;
    TokenIs(t);
    AfterEnd(Body(t), IndexOf(Body(t), Stop(t)));
    HoldsChar(buf[..], i, t, 0);
    HoldsClean(buf[..], i, t);
    var stop := ' ';
    start := i;
    if buf[i] == '"' || buf[i] == '\'' {
      stop, start := buf[i], i + 1;
      HoldsSuffix(buf[..], i, t, 1);
    }
    p := EndToken(buf, start, stop, Body(t));
    assert buf[..i] == buf[..start][..i] && old(buf[..i]) == old(buf[..start])[..i];
  }

  method EndToken(buf: array<char>, start: nat, stop: char, ghost t: string) returns (p: nat)
    requires Holds(buf[..], start, t) && stop != '\0'
    modifies buf
    ensures Holds(buf[..], start, t[..IndexOf(t, stop)])
    ensures Holds(buf[..], p, Drop(t, IndexOf(t, stop) + 1))
    ensures p == start + Min(IndexOf(t, stop) + 1, |t|)
    ensures buf[..start] == old(buf[..start])
  {
    p := ScanTo(buf, start, stop, t);
    ghost var k := p - start;
    HoldsChar(buf[..], start, t, k);
    HoldsClean(buf[..], start, t);
    ghost var was := buf[..];
    if buf[p] != '\0' {
      buf[p] := '\0';
      HoldsCut(was, buf[..], start, t, k);
      p := p + 1;
      HoldsSuffix(was, start, t, k + 1);
      HoldsSame(was, buf[..], p, t[k + 1..]);
    } else {
      HoldsSuffix(was, start, t, k);
      assert t[..k] == t;
    }
  }

  method ParseArgs(cmdline: string)
    returns (argc: nat, buf: array?<char>, argv: array?<Option<nat>>)
    requires '\0' !in cmdline
    ensures argc == |Tokens(cmdline)|
    ensures argc == 0 ==> buf == null && argv == null
    ensures argc > 0 ==> buf != null && argv != null && argv.Length == argc + 1 && argv[argc] == None
    ensures argc > 0 ==> forall k :: 0 <= k < argc ==>
      argv[k].Some? && Holds(buf[..], argv[k].value, Tokens(cmdline)[k])
  {
    argc, buf, argv := 0, null, null;
    if cmdline == "" {
      return;
    }
    var b := StrDup(cmdline);
    argc := CountArgs(b, cmdline);
    if argc == 0 {
      return;
    }
    var v := new Option<nat>[argc + 1];
    FillArgs(b, v, argc, cmdline);
    v[argc] := None;
    buf, argv := b, v;
  }

  // The first i pointers lead to the first i tokens. While there is more to read,
  // each of them ends before it.
  ghost predicate Filled(buf: seq<char>, argv: seq<Option<nat>>, i: nat, tokens: seq<string>, end: nat, more: bool)
  {
    && i <= |argv| && i <= |tokens|
    && forall k :: 0 <= k < i ==>
         && argv[k].Some? && Holds(buf, argv[k].value, tokens[k])
         && (more ==> argv[k].value + |tokens[k]| < end)
  }

  lemma HoldsPrefix(a: seq<char>, b: seq<char>, i: nat, s: string, end: nat)
    requires Holds(a, i, s) && i + |s| < end <= |a| && |a| == |b| && a[..end] == b[..end]
    ensures Holds(b, i, s)
  {
    assert a[i..i + |s|] == a[..end][i..i + |s|] && b[i..i + |s|] == b[..end][i..i + |s|];
    assert a[..end][i + |s|] == b[..end][i + |s|];
  }

  // Another token found at or after `end`.
  lemma FilledOneMore(a: seq<char>, b: seq<char>, v: seq<Option<nat>>, w: seq<Option<nat>>, i: nat,
                      tokens: seq<string>, end: nat, end': nat, more: bool)
    requires Filled(a, v, i, tokens, end, true) && end <= end' && end <= |a|
    requires |a| == |b| && a[..end] == b[..end]
    requires i < |v| && |w| == |v| && i < |tokens| && forall k :: 0 <= k < i ==> w[k] == v[k]
    requires w[i].Some? && Holds(b, w[i].value, tokens[i])
    requires more ==> w[i].value + |tokens[i]| < end'
    ensures Filled(b, w, i + 1, tokens, end', more)
  {
    hide Holds;
    forall k | 0 <= k < i ensures Holds(b, w[k].value, tokens[k]) {
      HoldsPrefix(a, b, v[k].value, tokens[k], end);
    }
  }

  lemma TakeStep(s: string)
    ensures var t := TrimLeft(s);
      if t == "" then Tokens(s) == []
      else t[0] != ' ' && Tokens(s) == [Token(t)] + Tokens(AfterToken(t))
  {
    TrimLeftShorter(s);
  }

  method FillArgs(buf: array<char>, argv: array<Option<nat>>, argc: nat, ghost s: string)
    requires Holds(buf[..], 0, s) && argc == |Tokens(s)| && argv.Length > argc
    modifies buf, argv
    ensures Filled(buf[..], argv[..], argc, Tokens(s), 0, false)
  {
    hide Holds, Tokens, TrimLeft, Token, AfterToken, Filled;
    var i, p: nat := 0, 0;
    ghost var l := s;
    HoldsChar(buf[..], 0, l, 0);
    FilledNone(buf[..], argv[..], Tokens(s), 0, l != "");
    while buf[p] != '\0' && i < argc
      invariant p < buf.Length && i <= argc && Holds(buf[..], p, l)
      invariant buf[p] == if l == "" then '\0' else l[0]
      invariant Tokens(l) == Tokens(s)[i..]
      invariant Filled(buf[..], argv[..], i, Tokens(s), p, l != "")
      decreases |l|
    {
      TakeStep(l);
      HoldsClean(buf[..], p, l);
      ghost var q, was, vas := p, buf[..], argv[..];
      p := SkipBlanks(buf, p, l);
      l := TrimLeft(l);
      HoldsChar(buf[..], p, l, 0);
      HoldsClean(buf[..], p, l);
      if buf[p] == '\0' {
        break;
      }
      var start;
      start, p := TakeToken(buf, p, l);
      argv[i] := Some(start);
      FilledOneMore(was, buf[..], vas, argv[..], i, Tokens(s), q, p, AfterToken(l) != "");
      i := i + 1;
      l := AfterToken(l);
      HoldsChar(buf[..], p, l, 0);
    }
    HoldsClean(buf[..], p, l);
    TakeStep(l);
    TrimLeftShorter(l);
    FilledAll(buf[..], argv[..], i, Tokens(s), p, l != "");
  }

  lemma FilledNone(buf: seq<char>, argv: seq<Option<nat>>, tokens: seq<string>, end: nat, more: bool)
    ensures Filled(buf, argv, 0, tokens, end, more)
  {
  }

  lemma FilledAll(buf: seq<char>, argv: seq<Option<nat>>, i: nat, tokens: seq<string>, end: nat, more: bool)
    requires Filled(buf, argv, i, tokens, end, more)
    ensures Filled(buf, argv, i, tokens, 0, false)
  {
  }
}
