// A conversation on disk (claw/claw_session.c): one JSON line per turn, and what
// a replay of it within a byte budget must return.

module Transcript {
  import opened CStrings
  import opened TextLines
  import opened Json
  import opened JsonRoundTrip

  const TURN_MAX: nat := 4096
  const MAX_INDEXED_TURNS: nat := 256
  const LINE_MAX: nat := TURN_MAX + 200

  datatype Turn = Turn(role: string, content: string)

  // Longer content is stored cut, with a marker.
  function Stored(t: Turn): Turn
  {
    if |t.content| > TURN_MAX then t.(content := t.content[..TURN_MAX] + "\n[truncated]") else t
  }

  function Node(t: Turn): Item
  {
    Object(Next(Some("role"), Str(Some(t.role)), Next(Some("content"), Str(Some(t.content)), End)))
  }

  function LineOf(t: Turn): string { Enc(Node(Stored(t))) }

  // The file after appending the turns one by one to an empty session.
  function FileOf(ts: seq<Turn>): string
  {
    if ts == [] then "" else FileOf(ts[..|ts| - 1]) + LineOf(ts[|ts| - 1]) + "\n"
  }

  function Member(c: Items, key: string): Option<Item>
  {
    match c
    case End => None
    case Next(k, i, n) => if k == Some(key) then Some(i) else Member(n, key)
  }

  // A line that parses to an object with both strings is a turn.
  function Decode(line: string): Option<Turn>
  {
    var p := ParseValue(line);
    if p.Fail? || !p.value.Object? then None
    else
      var r, c := Member(p.value.child, "role"), Member(p.value.child, "content");
      if r.Some? && r.value.Str? && r.value.s.Some? && c.Some? && c.value.Str? && c.value.s.Some?
      then Some(Turn(r.value.s.value, c.value.s.value))
      else None
  }

  predicate Clean(t: Turn)
  {
    '\0' !in t.role && '\0' !in t.content
  }

  lemma NodeIsProper(t: Turn)
    requires Clean(t)
    ensures Proper(Node(t))
  {
    assert '\0' !in "role" && '\0' !in "content";
    var last := Next(Some("content"), Str(Some(t.content)), End);
    assert ProperItems(End, true);
    assert ProperItems(last, true);
    assert ProperItems(Next(Some("role"), Str(Some(t.role)), last), true);
  }

  lemma NodeMembers(t: Turn)
    ensures Member(Node(t).child, "role") == Some(Str(Some(t.role)))
    ensures Member(Node(t).child, "content") == Some(Str(Some(t.content)))
  {
    assert "role"[0] != "content"[0];
  }

  lemma DecodeLine(t: Turn)
    requires Clean(t)
    ensures Decode(LineOf(t)) == Some(Stored(t))
  {
    var s := Stored(t);
    assert Clean(s) by { assert '\0' !in "\n[truncated]"; }
    NodeIsProper(s);
    ProperRoundTrip(Node(s));
    NodeMembers(s);
    hide ParseValue, Enc, Proper, Member, Stored;
  }

  // No turn starts with anything but a brace.
  lemma DecodeNeedsBrace(line: string)
    requires line != "" && line[0] !in "{ \t\n\r"
    ensures Decode(line) == None
  {
    var c := line[0];
    assert c != '{' && !IsWs(c) by {
      assert forall d :: d == '{' || IsWs(d) ==> d in "{ \t\n\r";
    }
    assert SkipWs(line) == line;
    hide ParseElements, ParseMembers, ParseString, SkipWs;
    assert !ParseNumber(line).Fail? ==> ParseNumber(line).value.Number?;
  }

  lemma {:induction false} MemberOfNorm(c: Items, key: string)
    requires HasNoKey(c, key)
    ensures Member(NormMembers(c), key) == None
  {
    match c
    case End =>
    case Next(_, _, n) => MemberOfNorm(n, key);
  }

  predicate HasNoKey(c: Items, key: string)
  {
    match c
    case End => true
    case Next(k, _, n) => Text(k) != key && HasNoKey(n, key)
  }

  // Nor is an object a turn without both members.
  lemma DecodeNeedsMembers(c: Items)
    requires HasNoKey(c, "role") || HasNoKey(c, "content")
    ensures Decode(Enc(Object(c))) == None
  {
    RoundTrip(Object(c));
    if HasNoKey(c, "role") {
      MemberOfNorm(c, "role");
    } else {
      MemberOfNorm(c, "content");
    }
    hide ParseValue, Enc, Member, HasNoKey;
  }

  lemma LineIsOneLine(t: Turn)
    ensures '\n' !in LineOf(t) && LineOf(t) != ""
  {
    PrintableItem(Node(Stored(t)));
  }

  function LinesOf(ts: seq<Turn>): seq<string>
  {
    seq(|ts|, i requires 0 <= i < |ts| => LineOf(ts[i]))
  }

  lemma {:induction false} FileLines(ts: seq<Turn>)
    ensures Split(FileOf(ts)) == (LinesOf(ts), "")
  {
    hide LineOf;
    if ts == [] {
      assert LinesOf(ts) == [];
    } else {
      var n := |ts| - 1;
      FileLines(ts[..n]);
      LineIsOneLine(ts[n]);
      SplitAppendLine(FileOf(ts[..n]), LineOf(ts[n]));
      assert LinesOf(ts) == LinesOf(ts[..n]) + [LineOf(ts[n])];
      assert "" + LineOf(ts[n]) == LineOf(ts[n]);
    }
  }

  // ---- replay ----

  // The lines a replay looks at: the first ones, however many follow.
  function Indexed(file: string): seq<string>
  {
    Take(Split(file).0, MAX_INDEXED_TURNS)
  }

  function Bytes(ls: seq<string>): nat
  {
    if ls == [] then 0 else |ls[0]| + Bytes(ls[1..])
  }

  // The bytes of lines are what they take up in a file, newlines apart.
  lemma {:induction false} BytesAreInFile(ls: seq<string>, rest: string)
    ensures |Unsplit(ls, rest)| == Bytes(ls) + |ls| + |rest|
  {
    if ls != [] {
      BytesAreInFile(ls[1..], rest);
    }
  }

  // ls[k..] is the longest suffix within the budget, or the last line when that
  // alone exceeds it.
  predicate Fits(ls: seq<string>, budget: nat, k: nat)
  {
    && k <= |ls| && (ls != [] ==> k < |ls|)
    && (Bytes(ls[k..]) <= budget || k == |ls| - 1)
    && (k > 0 ==> Bytes(ls[k - 1..]) > budget)
  }

  lemma {:induction false} LongerIsMore(ls: seq<string>, j: nat, k: nat)
    requires j <= k <= |ls|
    ensures Bytes(ls[j..]) >= Bytes(ls[k..])
    decreases k - j
  {
    if j < k {
      LongerIsMore(ls, j + 1, k);
      assert ls[j..][1..] == ls[j + 1..];
    }
  }

  // There is one such suffix, and every longer one is over the budget.
  lemma FitsOnce(ls: seq<string>, budget: nat, j: nat, k: nat)
    requires Fits(ls, budget, k) && j < k
    ensures Bytes(ls[j..]) > budget && !Fits(ls, budget, j)
  {
    LongerIsMore(ls, j, k - 1);
    LongerIsMore(ls, j, |ls| - 1);
  }

  // What becomes of one line: overlong and unreadable ones are skipped.
  function TurnOf(line: string): seq<Turn>
  {
    if line == "" || |line| > LINE_MAX then []
    else if Decode(line).Some? then [Decode(line).value]
    else []
  }

  function TurnsOf(ls: seq<string>): seq<Turn>
  {
    if ls == [] then [] else TurnsOf(ls[..|ls| - 1]) + TurnOf(ls[|ls| - 1])
  }

  // The stored turns whose line is short enough to be read back.
  function Readable(ts: seq<Turn>): seq<Turn>
  {
    if ts == [] then []
    else
      var t := ts[|ts| - 1];
      Readable(ts[..|ts| - 1]) + if |LineOf(t)| <= LINE_MAX then [Stored(t)] else []
  }

  lemma {:induction false} TurnsOfLines(ts: seq<Turn>)
    requires forall t :: t in ts ==> Clean(t)
    ensures TurnsOf(LinesOf(ts)) == Readable(ts)
  {
    hide LineOf, Decode, Stored;
    if ts != [] {
      var n := |ts| - 1;
      assert ts[n] in ts;
      TurnsOfLines(ts[..n]);
      DecodeLine(ts[n]);
      LineIsOneLine(ts[n]);
      assert LinesOf(ts)[..n] == LinesOf(ts[..n]);
    }
  }

  lemma IndexedLines(ts: seq<Turn>)
    requires |ts| <= MAX_INDEXED_TURNS
    ensures Indexed(FileOf(ts)) == LinesOf(ts)
  {
    hide FileOf, LineOf;
    FileLines(ts);
  }

  // A session of up to 256 turns replays, in order, the longest suffix that fits.
  lemma ReplayIsSuffix(ts: seq<Turn>, budget: nat, k: nat)
    requires forall t :: t in ts ==> Clean(t)
    requires |ts| <= MAX_INDEXED_TURNS && Fits(Indexed(FileOf(ts)), budget, k)
    ensures k <= |ts| && TurnsOf(Indexed(FileOf(ts))[k..]) == Readable(ts[k..])
    ensures Indexed(FileOf(ts)) == LinesOf(ts)
  {
    hide FileOf, LineOf, TurnsOf, Readable, Indexed, Clean;
    IndexedLines(ts);
    assert LinesOf(ts)[k..] == LinesOf(ts[k..]);
    hide LinesOf;
    TurnsOfLines(ts[k..]);
  }

  // Every turn comes back if and only if every line is short enough.
  lemma {:induction false} AllReadable(ts: seq<Turn>)
    ensures |Readable(ts)| <= |ts|
    ensures |Readable(ts)| == |ts| <==> forall i :: 0 <= i < |ts| ==> |LineOf(ts[i])| <= LINE_MAX
    ensures |Readable(ts)| == |ts| ==> Readable(ts) == seq(|ts|, i requires 0 <= i < |ts| => Stored(ts[i]))
  {
    hide LineOf, Stored;
    if ts != [] {
      var init := ts[..|ts| - 1];
      AllReadable(init);
      assert forall i :: 0 <= i < |init| ==> ts[i] == init[i];
    }
  }

  // What is kept of the content: all of it, or the first 4096 bytes and the marker.
  lemma StoredIs(t: Turn)
    ensures Stored(t).role == t.role
    ensures |t.content| <= TURN_MAX ==> Stored(t).content == t.content
    ensures |t.content| > TURN_MAX ==>
      && |Stored(t).content| == TURN_MAX + 12 && Stored(t).content[TURN_MAX..] == "\n[truncated]"
      && forall i :: 0 <= i < TURN_MAX ==> Stored(t).content[i] == t.content[i]
  {
  }

  // A line, byte for byte.
  lemma LineIs(t: Turn)
    requires Clean(t)
    ensures LineOf(t) ==
      "{\"role\":\"" + EscapeAll(t.role) + "\",\"content\":\"" + EscapeAll(Stored(t).content) + "\"}"
  {
    var s := Stored(t);
    assert Clean(s) by { assert '\0' !in "\n[truncated]"; }
    Upto0Whole(s.role);
    Upto0Whole(s.content);
    KeyIsPlain("role");
    KeyIsPlain("content");
    hide EscapeAll, Upto0, Stored;
    TwoMembers("role", s.role, "content", s.content);
    Regroup(EscapeAll(s.role), EscapeAll(s.content));
  }

  lemma Regroup(a: string, b: string)
    ensures "{" + ("\"" + "role" + "\"" + ":" + ("\"" + a + "\"") + ("," + ("\"" + "content" + "\"" + ":" + ("\"" + b + "\"")))) + "}"
      == "{\"role\":\"" + a + "\",\"content\":\"" + b + "\"}"
  {
    assert "\"" + "role" + "\"" + ":" + ("\"" + a + "\"") == "\"role\":\"" + a + "\"";
    assert "," + ("\"" + "content" + "\"" + ":" + ("\"" + b + "\"")) == ",\"content\":\"" + b + "\"";
  }

  // So it is 24 bytes longer than its two strings, escaped.
  lemma LineLength(t: Turn)
    requires Clean(t)
    ensures |LineOf(t)| == 24 + |EscapeAll(t.role)| + |EscapeAll(Stored(t).content)|
  {
    LineIs(t);
    hide LineOf, EscapeAll, Stored;
  }

  lemma {:induction false} KeyIsPlain(s: string)
    requires forall i :: 0 <= i < |s| ==> 'a' <= s[i] <= 'z'
    ensures EscapeAll(s) == s && Upto0(s) == s
  {
    if s != "" {
      KeyIsPlain(s[1..]);
      assert [s[0]] + s[1..] == s;
    }
  }

  lemma TwoMembers(j: string, a: string, k: string, b: string)
    ensures Enc(Object(Next(Some(j), Str(Some(a)), Next(Some(k), Str(Some(b)), End)))) ==
      "{" + (EncString(Some(j)) + ":" + EncString(Some(a)) + ("," + (EncString(Some(k)) + ":" + EncString(Some(b))))) + "}"
  {
    hide EncString;
    var last := Next(Some(k), Str(Some(b)), End);
    assert EncMembers(last) == EncString(Some(k)) + ":" + EncString(Some(b)) by {
      assert EncString(Some(b)) + "" == EncString(Some(b));
      assert EncMembers(last) == EncString(Some(k)) + ":" + Enc(Str(Some(b))) + "";
    }
    assert EncMembers(Next(Some(j), Str(Some(a)), last)) ==
      EncString(Some(j)) + ":" + Enc(Str(Some(a))) + ("," + EncMembers(last));
  }

  lemma {:induction false} QuotesDouble(n: nat)
    ensures |EscapeAll(seq(n, _ => '"'))| == 2 * n
  {
    var s := seq(n, _ => '"');
    if n > 0 {
      QuotesDouble(n - 1);
      assert s[1..] == seq(n - 1, _ => '"');
    }
  }

  // A turn of 4096 quotes is stored whole and is not read back.
  lemma QuotesAreSkipped()
    ensures var t := Turn("user", seq(TURN_MAX, _ => '"'));
      Stored(t) == t && |LineOf(t)| > LINE_MAX && Readable([t]) == []
  {
    var t := Turn("user", seq(TURN_MAX, _ => '"'));
    assert '\0' !in "user";
    LineLength(t);
    QuotesDouble(TURN_MAX);
    hide LineOf;
    assert [t][..0] == [];
  }

  // Past 256 turns a replay never sees another one: what it returns is what the
  // first 256 would give.
  lemma LaterTurnsAreUnseen(ts: seq<Turn>)
    requires |ts| >= MAX_INDEXED_TURNS
    ensures Indexed(FileOf(ts)) == Indexed(FileOf(ts[..MAX_INDEXED_TURNS]))
  {
    hide FileOf, LineOf, Split;
    FileLines(ts);
    FileLines(ts[..MAX_INDEXED_TURNS]);
    assert LinesOf(ts)[..MAX_INDEXED_TURNS] == LinesOf(ts[..MAX_INDEXED_TURNS]);
  }

  // A turn just appended is among the lines a replay looks at exactly when it is
  // not beyond the 256th.
  lemma LastTurnIsIndexed(ts: seq<Turn>)
    requires ts != []
    ensures |ts| <= MAX_INDEXED_TURNS <==> |Indexed(FileOf(ts))| == |ts|
    ensures |ts| <= MAX_INDEXED_TURNS ==> Indexed(FileOf(ts))[|ts| - 1] == LineOf(ts[|ts| - 1])
  {
    hide FileOf, LineOf, Split;
    FileLines(ts);
  }
}
