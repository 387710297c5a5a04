// The session file as claw/claw_session.c reads and writes it: appends, a mark to
// roll back to, and the two-pass replay over offset tables.

module Session {
  import opened CStrings
  import opened TextLines
  import opened Json
  import opened Transcript

  class Store {
    // The bytes of the active transcript.
    var file: string

    constructor ()
      ensures file == ""
    {
      file := "";
    }

    method Append(role: string, content: string)
      modifies this
      ensures file == old(file) + LineOf(Turn(role, content)) + "\n"
      ensures Split(file) == (old(Split(file).0) + [old(Split(file).1) + LineOf(Turn(role, content))], "")
    {
      hide Split;
      LineIsOneLine(Turn(role, content));
      SplitAppendLine(file, LineOf(Turn(role, content)));
      var text := if |content| > TURN_MAX then content[..TURN_MAX] + "\n[truncated]" else content;
      var line := Enc(Node(Turn(role, text)));
      assert line == LineOf(Turn(role, content));
      hide LineOf, Enc;
      file := file + line;
      file := file + "\n";
    }

    method Mark() returns (mark: nat)
      ensures mark == |file|
    {
      mark := |file|;
    }

    // There is no truncation on this file system: the kept prefix is rewritten.
    method Rollback(mark: nat)
      modifies this
      ensures file == Take(old(file), mark)
    {
      if |file| <= mark {
        return;
      }
      var buf := file[..mark];
      file := "";
      file := file + buf;
    }

    // Offsets and lengths of the first 256 lines.
    method Index(offs: array<nat>, lens: array<nat>) returns (n: nat)
      requires offs != lens && offs.Length == lens.Length == MAX_INDEXED_TURNS
      modifies offs, lens
      ensures n == |Indexed(file)| && Points(offs, lens, n)
    {
      hide Split;
      SplitNothing();
      n := 0;
      var start, pos: nat := 0, 0;
      while pos < |file|
        invariant start <= pos <= |file| && n <= MAX_INDEXED_TURNS
        invariant Split(file[..pos]).1 == file[start..pos]
        invariant n == |Take(Split(file[..pos]).0, MAX_INDEXED_TURNS)|
        invariant forall i :: 0 <= i < n ==>
          offs[i] + lens[i] <= |file| && file[offs[i]..offs[i] + lens[i]] == Split(file[..pos]).0[i]
      {
        assert file[..pos + 1] == file[..pos] + [file[pos]];
        SplitPush(file[..pos], file[pos]);
        assert file[start..pos + 1] == file[start..pos] + [file[pos]];
        pos := pos + 1;
        if file[pos - 1] == '\n' {
          if n < MAX_INDEXED_TURNS {
            offs[n], lens[n] := start, pos - start - 1;
            n := n + 1;
          }
          start := pos;
        }
      }
      assert file[..pos] == file;
    }

    lemma SplitNothing()
      ensures Split("") == ([], "")
    {
    }

    // The tables locate the first n indexed lines.
    ghost predicate Points(offs: array<nat>, lens: array<nat>, n: nat)
      reads this, offs, lens
    {
      var ls := Indexed(file);
      && n <= |ls| && n <= offs.Length && n <= lens.Length
      && forall i :: 0 <= i < n ==>
           offs[i] + lens[i] <= |file| && file[offs[i]..offs[i] + lens[i]] == ls[i]
    }

    // Backwards until the budget is spent.
    method FindFirst(lens: array<nat>, n: nat, budget: nat, ghost ls: seq<string>) returns (first: nat)
      requires n == |ls| <= lens.Length && forall i :: 0 <= i < n ==> lens[i] == |ls[i]|
      ensures Fits(ls, budget, first)
    {
      first := n;
      var total := 0;
      assert ls[n..] == [];
      while first > 0
        invariant first <= n && total == Bytes(ls[first..])
        invariant first < n ==> Bytes(ls[first..]) <= budget || first == n - 1
      {
        var len := lens[first - 1];
        assert ls[first - 1..][1..] == ls[first..];
        if total + len > budget && first < n {
          break;
        }
        total := total + len;
        first := first - 1;
      }
    }

    // The turns sent with a request. Pass 1 indexes lines, pass 2 walks back, pass
    // 3 reads forwards.
    method Replay(budget: nat) returns (messages: seq<Turn>)
      ensures exists k: nat :: Fits(Indexed(file), budget, k) && messages == TurnsOf(Indexed(file)[k..])
    {
      var offs, lens := new nat[MAX_INDEXED_TURNS], new nat[MAX_INDEXED_TURNS];
      var n := Index(offs, lens);
      ghost var ls := Indexed(file);
      var first := FindFirst(lens, n, budget, ls);
      messages := ReadTurns(offs, lens, first, n);
    }

    method ReadTurns(offs: array<nat>, lens: array<nat>, from: nat, n: nat) returns (messages: seq<Turn>)
      requires from <= n == |Indexed(file)| && Points(offs, lens, n)
      ensures messages == TurnsOf(Indexed(file)[from..])
    {
      hide Indexed, TurnOf;
      ghost var ls := Indexed(file);
      messages := [];
      for i := from to n
        invariant messages == TurnsOf(ls[from..i])
      {
        assert ls[from..i + 1][..i - from] == ls[from..i];
        var turn := ReadTurn(offs[i], lens[i]);
        messages := messages + turn;
      }
      assert ls[from..n] == ls[from..];
    }

    // The turn on one line, or nothing.
    method ReadTurn(off: nat, len: nat) returns (turn: seq<Turn>)
      requires off + len <= |file|
      ensures turn == TurnOf(file[off..off + len])
    {
      hide Decode;
      turn := [];
      if len > 0 && len <= LINE_MAX {
        var t := Decode(file[off..off + len]);
        if t.Some? {
          turn := [t.value];
        }
      }
    }
  }
  // A new session, turns appended one by one, and a replay: of the first 256 the
  // longest suffix that fits comes back, without the turns whose line is too long.
  method AppendThenReplay(ts: seq<Turn>, budget: nat) returns (messages: seq<Turn>)
    requires forall i :: 0 <= i < |ts| ==> Clean(ts[i])
    ensures var seen := Take(ts, MAX_INDEXED_TURNS);
      exists k: nat :: Fits(LinesOf(seen), budget, k) && messages == Readable(seen[k..])
  {
    hide LineOf, TurnsOf, Readable;
    var store := new Store();
    for i := 0 to |ts|
      invariant store.file == FileOf(ts[..i])
    {
      assert ts[..i + 1][..i] == ts[..i];
      store.Append(ts[i].role, ts[i].content);
    }
    assert ts[..|ts|] == ts;
    messages := store.Replay(budget);
    ghost var seen := Take(ts, MAX_INDEXED_TURNS);
    if |ts| > MAX_INDEXED_TURNS {
      LaterTurnsAreUnseen(ts);
    }
    ghost var ls := Indexed(FileOf(seen));
    ghost var k: nat :| Fits(ls, budget, k) && messages == TurnsOf(ls[k..]);
    ReplayIsSuffix(seen, budget, k);
  }
}
