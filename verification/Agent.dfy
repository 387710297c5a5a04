// One prompt answered (claw/claw_agent.c): the connection kept between rounds, the
// retry and tool loop, and what it leaves in the transcript. Network, model and
// memory are parameters: every statement holds whatever they do.

module AgentConnection {
  import opened CStrings
  import opened ToolEvents

  // How far one pass over the connection gets.
  datatype Pass = CannotOpen | CannotReadBody | WriteStalls | NoHeaders | Headers

  // What a reply that arrived amounts to. `failed`: an error was reported in the
  // stream; `truncated`: the event parser dropped something.
  datatype Reply = Reply(status: nat, text: string, call: Option<Call>, failed: bool, truncated: bool)

  // Everything outside the program that one round depends on.
  datatype World = World(
    url: string, ca: Option<string>,
    bodyBuilt: bool, dmaLeft: bool, bodyWritten: bool, clientMade: bool,
    first: Pass, second: Pass, reply: Reply,
    complete: bool, persistent: bool, memoryLeft: bool)

  // rc, the recorded status, and what was streamed to the caller.
  datatype Round = Round(rc: nat, status: int, text: string, call: Option<Call>, opens: nat)

  predicate Success(r: Reply) { 200 <= r.status < 300 }

  // A reused socket the server has closed since fails in one of these ways.
  predicate SocketFailed(p: Pass) { p == CannotOpen || p == WriteStalls || p == NoHeaders }

  // What is kept between rounds.
  datatype Link = Link(client: bool, url: string, ca: Option<string>, live: bool)

  class Conn {
    var client: bool
    var url: string
    var ca: Option<string>
    var live: bool

    ghost predicate Valid()
      reads this
    {
      live ==> client
    }

    function Kept(): Link
      reads this
    {
      Link(client, url, ca, live)
    }

    constructor ()
      ensures Valid() && !client && !live
    {
      client, url, ca, live := false, "", None, false;
    }

    method Disconnect()
      modifies this
      ensures !client && !live && url == "" && ca == None
    {
      client, url, ca, live := false, "", None, false;
    }

    method DropSocket()
      modifies `live
      ensures !live
    {
      live := false;
    }

    // The client kept from before when it talks to the same place; otherwise a new
    // one, whose socket is not open yet.
    method Get(w: World) returns (ok: bool)
      requires Valid()
      modifies this
      ensures Valid() && (ok ==> client && url == w.url && ca == w.ca)
      ensures ok == (Reuses(old(client), old(url), old(ca), w) || w.clientMade)
      ensures live == (old(live) && Reuses(old(client), old(url), old(ca), w))
      ensures !ok ==> Kept() == CLOSED
    {
      if client && ca == w.ca && url == w.url {
        return true;
      }
      Disconnect();
      ca, url := w.ca, w.url;
      client := w.clientMade;
      if !client {
        Disconnect();
      }
      ok := client;
    }

    // At most two passes; the second only after a reused socket failed.
    method Send(w: World) returns (reached: bool, opens: nat)
      requires Valid() && client
      modifies `live
      ensures Valid()
      ensures opens == if old(live) && SocketFailed(w.first) then 2 else 1
      ensures reached == ((if opens == 2 then w.second else w.first) == Headers)
    {
      opens := 0;
      var pass := 0;
      reached := false;
      while pass < 2
        invariant 0 <= pass <= 2 && opens == pass && !reached && Valid()
        invariant pass == 0 ==> live == old(live)
        invariant pass > 0 ==> old(live) && SocketFailed(w.first) && !live
        invariant pass < 2
      {
        var reused := live;
        var outcome := if pass == 0 then w.first else w.second;
        opens := opens + 1;
        if outcome == Headers {
          reached := true;
          return;
        }
        if outcome == CannotReadBody {
          return;
        }
        DropSocket();
        if !reused {
          return;
        }
        pass := pass + 1;
      }
    }
  }

  // Same client, same place.
  predicate Reuses(client: bool, url: string, ca: Option<string>, w: World)
  {
    client && ca == w.ca && url == w.url
  }

  const CLOSED := Link(false, "", None, false)

  predicate Prepared(w: World) { w.bodyBuilt && w.dmaLeft && w.bodyWritten }

  predicate HasClient(k: Link, w: World)
  {
    Reuses(k.client, k.url, k.ca, w) || w.clientMade
  }

  // The second pass: a kept socket failed.
  predicate Reopens(k: Link, w: World)
  {
    k.live && Reuses(k.client, k.url, k.ca, w) && SocketFailed(w.first)
  }

  // Reply headers arrive, on the first pass or the second.
  predicate Reached(k: Link, w: World)
  {
    Prepared(w) && HasClient(k, w) && (if Reopens(k, w) then w.second else w.first) == Headers
  }

  predicate Streams(k: Link, w: World)
  {
    Reached(k, w) && Success(w.reply)
  }

  // All that one round does: from the link k and the status on record to the round
  // r and the link m.
  predicate Answers(k: Link, w: World, status: int, r: Round, m: Link)
  {
    && (r.rc == 0 <==> Streams(k, w) && !w.reply.failed && !w.reply.truncated)
    && r.status == (if Reached(k, w) then w.reply.status else if w.bodyBuilt && !w.dmaLeft then 0 else status)
    && r.text == (if Streams(k, w) then w.reply.text else "")
    && r.call == (if Streams(k, w) then w.reply.call else None)
    && r.opens == (if !Prepared(w) || !HasClient(k, w) then 0 else if Reopens(k, w) then 2 else 1)
    && (if !Prepared(w) then m == k
        else if !HasClient(k, w) || !w.memoryLeft then m == CLOSED
        else m == Link(true, w.url, w.ca, Streams(k, w) && !w.reply.failed && w.complete && w.persistent))
  }

  // claw_round
  method Run(conn: Conn, w: World, status: int) returns (r: Round)
    requires conn.Valid()
    modifies conn
    ensures conn.Valid()
    ensures Answers(old(conn.Kept()), w, status, r, conn.Kept())
  {
    r := Round(1, status, "", None, 0);
    if !w.bodyBuilt {
      return;
    }
    if !w.dmaLeft {
      r := r.(status := 0);
      return;
    }
    if !w.bodyWritten {
      return;
    }
    var ok := conn.Get(w);
    if !ok {
      return;
    }
    var reached, opens := conn.Send(w);
    r := r.(opens := opens);
    if reached {
      r := r.(status := w.reply.status);
      if Success(w.reply) {
        r := r.(text := w.reply.text, call := w.reply.call);
        if !w.reply.failed {
          r := r.(rc := 0);
        }
      }
    }
    if r.rc == 0 && w.complete && w.persistent && w.memoryLeft {
      conn.live := true;
    } else if !w.memoryLeft {
      conn.Disconnect();
    } else {
      conn.DropSocket();
    }
    if w.reply.truncated && r.rc == 0 {
      r := r.(rc := 1);
    }
  }
}

module AgentTurns {
  import opened CStrings
  import opened Transcript

  // What one ask leaves behind. Stranded: the question was recorded and then the
  // request could not even be set up.
  datatype Ending =
    | Refused
    | Stranded
    | Answered(text: string)
    | Noted(used: string)
    | Dropped

  function Note(used: string): string
  {
    "(I used " + (if used == "" then "some tools" else used) + " but did not produce an answer.)"
  }

  function User(prompt: string): Turn { Turn("user", prompt) }
  function Assistant(text: string): Turn { Turn("assistant", text) }

  function After(ts: seq<Turn>, prompt: string, e: Ending): seq<Turn>
  {
    match e
    case Refused => ts
    case Stranded => ts + [User(prompt)]
    case Answered(text) => ts + [User(prompt), Assistant(text)]
    case Noted(used) => ts + [User(prompt), Assistant(Note(used))]
    case Dropped => ts
  }

  datatype Ask = Ask(prompt: string, ending: Ending)

  function Conversation(asks: seq<Ask>): seq<Turn>
  {
    if asks == [] then []
    else
      var last := asks[|asks| - 1];
      After(Conversation(asks[..|asks| - 1]), last.prompt, last.ending)
  }

  function Record(t: Turn): string { LineOf(t) + "\n" }

  // The bytes an ask adds to the transcript.
  function Written(prompt: string, e: Ending): string
  {
    match e
    case Refused => ""
    case Stranded => Record(User(prompt))
    case Answered(text) => Record(User(prompt)) + Record(Assistant(text))
    case Noted(used) => Record(User(prompt)) + Record(Assistant(Note(used)))
    case Dropped => ""
  }

  lemma FileGrows(ts: seq<Turn>, t: Turn)
    ensures FileOf(ts + [t]) == FileOf(ts) + Record(t)
  {
    assert (ts + [t])[..|ts|] == ts;
  }

  // They are the turns it adds to the conversation.
  lemma WrittenIsAfter(ts: seq<Turn>, prompt: string, e: Ending)
    ensures FileOf(After(ts, prompt, e)) == FileOf(ts) + Written(prompt, e)
  {
    hide FileOf, Record, Note;
    FileGrows(ts, User(prompt));
    if e.Answered? || e.Noted? {
      var a := Assistant(if e.Answered? then e.text else Note(e.used));
      FileGrows(ts + [User(prompt)], a);
      assert ts + [User(prompt)] + [a] == ts + [User(prompt), a];
    }
  }

  predicate Alternates(ts: seq<Turn>)
  {
    |ts| % 2 == 0 && forall i :: 0 <= i < |ts| ==> ts[i].role == if i % 2 == 0 then "user" else "assistant"
  }

  // A question with no answer after it: another question follows, or nothing.
  predicate Unanswered(ts: seq<Turn>, i: nat)
  {
    i < |ts| && ts[i].role == "user" && (i + 1 == |ts| || ts[i + 1].role == "user")
  }

  lemma UnansweredStays(ts: seq<Turn>, prompt: string, e: Ending, i: nat)
    requires Unanswered(ts, i)
    ensures Unanswered(After(ts, prompt, e), i)
  {
    var us := After(ts, prompt, e);
    assert forall j :: 0 <= j < |ts| ==> us[j] == ts[j];
    if i + 1 == |ts| && |us| > |ts| {
      assert us[i + 1] == User(prompt);
    }
  }

  lemma UnansweredBreaks(ts: seq<Turn>, i: nat)
    requires Unanswered(ts, i)
    ensures !Alternates(ts)
  {
    assert "user"[0] != "assistant"[0];
  }

  lemma AfterAlternates(ts: seq<Turn>, prompt: string, e: Ending)
    requires Alternates(ts) && !e.Stranded?
    ensures Alternates(After(ts, prompt, e))
  {
    assert After(ts, prompt, e)[..|ts|] == ts;
  }

  lemma {:induction false} StrandedShows(asks: seq<Ask>)
    ensures (forall k :: 0 <= k < |asks| ==> !asks[k].ending.Stranded?) ==> Alternates(Conversation(asks))
    ensures (exists k :: 0 <= k < |asks| && asks[k].ending.Stranded?) ==>
      exists i :: Unanswered(Conversation(asks), i)
  {
    if asks != [] {
      var n := |asks| - 1;
      var ts, last := Conversation(asks[..n]), asks[n];
      StrandedShows(asks[..n]);
      assert forall k :: 0 <= k < n ==> asks[..n][k] == asks[k];
      if exists k :: 0 <= k < n && asks[k].ending.Stranded? {
        var k :| 0 <= k < n && asks[k].ending.Stranded?;
        assert asks[..n][k].ending.Stranded?;
        var i :| Unanswered(ts, i);
        UnansweredStays(ts, last.prompt, last.ending, i);
        assert Unanswered(Conversation(asks), i);
      } else if last.ending.Stranded? {
        assert Unanswered(Conversation(asks), |ts|);
      } else {
        AfterAlternates(ts, last.prompt, last.ending);
      }
    }
  }

  // From an empty session, the roles on disk alternate after any asks exactly when
  // none of them was stranded.
  lemma RolesAlternate(asks: seq<Ask>)
    ensures Alternates(Conversation(asks)) <==> forall k :: 0 <= k < |asks| ==> !asks[k].ending.Stranded?
  {
    StrandedShows(asks);
    if exists k :: 0 <= k < |asks| && asks[k].ending.Stranded? {
      var i :| Unanswered(Conversation(asks), i);
      UnansweredBreaks(Conversation(asks), i);
    }
  }
}

module AgentTranscript {
  import opened CStrings
  import opened TextLines
  import opened Transcript
  import opened AgentTurns

  predicate CleanAsk(a: Ask)
  {
    && '\0' !in a.prompt
    && (a.ending.Answered? ==> '\0' !in a.ending.text)
    && (a.ending.Noted? ==> '\0' !in a.ending.used)
  }

  lemma {:induction false} CleanTurns(asks: seq<Ask>)
    requires forall k :: 0 <= k < |asks| ==> CleanAsk(asks[k])
    ensures forall i :: 0 <= i < |Conversation(asks)| ==> Clean(Conversation(asks)[i])
  {
    if asks != [] {
      CleanTurns(asks[..|asks| - 1]);
      assert CleanAsk(asks[|asks| - 1]);
      assert '\0' !in "user" && '\0' !in "assistant";
      assert '\0' !in "(I used " && '\0' !in "some tools" && '\0' !in " but did not produce an answer.)";
    }
  }

  // The role a line of the file decodes to.
  function RoleOn(line: string): Option<string>
  {
    var t := Decode(line);
    if t.Some? then Some(t.value.role) else None
  }

  predicate LinesAlternate(ls: seq<string>)
  {
    |ls| % 2 == 0 && forall i :: 0 <= i < |ls| ==>
      RoleOn(ls[i]) == Some(if i % 2 == 0 then "user" else "assistant")
  }

  lemma RoleOfLine(t: Turn)
    requires Clean(t)
    ensures RoleOn(LineOf(t)) == Some(t.role)
  {
    hide Decode, LineOf;
    DecodeLine(t);
  }

  lemma LinesShowRoles(ts: seq<Turn>)
    requires forall i :: 0 <= i < |ts| ==> Clean(ts[i])
    ensures LinesAlternate(LinesOf(ts)) <==> Alternates(ts)
  {
    hide RoleOn, LineOf;
    forall i | 0 <= i < |ts| ensures RoleOn(LinesOf(ts)[i]) == Some(ts[i].role) {
      RoleOfLine(ts[i]);
    }
  }

  // On disk: the lines of the file that the asks have written decode to user and
  // assistant in turn exactly when no ask was stranded.
  lemma RolesOnDisk(asks: seq<Ask>)
    requires forall k :: 0 <= k < |asks| ==> CleanAsk(asks[k])
    ensures LinesAlternate(Split(FileOf(Conversation(asks))).0)
        <==> forall k :: 0 <= k < |asks| ==> !asks[k].ending.Stranded?
  {
    var ts := Conversation(asks);
    hide Conversation, LinesOf, LinesAlternate, Split, FileOf;
    CleanTurns(asks);
    FileLines(ts);
    RolesAlternate(asks);
    LinesShowRoles(ts);
  }
}

module Agent {
  import opened CStrings
  import opened ToolEvents
  import opened Transcript
  import opened AgentTurns
  import opened AgentTranscript
  import opened TextLines
  import C = AgentConnection
  import S = Session
  import H = RepeatedCall

  const MAX_TOOL_ROUNDS: nat := 8
  const MAX_RETRIES: nat := 3
  const USED_MAX: nat := 96

  // The allocations an ask depends on, the world of each call of claw_round, and
  // what parsing and printing the arguments of a call gives in each round: `{}`
  // when they do not parse, nothing when printing runs out of memory.
  datatype Setting = Setting(
    network: bool, key: bool,
    messages: bool, replyBuffer: bool, parser: bool, context: bool, toolBuffer: bool,
    world: nat -> C.World, printed: (nat, string) -> string)

  // One call of claw_round: its round, which attempt at it, the status on record
  // before it, what came of it, and the connection before and after.
  datatype Sent = Sent(round: nat, attempt: nat, before: int, r: C.Round, from: C.Link, to: C.Link)

  // A tool that was run: its name, its arguments as printed, and their hash. Only
  // name and hash are remembered for the next call.
  datatype ToolRun = ToolRun(name: string, args: string, hash: H.Word)

  function Bytes(s: string): seq<H.Byte>
  {
    seq(|s|, i requires 0 <= i < |s| => s[i] as nat % 256)
  }

  function ArgumentText(c: Call, s: Setting, round: nat): string
  {
    Upto0(s.printed(round, if c.json == "" then "{}" else c.json))
  }

  function Signature(name: string, args: string): ToolRun
  {
    ToolRun(Upto0(name), args, H.Hash(H.BASIS, Bytes(args)))
  }

  predicate Repeats(a: ToolRun, b: ToolRun)
  {
    a.name == b.name && a.hash == b.hash
  }

  // Texts of one length that differ in the byte at i and nowhere else.
  predicate DifferAt(a: string, b: string, i: nat)
  {
    && i < |a| == |b| && a[..i] == b[..i] && a[i + 1..] == b[i + 1..]
    && a[i] as nat % 256 != b[i] as nat % 256
  }

  // A call that differs from the one before it in one byte of its arguments is not
  // taken for a repeat.
  lemma CorrectionIsNoRepeat(m: string, a: string, n: string, b: string)
    requires exists i: nat :: DifferAt(a, b, i)
    ensures !Repeats(Signature(m, a), Signature(n, b))
  {
    hide H.Hash;
    var i: nat :| DifferAt(a, b, i);
    assert Bytes(a) == Bytes(a[..i]) + [a[i] as nat % 256] + Bytes(a[i + 1..]);
    assert Bytes(b) == Bytes(a[..i]) + [b[i] as nat % 256] + Bytes(a[i + 1..]) by {
      assert forall k :: i < k < |b| ==> b[k] == b[i + 1..][k - i - 1];
      assert forall k :: 0 <= k < i ==> b[k] == b[..i][k];
    }
    H.OneByteApart(Bytes(a[..i]), a[i] as nat % 256, b[i] as nat % 256, Bytes(a[i + 1..]));
  }

  // ---- what holds of one ask ----

  // Retries only before any status was recorded.
  predicate RetriesEarly(calls: seq<Sent>)
  {
    && (forall i :: 0 <= i < |calls| ==> calls[i].attempt > 0 ==> calls[i].before == -1)
    && (forall i, j :: 0 <= i < j < |calls| ==> calls[i].before != -1 ==> calls[j].before != -1)
  }

  predicate OpensFew(calls: seq<Sent>)
  {
    forall i :: 0 <= i < |calls| ==> calls[i].r.opens <= 2
  }

  predicate NoRepeats(ran: seq<ToolRun>)
  {
    && (forall i :: 0 < i < |ran| ==> !Repeats(ran[i], ran[i - 1]))
    && (forall i :: 0 <= i < |ran| ==> ran[i] == Signature(ran[i].name, ran[i].args))
  }

  // How long the list of tool names may get in the note.
  function AddUsed(used: string, name: string): string
  {
    if |used| + |name| + 2 < USED_MAX then (if used != "" then used + ", " + name else name) else used
  }

  // ---- the calls of one ask, one by one ----

  function Last<T>(xs: seq<T>): T
    requires xs != []
  {
    xs[|xs| - 1]
  }

  // The run a call asks for.
  function Asked(c: Call, s: Setting, round: nat): ToolRun
  {
    Signature(c.name, ArgumentText(c, s, round))
  }

  // It is made unless it is too large, has no room for its output, or repeats the
  // one before it.
  predicate Runs(c: Call, s: Setting, round: nat, ran: seq<ToolRun>)
    requires round <= |ran|
  {
    && !c.overflow && s.toolBuffer
    && (round == 0 || !Repeats(Asked(c, s, round), ran[round - 1]))
  }

  // The same round is tried again: the call failed, no status was ever recorded, and
  // fewer than three more attempts were made.
  predicate TriedAgain(c: Sent)
  {
    c.r.rc != 0 && c.r.status == -1 && c.attempt < MAX_RETRIES
  }

  predicate WantsTool(c: Sent) { c.r.rc == 0 && c.r.call.Some? }

  // Its tool was run.
  predicate RanTool(c: Sent, s: Setting, ran: seq<ToolRun>)
  {
    && WantsTool(c) && c.round < |ran| && Runs(c.r.call.value, s, c.round, ran)
    && ran[c.round] == Asked(c.r.call.value, s, c.round)
  }

  // d follows c: another attempt at the round if it is tried again, otherwise the
  // next round, which needs the tool of this one to have run.
  predicate FollowsCall(c: Sent, d: Sent, s: Setting, ran: seq<ToolRun>)
  {
    && d.before == c.r.status && d.from == c.to
    && (if TriedAgain(c) then d.round == c.round && d.attempt == c.attempt + 1
        else RanTool(c, s, ran) && d.round == c.round + 1 && d.attempt == 0)
  }

  // The calls from a fresh start on the link k. What each gives is what the world of
  // that call makes of it.
  predicate IsLog(k: C.Link, s: Setting, calls: seq<Sent>, ran: seq<ToolRun>)
  {
    && (forall i :: 0 <= i < |calls| ==>
          C.Answers(calls[i].from, s.world(i), calls[i].before, calls[i].r, calls[i].to))
    && (calls != [] ==> calls[0].round == calls[0].attempt == 0 && calls[0].before == -1 && calls[0].from == k)
    && (forall i :: 0 < i < |calls| ==> FollowsCall(calls[i - 1], calls[i], s, ran))
  }

  // What was streamed by all of them.
  function Texts(calls: seq<Sent>): string
  {
    if calls == [] then "" else Texts(calls[..|calls| - 1]) + Upto0(Last(calls).r.text)
  }

  // The whole loop: at least one call was made, the last one is neither tried again
  // nor followed by another round, and the outcome is read off it.
  predicate IsRun(k: C.Link, s: Setting, l: Loop)
  {
    && l.calls != [] && IsLog(k, s, l.calls, l.ran)
    && var c := Last(l.calls);
    && c.round < MAX_TOOL_ROUNDS && !TriedAgain(c)
    && (if WantsTool(c) && c.round <= |l.ran| && Runs(c.r.call.value, s, c.round, l.ran)
        then c.round == MAX_TOOL_ROUNDS - 1 && |l.ran| == c.round + 1 && RanTool(c, s, l.ran)
        else |l.ran| == c.round)
    && l.toolCalls == c.round + (if WantsTool(c) then 1 else 0)
    && (l.rc == 0 <==> c.r.rc == 0 && c.r.call.None?)
    && l.reply == (if s.replyBuffer then Take(Texts(l.calls), TURN_MAX) else "")
    && l.used == Used(l.ran)
  }

  function Used(ran: seq<ToolRun>): string
  {
    if ran == [] then "" else AddUsed(Used(ran[..|ran| - 1]), Last(ran).name)
  }

  function Names(ran: seq<ToolRun>): string
  {
    if ran == [] then ""
    else if |ran| == 1 then ran[0].name
    else Names(ran[..|ran| - 1]) + ", " + Last(ran).name
  }

  // The note names every tool in order as long as there is room for it.
  lemma {:induction false} UsedIsNames(ran: seq<ToolRun>)
    requires (forall i :: 0 <= i < |ran| ==> ran[i].name != "") && |Names(ran)| + 2 < USED_MAX
    ensures Used(ran) == Names(ran)
  {
    if ran != [] {
      UsedIsNames(ran[..|ran| - 1]);
      assert |ran| > 1 ==> Names(ran[..|ran| - 1]) != "";
    }
  }

  // More runs leave a log a log.
  lemma LogGrows(k: C.Link, s: Setting, calls: seq<Sent>, ran: seq<ToolRun>, run: ToolRun)
    requires IsLog(k, s, calls, ran)
    ensures IsLog(k, s, calls, ran + [run])
  {
    hide C.Answers, Asked, Repeats, WantsTool;
    forall i | 0 < i < |calls| ensures FollowsCall(calls[i - 1], calls[i], s, ran + [run]) {
      assert FollowsCall(calls[i - 1], calls[i], s, ran);
    }
  }

  lemma LogSnoc(k: C.Link, s: Setting, calls: seq<Sent>, ran: seq<ToolRun>, d: Sent)
    requires IsLog(k, s, calls, ran) && C.Answers(d.from, s.world(|calls|), d.before, d.r, d.to)
    requires if calls == [] then d.round == d.attempt == 0 && d.before == -1 && d.from == k
             else FollowsCall(Last(calls), d, s, ran)
    ensures IsLog(k, s, calls + [d], ran)
    ensures Texts(calls + [d]) == Texts(calls) + Upto0(d.r.text)
  {
    hide C.Answers, FollowsCall;
    assert (calls + [d])[..|calls|] == calls;
  }

  // The link and the status that the next call starts from.
  function LinkAfter(k: C.Link, calls: seq<Sent>): C.Link
  {
    if calls == [] then k else Last(calls).to
  }

  function StatusAfter(calls: seq<Sent>): int
  {
    if calls == [] then -1 else Last(calls).r.status
  }

  // Ready for a first attempt at a round.
  predicate AtRound(s: Setting, calls: seq<Sent>, ran: seq<ToolRun>, round: nat)
  {
    if calls == [] then round == 0
    else !TriedAgain(Last(calls)) && RanTool(Last(calls), s, ran) && round == Last(calls).round + 1
  }

  // claw_round with up to three more attempts while nothing was answered.
  method RoundWithRetries(conn: C.Conn, s: Setting, round: nat, calls: seq<Sent>, status: int,
                          ghost ran: seq<ToolRun>, ghost k: C.Link)
    returns (r: C.Round, done: seq<Sent>)
    requires conn.Valid() && RetriesEarly(calls) && OpensFew(calls)
    requires IsLog(k, s, calls, ran) && AtRound(s, calls, ran, round)
    requires conn.Kept() == LinkAfter(k, calls) && status == StatusAfter(calls) >= -1
    requires forall i :: 0 <= i < |calls| ==> calls[i].before != -1 ==> status != -1
    modifies conn
    ensures conn.Valid() && RetriesEarly(done) && OpensFew(done)
    ensures |done| <= |calls| + (if status == -1 then 1 + MAX_RETRIES else 1)
    ensures r.rc == 0 ==> r.status >= 200
    ensures r.status >= -1
    ensures forall i :: 0 <= i < |done| ==> done[i].before != -1 ==> r.status != -1
    ensures done != [] && IsLog(k, s, done, ran) && conn.Kept() == Last(done).to
    ensures Last(done).round == round && Last(done).r == r && !TriedAgain(Last(done))
    ensures Texts(done) == Texts(calls) + Upto0(r.text)
  {
    hide IsLog, RanTool, Texts, C.Answers;
    var d;
    r, d := OneCall(conn, s, round, 0, calls, status, ran, k);
    done := calls + [d];
    var attempt := 1;
    while r.rc != 0 && r.status == -1 && attempt <= MAX_RETRIES
      decreases MAX_RETRIES + 1 - attempt
      invariant 1 <= attempt <= MAX_RETRIES + 1 && conn.Valid()
      invariant RetriesEarly(done) && OpensFew(done)
      invariant |done| == |calls| + attempt && (attempt > 1 ==> status == -1)
      invariant r.rc == 0 ==> r.status >= 200
      invariant r.status >= -1 && (r.status == -1 ==> r.rc != 0 && status == -1)
      invariant forall i :: 0 <= i < |done| ==> done[i].before != -1 ==> r.status != -1
      invariant IsLog(k, s, done, ran) && conn.Kept() == Last(done).to
      invariant Last(done).round == round && Last(done).r == r && Last(done).attempt == attempt - 1
      invariant Texts(done) == Texts(calls) + Upto0(r.text)
    {
      ghost var was := done;
      SilentRetry(k, s, done, ran);
      assert Texts(calls) + "" == Texts(calls);
      r, d := OneCall(conn, s, round, attempt, done, r.status, ran, k);
      done := done + [d];
      attempt := attempt + 1;
    }
  }

  // Nothing was streamed by a call after which no status is on record.
  lemma SilentRetry(k: C.Link, s: Setting, calls: seq<Sent>, ran: seq<ToolRun>)
    requires IsLog(k, s, calls, ran) && calls != [] && Last(calls).r.status == -1
    ensures Last(calls).r.text == ""
  {
    hide FollowsCall;
    var n := |calls| - 1;
    assert C.Answers(calls[n].from, s.world(n), calls[n].before, calls[n].r, calls[n].to);
  }

  // claw_round once, put on the log.
  method OneCall(conn: C.Conn, s: Setting, round: nat, attempt: nat, calls: seq<Sent>, status: int,
                 ghost ran: seq<ToolRun>, ghost k: C.Link)
    returns (r: C.Round, d: Sent)
    requires conn.Valid() && IsLog(k, s, calls, ran) && status == StatusAfter(calls) >= -1
    requires conn.Kept() == LinkAfter(k, calls)
    requires if attempt == 0 then AtRound(s, calls, ran, round)
             else calls != [] && TriedAgain(Last(calls)) && round == Last(calls).round && attempt == Last(calls).attempt + 1
    modifies conn
    ensures conn.Valid() && IsLog(k, s, calls + [d], ran) && conn.Kept() == d.to
    ensures d.round == round && d.attempt == attempt && d.r == r && d.before == status
    ensures Texts(calls + [d]) == Texts(calls) + Upto0(r.text)
    ensures r.opens <= 2 && (r.rc == 0 ==> r.status >= 200) && r.status >= -1
    ensures r.status == -1 ==> r.rc != 0 && status == -1
  {
    hide IsLog, RanTool, Texts, TriedAgain;
    var from := conn.Kept();
    r := C.Run(conn, s.world(|calls|), status);
    d := Sent(round, attempt, status, r, from, conn.Kept());
    hide C.Answers;
    LogSnoc(k, s, calls, ran, d);
  }

  // What the loop of rounds came to.
  datatype Loop = Loop(rc: nat, reply: string, toolCalls: nat, used: string, calls: seq<Sent>, ran: seq<ToolRun>)

  predicate LoopOk(l: Loop)
  {
    && |l.calls| <= MAX_TOOL_ROUNDS + MAX_RETRIES && |l.ran| <= l.toolCalls <= MAX_TOOL_ROUNDS
    && RetriesEarly(l.calls) && OpensFew(l.calls) && NoRepeats(l.ran)
    && |l.reply| <= TURN_MAX && '\0' !in l.reply && '\0' !in l.used
  }

  lemma StartIsOk()
    ensures LoopOk(Loop(1, "", 0, "", [], []))
  {
  }

  // It differs from the run before it in one byte of its arguments.
  ghost predicate Corrects(run: ToolRun, ran: seq<ToolRun>)
  {
    ran != [] && exists i: nat :: DifferAt(run.args, Last(ran).args, i)
  }

  lemma SignatureAgain(name: string, args: string)
    ensures Signature(Upto0(name), args) == Signature(name, args)
  {
    Upto0Whole(Upto0(name));
  }

  // Whether the tool runs, and the loop state after deciding.
  method TakeCall(l: Loop, call: Call, s: Setting, round: nat) returns (next: Loop, go: bool)
    requires LoopOk(l) && l.rc == 0 && |l.ran| == l.toolCalls == round < MAX_TOOL_ROUNDS
    ensures LoopOk(next) && next.calls == l.calls && next.reply == l.reply && next.toolCalls == round + 1
    ensures next.rc == if go && round < MAX_TOOL_ROUNDS - 1 then 0 else 1
    ensures next.ran == if go then l.ran + [Asked(call, s, round)] else l.ran
    ensures next.used == if go then AddUsed(l.used, Asked(call, s, round).name) else l.used
    ensures go <==> Runs(call, s, round, l.ran)
    ensures !call.overflow && s.toolBuffer && Corrects(Asked(call, s, round), l.ran) ==> go
  {
    hide DifferAt, H.Hash;
    next, go := l.(toolCalls := l.toolCalls + 1), false;
    if call.overflow || !s.toolBuffer {
      next := next.(rc := 1);
      return;
    }
    var args := ArgumentText(call, s, round);
    var hash := H.Fnv(Bytes(args));
    var run := ToolRun(Upto0(call.name), args, hash);
    SignatureAgain(call.name, args);
    if Corrects(run, l.ran) {
      CorrectionIsNoRepeat(call.name, args, Last(l.ran).name, Last(l.ran).args);
    }
    if l.ran != [] && Repeats(run, Last(l.ran)) {
      next := next.(rc := 1);
      return;
    }
    next := next.(used := AddUsed(l.used, run.name), ran := l.ran + [run]);
    go := true;
    if round == MAX_TOOL_ROUNDS - 1 {
      next := next.(rc := 1);
    }
  }

  // Between rounds: the log so far, and what was kept of it.
  predicate Between(k: C.Link, s: Setting, l: Loop, round: nat, status: int)
  {
    && IsLog(k, s, l.calls, l.ran) && AtRound(s, l.calls, l.ran, round)
    && status == StatusAfter(l.calls)
    && l.reply == (if s.replyBuffer then Take(Texts(l.calls), TURN_MAX) else "")
    && l.used == Used(l.ran)
  }

  // The text of a round is added to what was kept of the rounds before.
  lemma ReplyGrows(x: string, y: string)
    ensures Take(Take(x, TURN_MAX) + y, TURN_MAX) == Take(x + y, TURN_MAX)
  {
    TakeTake(x, y, TURN_MAX);
  }

  // A tool that ran leads to the next round, after the last one the loop is over.
  lemma ToolTaken(k: C.Link, s: Setting, l: Loop, call: Call, round: nat, next: Loop)
    requires l.calls != [] && IsLog(k, s, l.calls, l.ran) && |l.ran| == round
    requires var c := Last(l.calls); c.round == round && !TriedAgain(c) && WantsTool(c) && c.r.call == Some(call)
    requires Runs(call, s, round, l.ran)
    requires next.calls == l.calls && next.ran == l.ran + [Asked(call, s, round)]
    ensures IsLog(k, s, next.calls, next.ran) && AtRound(s, next.calls, next.ran, round + 1)
    ensures RanTool(Last(next.calls), s, next.ran)
    ensures Used(next.ran) == AddUsed(Used(l.ran), Asked(call, s, round).name)
  {
    hide IsLog, Asked, Repeats;
    LogGrows(k, s, l.calls, l.ran, Asked(call, s, round));
    assert next.ran[..round] == l.ran;
  }

  // The outcome is read off the last call: no tool wanted, one that is not run, or
  // the last one there is room for.
  lemma Ends(k: C.Link, s: Setting, l: Loop)
    requires l.calls != [] && IsLog(k, s, l.calls, l.ran)
    requires var c := Last(l.calls);
      && c.round < MAX_TOOL_ROUNDS && !TriedAgain(c)
      && l.toolCalls == c.round + (if WantsTool(c) then 1 else 0)
      && (l.rc == 0 <==> c.r.rc == 0 && c.r.call.None?)
    requires l.reply == (if s.replyBuffer then Take(Texts(l.calls), TURN_MAX) else "") && l.used == Used(l.ran)
    requires var c := Last(l.calls);
      || (|l.ran| == c.round && (WantsTool(c) ==> !Runs(c.r.call.value, s, c.round, l.ran)))
      || (|l.ran| == c.round + 1 == MAX_TOOL_ROUNDS && RanTool(c, s, l.ran))
    ensures IsRun(k, s, l)
  {
    hide IsLog, Texts, Used, Repeats, Asked;
  }

  // One round, its retries and its tool.
  method OneRound(conn: C.Conn, s: Setting, l: Loop, round: nat, status: int, ghost k: C.Link)
    returns (next: Loop, go: bool, recorded: int)
    requires conn.Valid() && LoopOk(l) && |l.ran| == l.toolCalls == round < MAX_TOOL_ROUNDS
    requires |l.calls| <= round + (if round == 0 then 0 else MAX_RETRIES)
    requires status >= -1 && (round > 0 ==> status != -1)
    requires forall i :: 0 <= i < |l.calls| ==> l.calls[i].before != -1 ==> status != -1
    requires Between(k, s, l, round, status) && conn.Kept() == LinkAfter(k, l.calls)
    modifies conn
    ensures conn.Valid() && LoopOk(next)
    ensures go ==> |next.ran| == next.toolCalls == round + 1 && |next.calls| <= round + 1 + MAX_RETRIES && recorded >= 0
    ensures go ==> Between(k, s, next, round + 1, recorded) && conn.Kept() == LinkAfter(k, next.calls)
    ensures !go || round + 1 == MAX_TOOL_ROUNDS ==> IsRun(k, s, next)
  {
    hide IsLog, Texts, Used, Runs, RanTool, TriedAgain, C.Answers, IsRun, RetriesEarly, OpensFew, NoRepeats, Repeats;
    var r, calls := RoundWithRetries(conn, s, round, l.calls, status, l.ran, k);
    recorded := r.status;
    ReplyGrows(Texts(l.calls), Upto0(r.text));
    var reply := if s.replyBuffer then Take(l.reply + Upto0(r.text), TURN_MAX) else l.reply;
    next, go := l.(rc := r.rc, calls := calls, reply := reply), false;
    if r.rc != 0 || r.call.None? {
      Ends(k, s, next);
      return;
    }
    ghost var was := next;
    next, go := TakeCall(next, r.call.value, s, round);
    if go {
      ToolTaken(k, s, was, r.call.value, round, next);
    }
    if !go || round + 1 == MAX_TOOL_ROUNDS {
      Ends(k, s, next);
    }
  }

  // The rounds of one ask, whatever the network and the model do: at most 8 tools
  // and 11 calls of claw_round, and exactly the calls, tools, reply and outcome that
  // the world of each call leads to.
  method RunRounds(conn: C.Conn, s: Setting) returns (l: Loop)
    requires conn.Valid()
    modifies conn
    ensures conn.Valid() && LoopOk(l) && IsRun(old(conn.Kept()), s, l)
  {
    hide IsRun, RetriesEarly, OpensFew, NoRepeats;
    ghost var k := conn.Kept();
    l := Loop(1, "", 0, "", [], []);
    StartIsOk();
    NothingYet(k, s, l);
    hide Between, LoopOk;
    var status := -1;
    var round, go := 0, true;
    while round < MAX_TOOL_ROUNDS && go
      invariant 0 <= round <= MAX_TOOL_ROUNDS && conn.Valid() && LoopOk(l)
      invariant go ==> |l.ran| == l.toolCalls == round
      invariant go ==> |l.calls| <= round + (if round == 0 then 0 else MAX_RETRIES)
      invariant go ==> status >= -1 && (round > 0 ==> status != -1)
      invariant go ==> (round == 0 ==> l.calls == [])
      invariant go ==> Between(k, s, l, round, status) && conn.Kept() == LinkAfter(k, l.calls)
      invariant !go || round == MAX_TOOL_ROUNDS ==> IsRun(k, s, l)
    {
      l, go, status := OneRound(conn, s, l, round, status, k);
      round := round + 1;
    }
  }

  lemma NothingYet(k: C.Link, s: Setting, l: Loop)
    requires l.calls == [] && l.ran == [] && l.reply == "" && l.used == ""
    ensures Between(k, s, l, 0, -1)
  {
  }

  // The first call is answered with some text and no tool call.
  predicate AnswersAtOnce(k: C.Link, s: Setting)
  {
    var w := s.world(0);
    && s.replyBuffer && C.Streams(k, w) && !w.reply.failed && !w.reply.truncated
    && w.reply.call.None? && Upto0(w.reply.text) != ""
  }

  lemma NoSecondCall(k: C.Link, s: Setting, l: Loop)
    requires IsLog(k, s, l.calls, l.ran) && l.calls != []
    requires l.calls[0].r.rc == 0 && l.calls[0].r.call.None?
    ensures |l.calls| == 1
  {
    assert |l.calls| > 1 ==> FollowsCall(l.calls[0], l.calls[1], s, l.ran);
  }

  // Then it is the only call, and its text is the reply.
  lemma OneCallIsEnough(k: C.Link, s: Setting, l: Loop)
    requires IsRun(k, s, l) && AnswersAtOnce(k, s)
    ensures l.rc == 0 && |l.calls| == 1 && l.reply == Take(Upto0(s.world(0).reply.text), TURN_MAX) && l.reply != ""
  {
    hide Used, Runs;
    var c := l.calls[0];
    assert C.Answers(k, s.world(0), -1, c.r, c.to);
    NoSecondCall(k, s, l);
    assert l.calls[..0] == [];
    assert Texts(l.calls) == "" + Upto0(c.r.text);
  }

  // No call of the ask gets as far as reply headers.
  predicate NeverReached(l: Loop)
  {
    forall i :: 0 <= i < |l.calls| ==> l.calls[i].r.status == -1
  }

  // Then it takes four calls to give up, and nothing came of them.
  lemma {:induction false} GivesUp(k: C.Link, s: Setting, l: Loop)
    requires IsRun(k, s, l) && LoopOk(l) && NeverReached(l)
    ensures |l.calls| == MAX_RETRIES + 1 && l.rc != 0 && l.toolCalls == 0
  {
    hide Used, Runs, RanTool, Texts;
    var n := |l.calls| - 1;
    AttemptsCount(k, s, l.calls, l.ran, n);
    assert C.Answers(l.calls[n].from, s.world(n), l.calls[n].before, l.calls[n].r, l.calls[n].to);
  }

  lemma {:induction false} AttemptsCount(k: C.Link, s: Setting, calls: seq<Sent>, ran: seq<ToolRun>, i: nat)
    requires IsLog(k, s, calls, ran) && i < |calls|
    requires forall j :: 0 <= j < |calls| ==> calls[j].r.status == -1
    ensures calls[i].round == 0 && calls[i].attempt == i <= MAX_RETRIES && calls[i].r.rc != 0
  {
    hide Runs;
    assert C.Answers(calls[i].from, s.world(i), calls[i].before, calls[i].r, calls[i].to);
    if i > 0 {
      AttemptsCount(k, s, calls, ran, i - 1);
      assert FollowsCall(calls[i - 1], calls[i], s, ran);
    }
  }

  // claw_agent_ask
  method Ask(store: S.Store, conn: C.Conn, prompt: string, s: Setting)
    returns (rc: nat, ending: Ending, l: Loop)
    requires conn.Valid()
    modifies store, conn
    ensures conn.Valid() && LoopOk(l)
    ensures store.file == old(store.file) + Written(prompt, ending)
    ensures ending.Refused? <==> !(s.network && s.key)
    ensures ending.Stranded? <==> s.network && s.key && !(s.messages && s.parser && s.context)
    ensures !ending.Refused? && !ending.Stranded? ==>
      && IsRun(old(conn.Kept()), s, l) && rc == l.rc
      && (ending.Answered? <==> rc == 0 && l.reply != "") && (ending.Answered? ==> ending.text == l.reply)
      && (ending.Noted? <==> !ending.Answered? && l.toolCalls > 0) && (ending.Noted? ==> ending.used == l.used)
    ensures ending.Dropped? || ending.Refused? ==> store.file == old(store.file)
    ensures s.network && s.key && s.messages && s.parser && s.context && AnswersAtOnce(old(conn.Kept()), s) ==>
      var text := Take(Upto0(s.world(0).reply.text), TURN_MAX);
      && rc == 0 && ending == Answered(text)
      && store.file == old(store.file) + LineOf(Turn("user", prompt)) + "\n" + LineOf(Turn("assistant", text)) + "\n"
  {
    hide LineOf, LoopOk, Note, Split, IsRun, AnswersAtOnce;
    rc, l := 1, Loop(1, "", 0, "", [], []);
    StartIsOk();
    if !s.network || !s.key {
      ending := Refused;
      return;
    }
    var mark := store.Mark();
    store.Append("user", prompt);
    if !s.messages || !s.parser || !s.context {
      ending := Stranded;
      return;
    }
    ghost var k := conn.Kept();
    l := RunRounds(conn, s);
    rc := l.rc;
    if AnswersAtOnce(k, s) {
      OneCallIsEnough(k, s, l);
    }
    if l.rc == 0 && l.reply != "" {
      store.Append("assistant", l.reply);
      ending := Answered(l.reply);
    } else if l.toolCalls > 0 {
      store.Append("assistant", Note(l.used));
      ending := Noted(l.used);
    } else {
      store.Rollback(mark);
      ending := Dropped;
      assert store.file == old(store.file);
    }
  }

  // The settings in which an ask records its question and gets no further.
  predicate Strands(s: Setting)
  {
    s.network && s.key && !(s.messages && s.parser && s.context)
  }

  // Any asks, one after the other, on a session that starts empty.
  method Chat(store: S.Store, conn: C.Conn, prompts: seq<string>, settings: seq<Setting>)
    returns (asks: seq<AgentTurns.Ask>)
    requires conn.Valid() && store.file == "" && |prompts| == |settings|
    requires forall k :: 0 <= k < |prompts| ==> '\0' !in prompts[k]
    modifies store, conn
    ensures store.file == FileOf(Conversation(asks))
    ensures LinesAlternate(Split(store.file).0)
        <==> forall k :: 0 <= k < |settings| ==> !Strands(settings[k])
  {
    hide LoopOk, Conversation, FileOf, Written;
    asks := [];
    NothingSaid();
    for i := 0 to |prompts|
      invariant conn.Valid() && |asks| == i
      invariant store.file == FileOf(Conversation(asks))
      invariant forall k :: 0 <= k < i ==> CleanAsk(asks[k])
      invariant forall k :: 0 <= k < i ==> asks[k].ending.Stranded? == Strands(settings[k])
    {
      var rc, ending, l := Ask(store, conn, prompts[i], settings[i]);
      LoopIsClean(l);
      WrittenIsAfter(Conversation(asks), prompts[i], ending);
      OneMore(asks, AgentTurns.Ask(prompts[i], ending));
      asks := asks + [AgentTurns.Ask(prompts[i], ending)];
    }
    RolesOnDisk(asks);
  }

  lemma NothingSaid()
    ensures FileOf(Conversation([])) == ""
  {
  }

  lemma LoopIsClean(l: Loop)
    requires LoopOk(l)
    ensures '\0' !in l.reply && '\0' !in l.used
  {
  }

  lemma OneMore(asks: seq<AgentTurns.Ask>, a: AgentTurns.Ask)
    ensures Conversation(asks + [a]) == After(Conversation(asks), a.prompt, a.ending)
  {
    assert (asks + [a])[..|asks|] == asks;
  }
}
