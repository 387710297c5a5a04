// The incremental Server-Sent Events parser (claw/claw_sse.c), proved against a
// parser that sees the whole stream at once.

module SseReference {
  import opened CStrings
  import opened TextLines

  const MAX_DATA: nat := 8192
  const MAX_EVENT: nat := 64
  const MAX_LINE: nat := 2048

  // What the callback is handed.
  datatype Event = Event(name: string, data: string)

  // The whole-stream parser: no buffers, and `data` is as long as it is. Only
  // what is handed to the callback is cut to what fits.
  datatype Stream = Stream(events: seq<Event>, name: string, data: string, truncated: bool)

  const START := Stream([], "", "", false)

  function Dispatch(st: Stream): Stream
  {
    if st.data == "" then st.(name := "")
    else Stream(st.events + [Event(st.name, Upto0(Take(st.data, MAX_DATA - 1)))], "", "", st.truncated)
  }

  // More of the current data value. The flag says a byte of it cannot fit.
  function Grow(st: Stream, v: string): Stream
  {
    st.(data := st.data + v,
        truncated := st.truncated || (v != "" && |st.data| + |v| > MAX_DATA - 1))
  }

  // Data lines of one event are joined by newlines.
  function Join(st: Stream): Stream
  {
    if st.data == "" then st else st.(data := st.data + "\n")
  }

  function DropSpace(v: string): string
  {
    if v != "" && v[0] == ' ' then v[1..] else v
  }

  function Name(l: string): string
  {
    l[..IndexOf(l, ':')]
  }

  function Value(l: string): string
  {
    var k := IndexOf(l, ':');
    if k == |l| then "" else DropSpace(l[k + 1..])
  }

  // One line with its terminator gone.
  function Field(st: Stream, l: string): Stream
  {
    if l == "" then Dispatch(st)
    else if l[0] == ':' then st
    else if Name(l) == "event" then st.(name := Upto0(Take(Value(l), MAX_EVENT - 1)))
    else if Name(l) == "data" then Grow(Join(st), Value(l))
    else st
  }

  function StripCr(l: string): string
  {
    if l != "" && l[|l| - 1] == '\r' then l[..|l| - 1] else l
  }

  predicate IsDataLine(l: string)
  {
    "data:" <= l
  }

  // A line as it arrived. Only a data line may exceed the line limit; of any
  // other, the code drops the first MAX_LINE - 1 bytes and reads on as if a line
  // started there.
  function Line(st: Stream, raw: string): Stream
    decreases |raw|
  {
    if |raw| > MAX_LINE - 1 && !IsDataLine(raw)
    then Line(st.(truncated := true), raw[MAX_LINE - 1..])
    else Field(st, StripCr(raw))
  }

  function Lines(ls: seq<string>): Stream
  {
    if ls == [] then START else Line(Lines(ls[..|ls| - 1]), ls[|ls| - 1])
  }

  // The reference: what a stream means once it has ended.
  function Parse(s: string): Stream
  {
    var (ls, rest) := Split(s);
    Dispatch(if rest == "" then Lines(ls) else Line(Lines(ls), rest))
  }

  // ---- what the flag and the limit mean ----

  // What makes one line lose bytes that the flag must report.
  predicate Loses(st: Stream, raw: string)
  {
    if |raw| > MAX_LINE - 1 && !IsDataLine(raw) then true
    else
      var l := StripCr(raw);
      l != "" && Name(l) == "data" && Value(l) != ""
      && |Join(st).data| + |Value(l)| > MAX_DATA - 1
  }

  lemma {:induction false} LineFlag(st: Stream, raw: string)
    ensures Line(st, raw).truncated == (st.truncated || Loses(st, raw))
    decreases |raw|
  {
    if |raw| > MAX_LINE - 1 && !IsDataLine(raw) {
      LineFlag(st.(truncated := true), raw[MAX_LINE - 1..]);
    } else {
      var l := StripCr(raw);
      if l != "" && l[0] == ':' {
        assert Name(l) == "";
      }
    }
  }

  predicate LosesAt(ls: seq<string>, i: nat)
  {
    i < |ls| && Loses(Lines(ls[..i]), ls[i])
  }

  lemma LosesAtPrefix(ls: seq<string>, i: nat)
    requires i + 1 < |ls|
    ensures LosesAt(ls[..|ls| - 1], i) == LosesAt(ls, i)
  {
    assert ls[..|ls| - 1][..i] == ls[..i];
  }

  lemma {:induction false} LinesFlag(ls: seq<string>)
    ensures Lines(ls).truncated <==> exists i :: LosesAt(ls, i)
  {
    hide Loses, Line;
    if ls != [] {
      var n := |ls| - 1;
      LinesFlag(ls[..n]);
      LineFlag(Lines(ls[..n]), ls[n]);
      assert LosesAt(ls, n) == Loses(Lines(ls[..n]), ls[n]);
      forall i: nat | i < n ensures LosesAt(ls[..n], i) == LosesAt(ls, i) {
        LosesAtPrefix(ls, i);
      }
      if Lines(ls[..n]).truncated {
        var i :| LosesAt(ls[..n], i);
        assert LosesAt(ls, i);
      }
    }
  }

  // The lines of a stream, a last one without its newline included.
  function LinesOf(s: string): seq<string>
  {
    var (ls, rest) := Split(s);
    if rest == "" then ls else ls + [rest]
  }

  lemma ParseIsLines(s: string)
    ensures Parse(s) == Dispatch(Lines(LinesOf(s)))
  {
    hide Line;
    var (ls, rest) := Split(s);
    assert (ls + [rest])[..|ls|] == ls;
  }

  // The flag is set exactly when some line lost a byte of a data value or was a
  // non-data line longer than the line limit.
  lemma FlagIsExact(s: string)
    ensures Parse(s).truncated <==> exists i :: LosesAt(LinesOf(s), i)
  {
    ParseIsLines(s);
    LinesFlag(LinesOf(s));
  }

  // ---- lines over the limit ----

  // Such a line loses its first bytes, and what follows them is a line.
  lemma OverlongTail(st: Stream, head: string, tail: string)
    requires |head| == MAX_LINE - 1 && !IsDataLine(head) && tail != ""
    ensures Line(st, head + tail) == Line(st.(truncated := true), tail)
  {
    assert IsDataLine(head + tail) ==> IsDataLine(head) by {
      assert (head + tail)[..5] == head[..5];
    }
    assert (head + tail)[MAX_LINE - 1..] == tail;
  }

  // A comment that the format tells a reader to ignore brings data with it.
  lemma CommentBecomesData(head: string, v: string)
    requires |head| == MAX_LINE - 1 && head[0] == ':' && v != "" && v[0] != ' ' && v[|v| - 1] != '\r'
    ensures Line(START, head + ("data:" + v)).data == v
    ensures Field(START, StripCr(head + ("data:" + v))) == START
  {
    OverlongTail(START, head, "data:" + v);
    OneDataLine(START.(truncated := true), v);
  }

  predicate InLimit(raw: string)
  {
    |raw| <= MAX_LINE - 1 || IsDataLine(raw)
  }

  // A line means what it spells if and only if it is within the limit or is data.
  lemma LineMeansField(st: Stream, raw: string)
    requires !st.truncated
    ensures Line(st, raw) == Field(st, StripCr(raw)) <==> InLimit(raw)
  {
    if !InLimit(raw) {
      LineFlag(st, raw);
    }
  }

  // The same dialect without any limit on lines.
  function Fields(ls: seq<string>): Stream
  {
    if ls == [] then START else Field(Fields(ls[..|ls| - 1]), StripCr(ls[|ls| - 1]))
  }

  lemma {:induction false} LinesMeanFields(ls: seq<string>)
    requires !Fields(ls).truncated
    ensures Lines(ls) == Fields(ls) <==> forall i :: 0 <= i < |ls| ==> InLimit(ls[i])
    ensures Lines(ls) == Fields(ls) || Lines(ls).truncated
  {
    hide Line, Field, InLimit;
    if ls != [] {
      var init, raw := ls[..|ls| - 1], ls[|ls| - 1];
      FieldFlag(Fields(init), StripCr(raw));
      LinesMeanFields(init);
      LineFlag(Lines(init), raw);
      LineMeansField(Fields(init), raw);
      assert forall i :: 0 <= i < |init| ==> ls[i] == init[i];
      if !InLimit(raw) {
        OverlongLoses(Lines(init), raw);
      }
    }
  }

  lemma FieldFlag(st: Stream, l: string)
    ensures st.truncated ==> Field(st, l).truncated
  {
  }

  lemma OverlongLoses(st: Stream, raw: string)
    requires !InLimit(raw)
    ensures Loses(st, raw)
  {
  }

  // A stream that fits the event buffer means what its lines spell exactly when
  // none but data lines exceed the line limit.
  lemma ParseMeansFields(s: string)
    requires !Fields(LinesOf(s)).truncated
    ensures Parse(s) == Dispatch(Fields(LinesOf(s))) <==> forall i :: 0 <= i < |LinesOf(s)| ==> InLimit(LinesOf(s)[i])
  {
    hide LinesOf, Lines, Fields, InLimit;
    ParseIsLines(s);
    LinesMeanFields(LinesOf(s));
  }

  // ---- the limit on data ----

  // The bytes past the limit that an unflagged event loses are joining newlines.
  predicate OnlyNewlinesPastLimit(d: string)
  {
    forall i :: MAX_DATA - 1 <= i < |d| ==> d[i] == '\n'
  }

  lemma {:induction false} UnflaggedLine(st: Stream, raw: string)
    requires OnlyNewlinesPastLimit(st.data)
    ensures !Line(st, raw).truncated ==> OnlyNewlinesPastLimit(Line(st, raw).data)
    decreases |raw|
  {
    LineFlag(st, raw);
    if |raw| <= MAX_LINE - 1 || IsDataLine(raw) {
      var l := StripCr(raw);
      if l != "" && l[0] != ':' && Name(l) == "data" {
        assert OnlyNewlinesPastLimit(Join(st).data);
      }
    }
  }

  // Without the flag, whatever an event loses at the limit is joining newlines.
  lemma {:induction false} UnflaggedLosesOnlyNewlines(ls: seq<string>)
    ensures !Lines(ls).truncated ==> OnlyNewlinesPastLimit(Lines(ls).data)
  {
    if ls != [] {
      var init := ls[..|ls| - 1];
      UnflaggedLosesOnlyNewlines(init);
      LineFlag(Lines(init), ls[|ls| - 1]);
      if !Lines(init).truncated {
        UnflaggedLine(Lines(init), ls[|ls| - 1]);
      }
    }
  }

  // An empty data line when the event is at the limit already.
  predicate DropsNewline(st: Stream, raw: string)
  {
    var l := StripCr(raw);
    InLimit(raw) && l != "" && Name(l) == "data" && Value(l) == "" && |st.data| >= MAX_DATA - 1
  }

  // The line at i drops a newline of the event that is still open at the end.
  predicate DropsAt(ls: seq<string>, i: nat)
  {
    && i < |ls| && DropsNewline(Lines(ls[..i]), ls[i])
    && forall j :: i < j < |ls| ==> StripCr(ls[j]) != ""
  }

  // One line takes an event over the limit without the flag exactly when it is
  // such a line, or the event was over it and stays open.
  lemma LineOverLimit(st: Stream, raw: string)
    ensures var u := Line(st, raw);
      !u.truncated ==>
        (|u.data| > MAX_DATA - 1 <==> DropsNewline(st, raw) || (|st.data| > MAX_DATA - 1 && StripCr(raw) != ""))
  {
    LineFlag(st, raw);
    if InLimit(raw) && StripCr(raw) != "" && StripCr(raw)[0] == ':' {
      assert Name(StripCr(raw)) == "";
    }
  }

  lemma DropsAtPrefix(ls: seq<string>, i: nat)
    requires i + 1 < |ls|
    ensures DropsAt(ls, i) <==> DropsAt(ls[..|ls| - 1], i) && StripCr(ls[|ls| - 1]) != ""
  {
    hide DropsNewline, StripCr;
    var init := ls[..|ls| - 1];
    assert init[..i] == ls[..i];
    assert forall j :: i < j < |init| ==> ls[j] == init[j];
  }

  // Without the flag, an open event has lost something exactly when one of its
  // empty data lines found it full.
  lemma {:induction false} LostInSilence(ls: seq<string>)
    requires !Lines(ls).truncated
    ensures |Lines(ls).data| > MAX_DATA - 1 <==> exists i :: DropsAt(ls, i)
  {
    hide Line, DropsNewline, StripCr;
    if ls != [] {
      var n := |ls| - 1;
      var init := ls[..n];
      LineFlag(Lines(init), ls[n]);
      LostInSilence(init);
      LineOverLimit(Lines(init), ls[n]);
      assert DropsAt(ls, n) == DropsNewline(Lines(init), ls[n]);
      forall i: nat | i < n ensures DropsAt(ls, i) <==> DropsAt(init, i) && StripCr(ls[n]) != "" {
        DropsAtPrefix(ls, i);
      }
      if |Lines(init).data| > MAX_DATA - 1 && StripCr(ls[n]) != "" {
        var i :| DropsAt(init, i);
        assert DropsAt(ls, i);
      }
    }
  }

  // A value that fills the buffer followed by an empty data line is such a case.
  lemma SilentLoss(d: string)
    requires |d| == MAX_DATA - 1 && d[0] != ' ' && d[|d| - 1] != '\r' && '\0' !in d
    ensures var st := Lines(["data:" + d, "data:"]);
      st.data == d + "\n" && !st.truncated && Dispatch(st).events == [Event("", d)]
  {
    var ls := ["data:" + d, "data:"];
    var full := Stream([], "", d, false);
    OneDataLine(START, d);
    assert Lines(ls[..1]) == full by {
      assert ls[..1] == [ls[0]] && ls[..1][..0] == [];
      assert Join(START) == START;
    }
    OneDataLine(full, "");
    assert "data:" + "" == "data:";
    assert Line(full, "data:") == full.(data := d + "\n");
    assert Take(d + "\n", MAX_DATA - 1) == d;
    Upto0Whole(d);
  }

  // A data line of any length is one field.
  lemma OneDataLine(st: Stream, v: string)
    requires v != "" ==> v[0] != ' ' && v[|v| - 1] != '\r'
    ensures Line(st, "data:" + v) == Grow(Join(st), v)
  {
    var l := "data:" + v;
    DataLine(l);
    assert StripCr(l) == l;
    assert l[5..] == v;
  }

  lemma DataLine(l: string)
    requires IsDataLine(l)
    ensures IndexOf(l, ':') == 4 && Name(l) == "data" && Value(l) == DropSpace(l[5..])
    ensures l[0] != ':'
  {
    assert l[4] == ':';
    assert l[0] == 'd' && l[1] == 'a' && l[2] == 't' && l[3] == 'a';
    var k := IndexOf(l, ':');
    assert l[..5] == "data:" && l[..4] == l[..5][..4];
  }
}
