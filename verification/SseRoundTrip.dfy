// The stream a server would send for a list of events is read back as those
// events: the whole-stream parser undoes the format, whatever ends the lines and
// whatever lines without meaning stand between them.

module SseRoundTrip {
  import opened CStrings
  import opened TextLines
  import opened SseReference

  // ---- the lines of an event ----

  // An empty first data value adds nothing, so data cannot start with a line break.
  predicate Sendable(e: Event)
  {
    && '\0' !in e.name && '\n' !in e.name
    && e.data != "" && '\0' !in e.data && e.data[0] != '\n'
  }

  // What the callback can be handed of it.
  function Cut(e: Event): Event
  {
    Event(Take(e.name, MAX_EVENT - 1), Take(e.data, MAX_DATA - 1))
  }

  function Prefixed(ls: seq<string>): seq<string>
  {
    if ls == [] then [] else Prefixed(ls[..|ls| - 1]) + ["data: " + ls[|ls| - 1]]
  }

  // A name and one data line per line of data.
  function BodyLines(e: Event): seq<string>
  {
    ["event: " + e.name] + Prefixed(Split(e.data).0) + ["data: " + Split(e.data).1]
  }

  // The blank line sends it off.
  function StreamLines(es: seq<Event>): seq<string>
  {
    if es == [] then [] else StreamLines(es[..|es| - 1]) + BodyLines(es[|es| - 1]) + [""]
  }

  function Cuts(es: seq<Event>): seq<Event>
  {
    if es == [] then [] else Cuts(es[..|es| - 1]) + [Cut(es[|es| - 1])]
  }

  // ---- the lines on the wire ----

  // A line, and whether it ends in CR LF or in LF alone.
  datatype Wire = Wire(text: string, cr: bool)

  function WireText(w: Wire): string
  {
    w.text + if w.cr then "\r" else ""
  }

  // A line that ends in a carriage return of its own needs the two-byte ending.
  predicate CanSend(w: Wire)
  {
    && '\n' !in w.text && InLimit(WireText(w))
    && (w.text != "" && w.text[|w.text| - 1] == '\r' ==> w.cr)
  }

  function Raw(ws: seq<Wire>): seq<string>
  {
    seq(|ws|, i requires 0 <= i < |ws| => WireText(ws[i]))
  }

  function Texts(ws: seq<Wire>): seq<string>
  {
    seq(|ws|, i requires 0 <= i < |ws| => ws[i].text)
  }

  function Bytes(ws: seq<Wire>): string
  {
    if ws == [] then "" else Bytes(ws[..|ws| - 1]) + WireText(ws[|ws| - 1]) + "\n"
  }

  predicate HasName(l: string, name: string)
  {
    name <= l && (|l| == |name| || l[|name|] == ':')
  }

  // Comments and lines of any other field.
  predicate Ignored(l: string)
  {
    l != "" && !HasName(l, "data") && !HasName(l, "event")
  }

  function Kept(ls: seq<string>): seq<string>
  {
    if ls == [] then []
    else
      var l := ls[|ls| - 1];
      Kept(ls[..|ls| - 1]) + if Ignored(l) then [] else [l]
  }

  // ---- what the lines say, their endings gone ----

  function Reads(ls: seq<string>): Stream
  {
    if ls == [] then START else Field(Reads(ls[..|ls| - 1]), ls[|ls| - 1])
  }

  lemma Snoc(ls: seq<string>, l: string)
    ensures Reads(ls + [l]) == Field(Reads(ls), l)
  {
    assert (ls + [l])[..|ls|] == ls;
  }

  lemma NameIs(l: string, name: string)
    requires ':' !in name
    ensures Name(l) == name <==> HasName(l, name)
  {
    var k := IndexOf(l, ':');
    if HasName(l, name) {
      assert forall i :: 0 <= i < |name| ==> l[i] == name[i] && name[i] in name;
    }
  }

  // Comments and unknown fields change nothing.
  lemma IgnoredIs(st: Stream, l: string)
    requires Ignored(l)
    ensures Field(st, l) == st
  {
    NameIs(l, "data");
    NameIs(l, "event");
    hide Name, HasName;
  }

  lemma {:induction false} ReadsKept(ls: seq<string>)
    ensures Reads(ls) == Reads(Kept(ls))
  {
    hide Field, Ignored;
    if ls != [] {
      var init, l := ls[..|ls| - 1], ls[|ls| - 1];
      ReadsKept(init);
      if Ignored(l) {
        IgnoredIs(Reads(init), l);
        assert Kept(ls) == Kept(init);
      } else {
        Snoc(Kept(init), l);
      }
    }
  }

  // One carriage return goes with the line ending, no more and nowhere else.
  lemma WireMeansText(st: Stream, w: Wire)
    requires CanSend(w)
    ensures Line(st, WireText(w)) == Field(st, w.text)
  {
    assert w.cr ==> WireText(w)[..|w.text|] == w.text;
    assert !w.cr ==> WireText(w) == w.text;
    hide Field;
  }

  lemma {:induction false} LinesMeanTexts(ws: seq<Wire>)
    requires forall i :: 0 <= i < |ws| ==> CanSend(ws[i])
    ensures Lines(Raw(ws)) == Reads(Texts(ws))
  {
    hide CanSend, Line, Field;
    if ws != [] {
      var n := |ws| - 1;
      LinesMeanTexts(ws[..n]);
      assert Raw(ws)[..n] == Raw(ws[..n]) && Texts(ws)[..n] == Texts(ws[..n]);
      WireMeansText(Lines(Raw(ws[..n])), ws[n]);
    }
  }

  lemma {:induction false} BytesSplit(ws: seq<Wire>)
    requires forall i :: 0 <= i < |ws| ==> CanSend(ws[i])
    ensures Split(Bytes(ws)) == (Raw(ws), "")
  {
    hide InLimit, Split;
    if ws == [] {
      SplitNothing();
      assert Raw(ws) == [];
    } else {
      var n := |ws| - 1;
      BytesSplit(ws[..n]);
      assert '\n' !in WireText(ws[n]) by { assert CanSend(ws[n]); }
      SplitAppendLine(Bytes(ws[..n]), WireText(ws[n]));
      assert "" + WireText(ws[n]) == WireText(ws[n]) && Raw(ws) == Raw(ws[..n]) + [WireText(ws[n])];
    }
  }

  lemma SplitNothing()
    ensures Split("") == ([], "")
  {
  }

  // ---- one event ----

  lemma DataLineAdds(st: Stream, v: string)
    ensures Field(st, "data: " + v) == Grow(Join(st), v)
  {
    var l := "data: " + v;
    assert IsDataLine(l) by { assert l[..5] == "data:"; }
    DataLine(l);
    assert l[5..] == " " + v && (" " + v)[1..] == v;
  }

  lemma NameLineSets(st: Stream, name: string)
    requires '\0' !in name
    ensures Field(st, "event: " + name) == st.(name := Take(name, MAX_EVENT - 1))
  {
    var l := "event: " + name;
    assert l[5] == ':' && l[0] == 'e';
    assert HasName(l, "event") by { assert l[..5] == "event"; }
    NameIs(l, "event");
    assert IndexOf(l, ':') == 5;
    assert l[6..] == " " + name && (" " + name)[1..] == name;
    Upto0Whole(Take(name, MAX_EVENT - 1));
    hide Upto0, Take;
  }

  lemma BlankLineSends(st: Stream, e: Event)
    requires Sendable(e) && st.data == e.data && st.name == Cut(e).name
    ensures Field(st, "") == Dispatch(st)
    ensures Dispatch(st) == st.(events := st.events + [Cut(e)], name := "", data := "")
  {
    Upto0Whole(Take(e.data, MAX_DATA - 1));
  }

  // A name with no data is forgotten at the blank line, and nothing is sent.
  lemma NameAloneIsDropped(st: Stream, name: string)
    requires st.data == "" && '\0' !in name
    ensures Field(Field(st, "event: " + name), "") == st.(name := "")
  {
    NameLineSets(st, name);
    hide Name, Value;
  }

  // An empty first value leaves no line break behind, an empty later one does.
  lemma EmptyValue(st: Stream, v: string)
    requires v != "" && |v| + 1 < MAX_DATA
    ensures st.data == "" ==> Field(st, "data: ") == st
    ensures st.data == v ==> Field(st, "data: ") == st.(data := v + "\n")
  {
    DataLineAdds(st, "");
    assert "data: " + "" == "data: ";
    assert st.data + "" == st.data && v + "\n" + "" == v + "\n";
    hide Field;
  }

  // From st to u, the data lines of d up to the last have been added: one join and
  // the value `rest` are missing.
  predicate Adding(st: Stream, u: Stream, d: string, rest: string)
  {
    && u == st.(data := u.data, truncated := u.truncated)
    && Join(u).data + rest == d && (u.data == "" ==> d == rest)
    && (|d| < MAX_DATA ==> u.truncated == st.truncated)
  }

  lemma AddingLine(st: Stream, u: Stream, d: string, rest: string)
    requires Adding(st, u, d, rest) && d != ""
    ensures Grow(Join(u), rest).data == d
    ensures Adding(st, Grow(Join(u), rest), d + "\n", "")
  {
    assert d + "\n" + "" == d + "\n";
  }

  lemma AddingChar(st: Stream, u: Stream, d: string, rest: string, c: char)
    requires Adding(st, u, d, rest)
    ensures Adding(st, u, d + [c], rest + [c])
  {
    assert Join(u).data + (rest + [c]) == Join(u).data + rest + [c];
  }

  lemma {:induction false} DataLinesAdd(ls: seq<string>, d: string)
    requires Reads(ls).data == "" && (d != "" ==> d[0] != '\n')
    ensures var (init, rest) := Split(d); Adding(Reads(ls), Reads(ls + Prefixed(init)), d, rest)
  {
    hide Field, Adding;
    if d == "" {
      assert ls + Prefixed([]) == ls;
      AddingNothing(Reads(ls));
    } else {
      var e, c := d[..|d| - 1], d[|d| - 1];
      assert d == e + [c];
      DataLinesAdd(ls, e);
      var (i, r) := Split(e);
      var u := Reads(ls + Prefixed(i));
      if c == '\n' {
        PrefixedSnoc(i, r);
        assert ls + Prefixed(i + [r]) == ls + Prefixed(i) + ["data: " + r];
        Snoc(ls + Prefixed(i), "data: " + r);
        DataLineAdds(u, r);
        AddingLine(Reads(ls), u, e, r);
      } else {
        AddingChar(Reads(ls), u, e, r, c);
      }
    }
  }

  lemma AddingNothing(st: Stream)
    requires st.data == ""
    ensures Adding(st, st, "", "")
  {
  }

  lemma PrefixedSnoc(ls: seq<string>, l: string)
    ensures Prefixed(ls + [l]) == Prefixed(ls) + ["data: " + l]
  {
    assert (ls + [l])[..|ls|] == ls;
  }

  lemma AddedIs(st: Stream, u: Stream, d: string, rest: string)
    requires Adding(st, u, d, rest)
    ensures var v := Grow(Join(u), rest);
      && v == st.(data := v.data, truncated := v.truncated)
      && (|d| < MAX_DATA ==> v.truncated == st.truncated)
  {
  }

  // Before the blank line everything is there.
  lemma BodyReads(ls: seq<string>, e: Event)
    requires Sendable(e) && Reads(ls).data == ""
    ensures var st := Reads(ls + BodyLines(e));
      && st == Reads(ls).(name := Cut(e).name, data := e.data, truncated := st.truncated)
      && (|e.data| < MAX_DATA ==> st.truncated == Reads(ls).truncated)
  {
    hide Field, Reads, Split, Prefixed, Adding, Cut, Grow, Join;
    var a := ls + ["event: " + e.name];
    Snoc(ls, "event: " + e.name);
    NameLineSets(Reads(ls), e.name);
    assert Cut(e).name == Take(e.name, MAX_EVENT - 1) by { CutName(e); }
    DataLinesAdd(a, e.data);
    var (init, rest) := Split(e.data);
    var b := a + Prefixed(init);
    Snoc(b, "data: " + rest);
    DataLineAdds(Reads(b), rest);
    AddingLine(Reads(a), Reads(b), e.data, rest);
    AddedIs(Reads(a), Reads(b), e.data, rest);
    assert ls + BodyLines(e) == b + ["data: " + rest];
  }

  lemma CutName(e: Event)
    ensures Cut(e).name == Take(e.name, MAX_EVENT - 1)
  {
  }

  lemma OneEvent(ls: seq<string>, e: Event)
    requires Sendable(e) && Reads(ls).data == ""
    ensures var st := Reads(ls + BodyLines(e) + [""]);
      && st.events == Reads(ls).events + [Cut(e)] && st.name == st.data == ""
      && (|e.data| < MAX_DATA ==> st.truncated == Reads(ls).truncated)
  {
    hide Field, Reads, BodyLines, Cut, Dispatch;
    BodyReads(ls, e);
    Snoc(ls + BodyLines(e), "");
    BlankLineSends(Reads(ls + BodyLines(e)), e);
  }

  lemma {:induction false} AllEvents(es: seq<Event>)
    requires forall i :: 0 <= i < |es| ==> Sendable(es[i])
    ensures var st := Reads(StreamLines(es));
      && st.events == Cuts(es) && st.name == st.data == ""
      && ((forall i :: 0 <= i < |es| ==> |es[i].data| < MAX_DATA) ==> !st.truncated)
  {
    hide Field, BodyLines, Cut, Sendable;
    if es != [] {
      var init, e := es[..|es| - 1], es[|es| - 1];
      AllEvents(init);
      OneEvent(StreamLines(init), e);
    }
  }

  // ---- as bytes ----

  // What a stream of sendable lines means is what its lines say.
  lemma ParseIsReads(ws: seq<Wire>)
    requires forall i :: 0 <= i < |ws| ==> CanSend(ws[i])
    ensures Parse(Bytes(ws)) == Dispatch(Reads(Kept(Texts(ws))))
  {
    hide CanSend, Reads, Kept, Dispatch, Split, Bytes, Line;
    BytesSplit(ws);
    LinesMeanTexts(ws);
    ReadsKept(Texts(ws));
  }

  // Every list of sendable events survives the trip, whatever the length of its
  // data lines, with any mix of line endings and any comments and unknown fields
  // between the lines. Names and data arrive up to what the callback can hold, and
  // nothing is flagged when all the data can.
  lemma EventsRoundTrip(es: seq<Event>, ws: seq<Wire>)
    requires forall i :: 0 <= i < |es| ==> Sendable(es[i])
    requires forall i :: 0 <= i < |ws| ==> CanSend(ws[i])
    requires Kept(Texts(ws)) == StreamLines(es)
    ensures var st := Parse(Bytes(ws));
      && st.events == Cuts(es) && st.name == st.data == ""
      && ((forall i :: 0 <= i < |es| ==> |es[i].data| < MAX_DATA) ==> !st.truncated)
  {
    hide Sendable, CanSend, Reads, Kept, StreamLines, Parse;
    ParseIsReads(ws);
    AllEvents(es);
  }

  // The end of the stream sends off an event that no blank line has.
  lemma PendingIsFlushed(es: seq<Event>, e: Event, ws: seq<Wire>)
    requires Sendable(e) && forall i :: 0 <= i < |es| ==> Sendable(es[i])
    requires forall i :: 0 <= i < |ws| ==> CanSend(ws[i])
    requires Kept(Texts(ws)) == StreamLines(es) + BodyLines(e)
    ensures Parse(Bytes(ws)).events == Cuts(es) + [Cut(e)]
  {
    ParseIsReads(ws);
    AllEvents(es);
    BodyReads(StreamLines(es), e);
    hide CanSend, Reads, Kept, StreamLines, BodyLines, Parse, Sendable, Cuts, Cut;
    BlankLineSends(Reads(StreamLines(es) + BodyLines(e)), e);
  }

  // Nor does the last line need its ending.
  lemma LastEndingIsOptional(ws: seq<Wire>, w: Wire)
    requires (forall i :: 0 <= i < |ws| ==> CanSend(ws[i])) && CanSend(w) && WireText(w) != ""
    ensures Parse(Bytes(ws) + WireText(w)) == Parse(Bytes(ws + [w]))
  {
    var last := WireText(w);
    hide Lines, Line, Split, Dispatch, InLimit;
    BytesSplit(ws);
    BytesSplit(ws + [w]);
    SplitAppendLine(Bytes(ws), last);
    assert "" + last == last && Raw(ws + [w]) == Raw(ws) + [last];
    ParseIsLines(Bytes(ws) + last);
    ParseIsLines(Bytes(ws + [w]));
  }

  // Plain LF endings and nothing in between.
  lemma PlainRoundTrip(es: seq<Event>, cr: bool)
    requires forall i :: 0 <= i < |es| ==> Sendable(es[i])
    requires forall i :: 0 <= i < |StreamLines(es)| ==> CanSend(Wire(StreamLines(es)[i], cr))
    ensures Parse(Bytes(Sent(StreamLines(es), cr))).events == Cuts(es)
  {
    var ws := Sent(StreamLines(es), cr);
    assert Texts(ws) == StreamLines(es);
    NothingIgnored(es);
    hide Sendable, CanSend, Kept, StreamLines, Parse, Bytes;
    EventsRoundTrip(es, ws);
  }

  function Sent(ls: seq<string>, cr: bool): seq<Wire>
  {
    seq(|ls|, i requires 0 <= i < |ls| => Wire(ls[i], cr))
  }

  lemma {:induction false} KeptConcat(a: seq<string>, b: seq<string>)
    ensures Kept(a + b) == Kept(a) + Kept(b)
  {
    hide Ignored;
    if b == [] {
      assert a + b == a;
    } else {
      var init := b[..|b| - 1];
      assert (a + b)[..|a + b| - 1] == a + init;
      KeptConcat(a, init);
    }
  }

  lemma {:induction false} PrefixedKept(ls: seq<string>)
    ensures Kept(Prefixed(ls)) == Prefixed(ls)
  {
    if ls != [] {
      PrefixedKept(ls[..|ls| - 1]);
      NotIgnored("data", " " + ls[|ls| - 1]);
      assert "data" + ":" + (" " + ls[|ls| - 1]) == "data: " + ls[|ls| - 1];
      hide Ignored;
      KeptConcat(Prefixed(ls[..|ls| - 1]), ["data: " + ls[|ls| - 1]]);
    }
  }

  lemma NotIgnored(name: string, v: string)
    requires name == "data" || name == "event"
    ensures var l := name + ":" + v; !Ignored(l) && Kept([l]) == [l]
  {
    var l := name + ":" + v;
    assert HasName(l, name) by { assert l[..|name|] == name && l[|name|] == ':'; }
    var one: seq<string> := [l];
    assert one[..0] == [];
  }

  lemma {:induction false} NothingIgnored(es: seq<Event>)
    ensures Kept(StreamLines(es)) == StreamLines(es)
  {
    hide Ignored, Prefixed, Split;
    if es != [] {
      var e := es[|es| - 1];
      var (init, rest) := Split(e.data);
      NothingIgnored(es[..|es| - 1]);
      NotIgnored("event", " " + e.name);
      NotIgnored("data", " " + rest);
      assert "event" + ":" + (" " + e.name) == "event: " + e.name;
      assert "data" + ":" + (" " + rest) == "data: " + rest;
      PrefixedKept(init);
      hide Kept;
      var a, b, c := ["event: " + e.name], Prefixed(init), ["data: " + rest];
      KeptConcat(a, b);
      KeptConcat(a + b, c);
      KeptConcat(StreamLines(es[..|es| - 1]), BodyLines(e));
      KeptConcat(StreamLines(es[..|es| - 1]) + BodyLines(e), [""]);
      KeptBlank();
    }
  }

  lemma KeptBlank()
    ensures Kept([""]) == [""]
  {
    var one: seq<string> := [""];
    assert one[..0] == [];
  }
}
