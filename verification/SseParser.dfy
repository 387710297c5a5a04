// The parser as the firmware runs it: a carry-over buffer of MAX_LINE bytes that
// is smaller than a data line may be, an event buffer of MAX_DATA bytes, and the
// bytes of the stream cut wherever the network cut them.

module SseParser {
  import opened CStrings
  import opened TextLines
  import opened SseReference

  // Where the reference stands in the middle of a line: what has been applied,
  // whether an overlong data line is being drained, and the bytes still carried.
  datatype Partial = Partial(st: Stream, inData: bool, carry: string)

  ghost function Drain(st: Stream, r: string): (p: Partial)
    ensures p.inData && |p.carry| < MAX_LINE && (r != "" ==> p.carry != "")
    decreases |r|
  {
    if |r| < MAX_LINE then Partial(st, true, r)
    else Drain(Grow(st, r[..MAX_LINE - 1]), r[MAX_LINE - 1..])
  }

  ghost function Mid(st: Stream, raw: string): (p: Partial)
    ensures |p.carry| < MAX_LINE && (p.inData || raw != "" ==> p.carry != "")
    decreases |raw|
  {
    if |raw| < MAX_LINE then Partial(st, false, raw)
    else if IsDataLine(raw)
    then Drain(Grow(Join(st), DropSpace(raw[5..MAX_LINE - 1])), raw[MAX_LINE - 1..])
    else Mid(st.(truncated := true), raw[MAX_LINE - 1..])
  }

  // A full carry buffer moves into the field in progress, or is lost.
  ghost function Flushed(p: Partial): Partial
  {
    if p.inData then Partial(Grow(p.st, p.carry), true, "")
    else if IsDataLine(p.carry)
    then Partial(Grow(Join(p.st), DropSpace(p.carry[5..])), true, "")
    else Partial(p.st.(truncated := true), false, "")
  }

  ghost function Pushed(p: Partial, c: char): Partial
  {
    if |p.carry| < MAX_LINE - 1 then p.(carry := p.carry + [c])
    else Flushed(p).(carry := [c])
  }

  ghost function Closed(p: Partial): Stream
  {
    if p.inData then Grow(p.st, StripCr(p.carry)) else Field(p.st, StripCr(p.carry))
  }

  lemma GrowGrow(st: Stream, a: string, b: string)
    ensures Grow(Grow(st, a), b) == Grow(st, a + b)
  {
    assert st.data + a + b == st.data + (a + b);
  }

  lemma {:induction false} DrainPush(st: Stream, r: string, c: char)
    ensures Drain(st, r + [c]) == Pushed(Drain(st, r), c)
    decreases |r|
  {
    var s := r + [c];
    if |r| >= MAX_LINE - 1 {
      assert s[..MAX_LINE - 1] == r[..MAX_LINE - 1];
      assert s[MAX_LINE - 1..] == r[MAX_LINE - 1..] + [c];
      if |r| > MAX_LINE - 1 {
        DrainPush(Grow(st, r[..MAX_LINE - 1]), r[MAX_LINE - 1..], c);
      } else {
        assert s[..MAX_LINE - 1] == r;
      }
    }
  }

  // Reading one more byte of a line.
  lemma {:induction false} MidPush(st: Stream, raw: string, c: char)
    ensures Mid(st, raw + [c]) == Pushed(Mid(st, raw), c)
    decreases |raw|
  {
    var s := raw + [c];
    if |raw| >= MAX_LINE - 1 {
      assert s[MAX_LINE - 1..] == raw[MAX_LINE - 1..] + [c];
      assert s[5..MAX_LINE - 1] == raw[5..MAX_LINE - 1];
      assert IsDataLine(s) == IsDataLine(raw);
      if |raw| == MAX_LINE - 1 {
        assert raw[5..MAX_LINE - 1] == raw[5..];
      } else if IsDataLine(raw) {
        DrainPush(Grow(Join(st), DropSpace(raw[5..MAX_LINE - 1])), raw[MAX_LINE - 1..], c);
      } else {
        MidPush(st.(truncated := true), raw[MAX_LINE - 1..], c);
      }
    }
  }

  lemma {:induction false} DrainClose(st: Stream, r: string)
    ensures Closed(Drain(st, r)) == Grow(st, StripCr(r))
    decreases |r|
  {
    if |r| >= MAX_LINE {
      var a, b := r[..MAX_LINE - 1], r[MAX_LINE - 1..];
      DrainClose(Grow(st, a), b);
      GrowGrow(st, a, StripCr(b));
      assert a + StripCr(b) == StripCr(r);
    }
  }

  lemma DataLineIs(st: Stream, raw: string)
    requires |raw| >= MAX_LINE && IsDataLine(raw)
    ensures Line(st, raw) == Grow(Join(st), DropSpace(StripCr(raw)[5..]))
  {
    var l := StripCr(raw);
    assert IsDataLine(l) by { assert l[..5] == raw[..5]; }
    DataLine(l);
  }

  lemma CutValue(raw: string)
    requires |raw| >= MAX_LINE
    ensures DropSpace(raw[5..MAX_LINE - 1]) + StripCr(raw[MAX_LINE - 1..]) == DropSpace(StripCr(raw)[5..])
  {
    assert StripCr(raw)[5..] == raw[5..MAX_LINE - 1] + StripCr(raw[MAX_LINE - 1..]);
  }

  lemma DataClose(st: Stream, raw: string)
    requires |raw| >= MAX_LINE && IsDataLine(raw)
    ensures Closed(Mid(st, raw)) == Line(st, raw)
  {
    hide Line, Closed, Drain, StripCr, DropSpace, Grow, Join;
    var v, b := DropSpace(raw[5..MAX_LINE - 1]), raw[MAX_LINE - 1..];
    DrainClose(Grow(Join(st), v), b);
    GrowGrow(Join(st), v, StripCr(b));
    CutValue(raw);
    DataLineIs(st, raw);
  }

  // Draining an overlong line piece by piece applies exactly that line.
  lemma {:induction false} MidClose(st: Stream, raw: string)
    ensures Closed(Mid(st, raw)) == Line(st, raw)
    decreases |raw|
  {
    if |raw| >= MAX_LINE {
      if IsDataLine(raw) {
        DataClose(st, raw);
      } else {
        MidClose(st.(truncated := true), raw[MAX_LINE - 1..]);
      }
    }
  }

  lemma LinesPush(ls: seq<string>, l: string)
    ensures Lines(ls + [l]) == Line(Lines(ls), l)
  {
    assert (ls + [l])[..|ls|] == ls;
  }

  class Parser {
    const line: array<char>
    const event: array<char>
    const data: array<char>
    var lineLen: nat
    var dataLen: nat
    var inData: bool
    var truncated: bool
    // The callbacks made so far.
    var events: seq<Event>
    // Everything fed so far.
    ghost var input: string

    ghost predicate Buffers()
      reads this
    {
      && line.Length == MAX_LINE && event.Length == MAX_EVENT && data.Length == MAX_DATA
      && line != event && line != data && event != data
      && lineLen < MAX_LINE && dataLen < MAX_DATA
    }

    // The buffers hold what the reference holds, data cut to what fits.
    ghost predicate Shows(st: Stream)
      reads this, event, data
      requires Buffers()
    {
      && events == st.events && truncated == st.truncated
      && Upto0(event[..]) == st.name
      && data[..dataLen] == Take(st.data, MAX_DATA - 1)
    }

    ghost predicate ShowsPartial(p: Partial)
      reads this, line, event, data
      requires Buffers()
    {
      Shows(p.st) && inData == p.inData && line[..lineLen] == p.carry
    }

    ghost predicate Valid()
      reads this, line, event, data
    {
      && Buffers()
      && (inData ==> lineLen > 0)
      && ShowsPartial(Mid(Lines(Split(input).0), Split(input).1))
    }

    constructor ()
      ensures Valid() && input == "" && events == []
      ensures fresh(line) && fresh(event) && fresh(data)
    {
      line := new char[MAX_LINE](_ => '\0');
      event := new char[MAX_EVENT](_ => '\0');
      data := new char[MAX_DATA](_ => '\0');
      lineLen, dataLen, inData, truncated := 0, 0, false, false;
      events, input := [], "";
    }

    method Dispatch(ghost st: Stream)
      requires Buffers() && Shows(st)
      modifies `dataLen, `inData, `events, event, data
      ensures Buffers() && Shows(SseReference.Dispatch(st))
      ensures !old(inData) ==> !inData
    {
      if dataLen == 0 {
        event[0] := '\0';
        return;
      }
      data[dataLen] := '\0';
      assert data[..][..dataLen] == data[..dataLen];
      Upto0Reads(data[..], Take(st.data, MAX_DATA - 1));
      var name := CString(event);
      var value := CString(data);
      events := events + [Event(name, value)];
      dataLen, inData := 0, false;
      event[0] := '\0';
    }

    // min(|v|, what is free) bytes of line[from..to] go to the data buffer.
    method AppendData(ghost st: Stream, from: nat, to: nat)
      requires Buffers() && Shows(st) && from <= to <= line.Length
      modifies `dataLen, `truncated, data
      ensures Buffers() && Shows(Grow(st, line[from..to]))
    {
      var len := to - from;
      var space := MAX_DATA - 1 - dataLen;
      var n := if len < space then len else space;
      if n < len {
        truncated := true;
      }
      ghost var v := line[from..to];
      MemCpy(data, dataLen, line, from, n);
      dataLen := dataLen + n;
      assert data[..dataLen] == old(data[..dataLen]) + v[..n];
      assert old(data[..dataLen]) + v[..n] == Take(old(data[..dataLen]) + v, MAX_DATA - 1);
      TakeTake(st.data, v, MAX_DATA - 1);
    }

    method JoinData(ghost st: Stream)
      requires Buffers() && Shows(st)
      modifies `dataLen, data
      ensures Buffers() && Shows(Join(st))
    {
      if dataLen > 0 && dataLen < MAX_DATA - 1 {
        ghost var before := data[..dataLen];
        data[dataLen] := '\n';
        dataLen := dataLen + 1;
        assert data[..dataLen] == before + "\n";
      }
    }

    method LinePartial(ghost p: Partial)
      requires Buffers() && ShowsPartial(p) && lineLen == MAX_LINE - 1
      modifies `dataLen, `truncated, `inData, `lineLen, data
      ensures Buffers() && ShowsPartial(Flushed(p)) && lineLen == 0
    {
      var isData := line[0] == 'd' && line[1] == 'a' && line[2] == 't' && line[3] == 'a' && line[4] == ':';
      assert isData == IsDataLine(p.carry) by {
        assert p.carry[..5] == [line[0], line[1], line[2], line[3], line[4]];
      }
      if isData || inData {
        var from := 0;
        ghost var st := p.st;
        if !inData {
          from := if line[5] == ' ' then 6 else 5;
          JoinData(st);
          st := Join(st);
          inData := true;
          assert line[from..lineLen] == DropSpace(p.carry[5..]);
        }
        assert line[0..lineLen] == p.carry;
        AppendData(st, from, lineLen);
      } else {
        truncated := true;
      }
      lineLen := 0;
    }

    // The line in line[..len], its terminator gone.
    method Line(ghost st: Stream, len: nat)
      requires Buffers() && Shows(st) && len < MAX_LINE
      modifies `dataLen, `truncated, `inData, `events, event, data
      ensures Buffers() && !inData
      ensures Shows(if old(inData) then Grow(st, line[..len]) else Field(st, line[..len]))
    {
      if inData {
        AppendData(st, 0, len);
        inData := false;
        return;
      }
      if len == 0 {
        Dispatch(st);
        return;
      }
      if line[0] == ':' {
        return;
      }
      NamedField(st, len);
    }

    method NamedField(ghost st: Stream, len: nat)
      requires Buffers() && Shows(st) && 0 < len < MAX_LINE && line[0] != ':'
      modifies `dataLen, `truncated, event, data
      ensures Buffers() && Shows(Field(st, line[..len]))
    {
      hide SseReference.Dispatch, Join, Grow, Upto0, Take;
      ghost var l := line[..len];
      var flen, from := ValueStart(len);
      if line[..flen] == "event" {
        SetEvent(st, from, len);
      } else if line[..flen] == "data" {
        JoinData(st);
        AppendData(Join(st), from, len);
        assert line[from..len] == Value(l);
      }
      assert line[..len] == l;
    }

    // Where the field name ends and the value begins.
    method ValueStart(len: nat) returns (flen: nat, from: nat)
      requires line.Length == MAX_LINE && len < MAX_LINE
      ensures flen <= len && from <= len
      ensures line[..flen] == Name(line[..len]) && line[from..len] == Value(line[..len])
    {
      flen := FindColon(len);
      from := if flen < len then flen + 1 else len;
      if from < len && line[from] == ' ' {
        from := from + 1;
      }
      assert line[from..len] == Value(line[..len]);
      assert line[..flen] == Name(line[..len]);
    }

    method SetEvent(ghost st: Stream, from: nat, to: nat)
      requires Buffers() && Shows(st) && from <= to <= line.Length
      modifies event
      ensures Shows(st.(name := Upto0(Take(line[from..to], MAX_EVENT - 1))))
    {
      var n := if to - from < MAX_EVENT - 1 then to - from else MAX_EVENT - 1;
      MemCpy(event, 0, line, from, n);
      assert event[..n] == Take(line[from..to], MAX_EVENT - 1);
      event[n] := '\0';
      assert event[..][..n] == event[..n];
      Upto0Reads(event[..], Take(line[from..to], MAX_EVENT - 1));
    }

    method FindColon(len: nat) returns (k: nat)
      requires line.Length == MAX_LINE && len < MAX_LINE
      ensures k == IndexOf(line[..len], ':')
    {
      k := 0;
      while k < len && line[k] != ':'
        invariant k <= len && forall i :: 0 <= i < k ==> line[i] != ':'
      {
        k := k + 1;
      }
    }

    method Feed(buf: string)
      requires Valid()
      modifies this, line, event, data
      ensures Valid() && input == old(input) + buf
    {
      hide *;
      for i := 0 to |buf|
        invariant Valid() && input == old(input) + buf[..i]
      {
        ghost var was := input;
        FeedByte(buf[i]);
        assert old(input) + buf[..i + 1] == was + [buf[i]];
      }
      assert buf[..|buf|] == buf;
    }

    method FeedByte(c: char)
      requires Valid()
      modifies this, line, event, data
      ensures Valid() && input == old(input) + [c]
    {
      hide SseReference.Line, Field, Lines, Split, Flushed, Closed;
      ghost var (ls, rest) := Split(input);
      ghost var p := Mid(Lines(ls), rest);
      SplitPush(input, c);
      if c == '\n' {
        TakeLine(p);
        MidClose(Lines(ls), rest);
        LinesPush(ls, rest);
        input := input + [c];
      } else {
        MidPush(Lines(ls), rest, c);
        PushByte(p, c);
        input := input + [c];
      }
    }

    method PushByte(ghost p: Partial, c: char)
      requires Buffers() && ShowsPartial(p)
      modifies `dataLen, `truncated, `inData, `lineLen, line, data
      ensures Buffers() && ShowsPartial(Pushed(p, c)) && lineLen > 0
    {
      if lineLen == MAX_LINE - 1 {
        LinePartial(p);
      }
      line[lineLen] := c;
      lineLen := lineLen + 1;
      assert line[..lineLen] == line[..lineLen - 1] + [c];
    }

    // The end of a line: strip one carriage return and apply what is carried.
    method TakeLine(ghost p: Partial)
      requires Buffers() && ShowsPartial(p)
      modifies `dataLen, `truncated, `inData, `events, `lineLen, event, data
      ensures Buffers() && ShowsPartial(Partial(Closed(p), false, ""))
    {
      var l := lineLen;
      if l > 0 && line[l - 1] == '\r' {
        l := l - 1;
      }
      assert line[..l] == StripCr(p.carry);
      Line(p.st, l);
      lineLen := 0;
    }

    // End of input. The callbacks of the whole stream, however it was cut, are
    // those of the reference; so is the truncation flag.
    method Finish()
      requires Valid()
      modifies this, event, data
      ensures events == Parse(input).events && truncated == Parse(input).truncated
      ensures input == old(input)
    {
      ghost var (ls, rest) := Split(input);
      ghost var st := Lines(ls);
      MidClose(st, rest);
      if lineLen > 0 {
        TakeLine(Mid(st, rest));
        st := SseReference.Line(st, rest);
      }
      Dispatch(st);
    }
  }

  method MemCpy(dst: array<char>, at: nat, src: array<char>, from: nat, n: nat)
    requires dst != src && at + n <= dst.Length && from + n <= src.Length
    modifies dst
    ensures dst[..] == old(dst[..at]) + src[from..from + n] + old(dst[at + n..])
  {
    forall i | 0 <= i < n {
      dst[at + i] := src[from + i];
    }
  }

  method CString(a: array<char>) returns (s: string)
    ensures s == Upto0(a[..])
  {
    var n := 0;
    while n < a.Length && a[n] != '\0'
      invariant n <= a.Length && '\0' !in a[..n]
    {
      n := n + 1;
    }
    s := a[..n];
    Upto0Is(a[..], n);
  }

  lemma {:induction false} Upto0Is(s: string, n: nat)
    requires n <= |s| && '\0' !in s[..n] && (n < |s| ==> s[n] == '\0')
    ensures Upto0(s) == s[..n]
  {
    if n > 0 {
      assert s[0] == s[..n][0];
      assert s[1..][..n - 1] == s[..n][1..];
      Upto0Is(s[1..], n - 1);
    }
  }

  ghost function Concat(chunks: seq<string>): string
  {
    if chunks == [] then "" else Concat(chunks[..|chunks| - 1]) + chunks[|chunks| - 1]
  }

  // Init, any number of feeds, finish: cutting the stream differently changes
  // neither the callbacks nor the flag.
  method Run(chunks: seq<string>) returns (events: seq<Event>, truncated: bool)
    ensures events == Parse(Concat(chunks)).events
    ensures truncated == Parse(Concat(chunks)).truncated
  {
    var p := new Parser();
    for i := 0 to |chunks|
      invariant p.Valid() && p.input == Concat(chunks[..i])
      invariant fresh(p) && fresh(p.line) && fresh(p.event) && fresh(p.data)
    {
      p.Feed(chunks[i]);
      assert chunks[..i + 1][..i] == chunks[..i];
    }
    assert chunks[..|chunks|] == chunks;
    p.Finish();
    events, truncated := p.events, p.truncated;
  }
}
