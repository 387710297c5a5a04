// Shell history (breezybox.c): one line appended per command, the file trimmed in
// place once in a while, and a line counter that `history clear` leaves stale.

module History {
  import opened CStrings
  import opened TextLines

  const MAX_LINES: nat := 100

  function Lines(file: string): seq<string> { Split(file).0 }

  // The last n of them.
  function Tail(ls: seq<string>, n: nat): (r: seq<string>)
    ensures |r| == Min(n, |ls|)
  {
    if n <= |ls| then ls[|ls| - n..] else ls
  }

  lemma TailSnoc(ls: seq<string>, n: nat, l: string)
    requires n <= |ls|
    ensures Tail(ls, n) + [l] == Tail(ls + [l], n + 1)
  {
  }

  lemma TailWhole(ls: seq<string>)
    requires |ls| <= MAX_LINES
    ensures Tail(ls, MAX_LINES) == ls
  {
  }

  lemma TailTail(ls: seq<string>, n: nat, m: nat)
    requires m <= n
    ensures Tail(Tail(ls, n), m) == Tail(ls, m)
  {
  }

  lemma {:induction false} SplitConcat(a: string, b: string)
    requires Split(a).1 == ""
    ensures Split(a + b) == (Split(a).0 + Split(b).0, Split(b).1)
  {
    if b == "" {
      assert a + b == a && Split(a).0 + [] == Split(a).0;
    } else {
      var c, d := b[..|b| - 1], b[|b| - 1];
      SplitConcat(a, c);
      assert a + b == a + c + [d] && b == c + [d];
      SplitPush(a + c, d);
      SplitPush(c, d);
      assert Split(a).0 + Split(c).0 + [Split(c).1] == Split(a).0 + (Split(c).0 + [Split(c).1]);
    }
  }

  class Log {
    // The bytes of the history file; a missing file has none.
    var file: string
    // The number of lines believed to be in it; -1 before they are counted.
    var fileLines: int
    var enabled: bool
    // Every line appended since the last clear.
    ghost var written: seq<string>
    // How often the file was rewritten, and the appends since it last was.
    ghost var rewrites: nat
    ghost var sinceTrim: nat

    // At most 200 lines, the last ones written, and at least the last 100 of them.
    // The counter may be too high but never too low, and it is never more than the
    // appends since the last rewrite explain.
    ghost predicate Valid()
      reads this
    {
      var n := |Lines(file)|;
      && Split(file).1 == "" && n <= 2 * MAX_LINES
      && Min(MAX_LINES, |written|) <= n <= |written|
      && Lines(file) == Tail(written, n)
      && (fileLines < 0 || n <= fileLines <= 2 * MAX_LINES)
      && (rewrites > 0 ==> n <= MAX_LINES + sinceTrim && fileLines <= MAX_LINES + sinceTrim)
    }

    // A file as an earlier boot may have left it.
    constructor (file: string)
      requires Split(file).1 == "" && |Lines(file)| <= 2 * MAX_LINES
      ensures Valid() && this.file == file && written == Lines(file) && enabled && rewrites == 0
    {
      this.file, fileLines, enabled := file, -1, true;
      written, rewrites, sinceTrim := Lines(file), 0, 0;
    }

    method CountLines(text: string) returns (n: nat)
      ensures n == |Lines(text)|
    {
      hide Split;
      NoLines();
      n := 0;
      for i := 0 to |text|
        invariant n == |Lines(text[..i])|
      {
        assert text[..i + 1] == text[..i] + [text[i]];
        SplitPush(text[..i], text[i]);
        if text[i] == '\n' {
          n := n + 1;
        }
      }
      assert text[..|text|] == text;
    }

    lemma NoLines()
      ensures Split("") == ([], "")
    {
    }

    // Past the first `skip` newlines.
    method SkipLines(text: string, skip: nat) returns (start: nat)
      requires skip <= |Lines(text)|
      ensures start <= |text| && Split(text[..start]).1 == "" && |Lines(text[..start])| == skip
    {
      hide Split;
      NoLines();
      start := 0;
      var left := skip;
      while start < |text| && left > 0
        invariant start <= |text| && 0 <= left && left + |Lines(text[..start])| == skip
        invariant left == 0 ==> Split(text[..start]).1 == ""
        decreases |text| - start
      {
        assert text[..start + 1] == text[..start] + [text[start]];
        SplitPush(text[..start], text[start]);
        start := start + 1;
        if text[start - 1] == '\n' {
          left := left - 1;
        }
      }
      assert start == |text| ==> text[..start] == text;
    }

    // history_trim: the kept tail is written over the front, then the file is cut.
    method Trim()
      requires Split(file).1 == ""
      modifies `file, `fileLines
      ensures Split(file).1 == "" && fileLines == |Lines(file)|
      ensures Lines(file) == Tail(old(Lines(file)), MAX_LINES)
    {
      hide Split;
      var buf := file;
      var lines := CountLines(buf);
      if lines > MAX_LINES {
        var start := SkipLines(buf, lines - MAX_LINES);
        var kept := buf[start..];
        SplitConcat(buf[..start], kept);
        assert buf[..start] + kept == buf;
        file := kept + file[|kept|..];
        file := file[..|kept|];
        assert file == kept;
        lines := MAX_LINES;
      }
      fileLines := lines;
    }

    // history_append. The file is rewritten at most once in 101 appends.
    method Append(line: string)
      requires Valid() && '\n' !in line
      modifies this
      ensures Valid() && enabled == old(enabled)
      ensures written == old(written) + [line]
      ensures if Lines(file) == old(Lines(file)) + [line]
              then rewrites == old(rewrites) && sinceTrim == old(sinceTrim) + 1
              else rewrites == old(rewrites) + 1 && sinceTrim == 0 && (old(rewrites) > 0 ==> old(sinceTrim) >= MAX_LINES)
    {
      hide Split, Tail;
      TailSnoc(written, |Lines(file)|, line);
      if fileLines < 0 {
        fileLines := CountLines(file);
      }
      SplitAppendLine(file, line);
      assert "" + line == line;
      file := file + line + "\n";
      written, sinceTrim := written + [line], sinceTrim + 1;
      fileLines := fileLines + 1;
      ghost var all := Lines(file);
      if fileLines > 2 * MAX_LINES {
        Trim();
        if |all| > MAX_LINES {
          TailTail(written, |all|, MAX_LINES);
          rewrites, sinceTrim := rewrites + 1, 0;
        } else {
          TailWhole(all);
        }
      }
    }

    // history clear: the file is removed, the counter is not told.
    method Clear()
      requires Valid()
      modifies this
      ensures Valid() && enabled == old(enabled) && rewrites == old(rewrites) && sinceTrim == old(sinceTrim)
      ensures if enabled then file == "" && written == []
              else file == old(file) && written == old(written)
    {
      if enabled {
        file, written := "", [];
      }
    }

    // breezybox_history_set_enabled
    method SetEnabled(on: bool)
      requires Valid()
      modifies `enabled, `fileLines
      ensures Valid() && enabled == on
    {
      enabled, fileLines := on, -1;
    }
  }

  datatype Command = Line(text: string) | ClearHistory | Toggle(on: bool)

  // The lines a run of commands leaves in force since the last clear.
  function Kept(cs: seq<Command>, start: seq<string>, on: bool): (r: (seq<string>, bool))
    decreases |cs|
  {
    if cs == [] then (start, on)
    else match cs[0]
      case Line(text) => Kept(cs[1..], if on then start + [text] else start, on)
      case ClearHistory => Kept(cs[1..], if on then [] else start, on)
      case Toggle(b) => Kept(cs[1..], start, b)
  }

  lemma {:induction false} KeptConcat(a: seq<Command>, b: seq<Command>, start: seq<string>, on: bool)
    ensures Kept(a + b, start, on) == var m := Kept(a, start, on); Kept(b, m.0, m.1)
    decreases |a|
  {
    if a == [] {
      assert a + b == b;
    } else {
      assert (a + b)[1..] == a[1..] + b;
      assert (a + b)[0] == a[0];
      match a[0]
      case Line(t) => KeptConcat(a[1..], b, if on then start + [t] else start, on);
      case ClearHistory => KeptConcat(a[1..], b, if on then [] else start, on);
      case Toggle(x) => KeptConcat(a[1..], b, start, x);
    }
  }

  function Typed(ts: seq<string>): seq<Command>
  {
    seq(|ts|, i requires 0 <= i < |ts| => Line(ts[i]))
  }

  lemma {:induction false} KeptTyped(ts: seq<string>, start: seq<string>, on: bool)
    ensures Kept(Typed(ts), start, on) == (if on then start + ts else start, on)
    decreases |ts|
  {
    if ts == [] {
      assert start + ts == start;
    } else {
      assert Typed(ts)[1..] == Typed(ts[1..]);
      KeptTyped(ts[1..], if on then start + [ts[0]] else start, on);
      assert start + [ts[0]] + ts[1..] == start + ts;
    }
  }

  lemma KeptOne(cs: seq<Command>, start: seq<string>, on: bool)
    requires |cs| == 1
    ensures Kept(cs, start, on) ==
      match cs[0]
      case Line(t) => (if on then start + [t] else start, on)
      case ClearHistory => (if on then [] else start, on)
      case Toggle(x) => (start, x)
  {
    assert cs[1..] == [];
  }

  lemma KeptTwo(cs: seq<Command>, start: seq<string>, on: bool)
    requires |cs| == 2
    ensures Kept(cs, start, on) == var m := Kept(cs[..1], start, on); Kept(cs[1..], m.0, m.1)
    ensures cs == [Toggle(true), ClearHistory] ==> Kept(cs, start, on) == ([], true)
    ensures cs == [ClearHistory, Toggle(true)] ==> Kept(cs, start, on) == (if on then [] else start, true)
  {
    assert cs == cs[..1] + cs[1..];
    KeptConcat(cs[..1], cs[1..], start, on);
    KeptOne(cs[..1], start, on);
    var m := Kept(cs[..1], start, on);
    KeptOne(cs[1..], m.0, m.1);
  }

  // What is typed while saving is off is not kept, a clear while it is on leaves
  // only what is typed after it, and turning saving on again keeps what was there.
  lemma KeptStory(before: seq<Command>, on: bool, a: seq<string>, b: seq<string>, c: seq<string>, start: seq<string>)
    ensures Kept(before + [Toggle(true), ClearHistory] + Typed(a) + [Toggle(false)] + Typed(b)
                 + [ClearHistory, Toggle(true)] + Typed(c), start, on) == (a + c, true)
  {
    hide Typed, Kept;
    var x := [Toggle(true), ClearHistory];
    var z := [ClearHistory, Toggle(true)];
    var m := Kept(before, start, on);
    KeptConcat(before, x, start, on);
    KeptTwo(x, m.0, m.1);
    KeptTwo(z, a, false);
    KeptOne([Toggle(false)], a, true);
    KeptConcat(before + x, Typed(a), start, on);
    KeptTyped(a, [], true);
    assert [] + a == a;
    KeptConcat(before + x + Typed(a), [Toggle(false)], start, on);
    KeptConcat(before + x + Typed(a) + [Toggle(false)], Typed(b), start, on);
    KeptTyped(b, a, false);
    KeptConcat(before + x + Typed(a) + [Toggle(false)] + Typed(b), z, start, on);
    KeptConcat(before + x + Typed(a) + [Toggle(false)] + Typed(b) + z, Typed(c), start, on);
    KeptTyped(c, a, true);
  }

  // How many of the commands are appended.
  function Appends(cs: seq<Command>, on: bool): nat
    decreases |cs|
  {
    if cs == [] then 0
    else match cs[0]
      case Line(_) => (if on then 1 else 0) + Appends(cs[1..], on)
      case ClearHistory => Appends(cs[1..], on)
      case Toggle(b) => Appends(cs[1..], b)
  }

  // Any interleaving of commands: the file holds the last lines typed while saving
  // was on, never more than 200 and never fewer than the last 100 of them. After
  // the first rewrite every other one takes 101 appends, clears or not.
  method Run(log: Log, cs: seq<Command>)
    requires log.Valid() && forall i :: 0 <= i < |cs| && cs[i].Line? ==> '\n' !in cs[i].text
    modifies log
    ensures log.Valid() && (log.written, log.enabled) == Kept(cs, old(log.written), old(log.enabled))
    ensures log.rewrites > old(log.rewrites) ==>
      (MAX_LINES + 1) * (log.rewrites - old(log.rewrites) - 1) < Appends(cs, old(log.enabled))
    ensures old(log.rewrites) > 0 ==>
      (MAX_LINES + 1) * (log.rewrites - old(log.rewrites)) <= old(log.sinceTrim) + Appends(cs, old(log.enabled))
  {
    assert cs[0..] == cs;
    ghost var appended: nat := 0;
    for i := 0 to |cs|
      invariant log.Valid() && log.rewrites >= old(log.rewrites)
      invariant Kept(cs[i..], log.written, log.enabled) == Kept(cs, old(log.written), old(log.enabled))
      invariant appended + Appends(cs[i..], log.enabled) == Appends(cs, old(log.enabled))
      invariant log.rewrites > old(log.rewrites) ==>
        (MAX_LINES + 1) * (log.rewrites - old(log.rewrites) - 1) + log.sinceTrim < appended
      invariant old(log.rewrites) > 0 ==>
        (MAX_LINES + 1) * (log.rewrites - old(log.rewrites)) + log.sinceTrim <= old(log.sinceTrim) + appended
    {
      assert cs[i..][1..] == cs[i + 1..];
      match cs[i] {
        case Line(text) =>
          if log.enabled {
            log.Append(text);
            appended := appended + 1;
          }
        case ClearHistory => log.Clear();
        case Toggle(on) => log.SetEnabled(on);
      }
    }
  }
}
