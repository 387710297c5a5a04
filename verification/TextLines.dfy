// Text as lines ended by a newline, the way every file and stream here is read.

module TextLines {
  // The complete lines of a text, and what follows the last newline.
  function Split(s: string): (r: (seq<string>, string))
  {
    if s == "" then ([], "")
    else
      var (ls, rest) := Split(s[..|s| - 1]);
      var c := s[|s| - 1];
      if c == '\n' then (ls + [rest], "") else (ls, rest + [c])
  }

  function Unsplit(ls: seq<string>, rest: string): string
  {
    if ls == [] then rest else ls[0] + "\n" + Unsplit(ls[1..], rest)
  }

  lemma {:induction false} UnsplitSnoc(ls: seq<string>, l: string, rest: string)
    ensures Unsplit(ls + [l], rest) == Unsplit(ls, l + "\n" + rest)
  {
    if ls == [] {
      assert ls + [l] == [l];
    } else {
      assert (ls + [l])[1..] == ls[1..] + [l];
      UnsplitSnoc(ls[1..], l, rest);
    }
  }

  lemma {:induction false} UnsplitAppend(ls: seq<string>, rest: string, x: string)
    ensures Unsplit(ls, rest + x) == Unsplit(ls, rest) + x
  {
    if ls != [] {
      UnsplitAppend(ls[1..], rest, x);
      assert ls[0] + "\n" + (Unsplit(ls[1..], rest) + x) == Unsplit(ls, rest) + x;
    }
  }

  // Split cuts exactly at the newlines and loses nothing.
  lemma {:induction false} SplitIsExact(s: string)
    ensures var (ls, rest) := Split(s);
      Unsplit(ls, rest) == s && '\n' !in rest && forall i :: 0 <= i < |ls| ==> '\n' !in ls[i]
  {
    if s != "" {
      var t, c := s[..|s| - 1], s[|s| - 1];
      SplitIsExact(t);
      var (ls, rest) := Split(t);
      assert s == t + [c];
      if c == '\n' {
        UnsplitSnoc(ls, rest, "");
        UnsplitAppend(ls, rest, "\n");
        assert rest + "\n" + "" == rest + "\n";
      } else {
        UnsplitAppend(ls, rest, [c]);
      }
    }
  }

  // Split takes in a byte at a time.
  lemma SplitPush(s: string, c: char)
    ensures Split(s + [c]) ==
      if c == '\n' then (Split(s).0 + [Split(s).1], "") else (Split(s).0, Split(s).1 + [c])
  {
    assert (s + [c])[..|s|] == s;
  }

  // A line appended with its newline.
  lemma {:induction false} SplitAppendLine(s: string, l: string)
    requires '\n' !in l
    ensures Split(s + l).0 == Split(s).0 && Split(s + l).1 == Split(s).1 + l
    ensures Split(s + l + "\n") == (Split(s).0 + [Split(s).1 + l], "")
  {
    if l == "" {
      assert s + l == s;
    } else {
      var m, c := l[..|l| - 1], l[|l| - 1];
      SplitAppendLine(s, m);
      assert s + l == s + m + [c];
      SplitPush(s + m, c);
      assert m + [c] == l;
      assert Split(s).1 + m + [c] == Split(s).1 + l;
    }
    SplitPush(s + l, '\n');
  }
}
