// C strings: the bytes of a buffer up to its first NUL, and the few sequence
// helpers every component shares.

module CStrings {

  datatype Option<+T> = None | Some(value: T)

  // What a reader of a NUL-terminated buffer sees.
  function Upto0(s: string): (r: string)
    ensures r <= s && '\0' !in r
    ensures |r| < |s| ==> s[|r|] == '\0'
  {
    if s == "" || s[0] == '\0' then "" else [s[0]] + Upto0(s[1..])
  }

  // The first n bytes of s, or all of it when it is shorter.
  function Take<T>(s: seq<T>, n: nat): (r: seq<T>)
  {
    if |s| <= n then s else s[..n]
  }

  function Min(a: int, b: int): int { if a < b then a else b }

  // Position of the first c in s, or |s|.
  function IndexOf(s: string, c: char): (k: nat)
    ensures k <= |s| && forall i :: 0 <= i < k ==> s[i] != c
    ensures k < |s| ==> s[k] == c
  {
    if s == "" || s[0] == c then 0
    else
      1 + IndexOf(s[1..], c)
  }

  lemma TakeTake<T>(a: seq<T>, b: seq<T>, n: nat)
    ensures Take(Take(a, n) + b, n) == Take(a + b, n)
  {
  }

  lemma {:induction false} Upto0Whole(s: string)
    requires '\0' !in s
    ensures Upto0(s) == s
  {
    if s != "" {
      Upto0Whole(s[1..]);
    }
  }

  // Any buffer that starts with the bytes of s and then holds a NUL reads as
  // the C string of s, whatever lies beyond.
  lemma {:induction false} Upto0Reads(buf: string, s: string)
    requires |s| < |buf| && buf[..|s|] == s && buf[|s|] == '\0'
    ensures Upto0(buf) == Upto0(s)
  {
    if s != "" && s[0] != '\0' {
      assert buf[1..][..|s| - 1] == s[1..];
      Upto0Reads(buf[1..], s[1..]);
    }
  }
}
