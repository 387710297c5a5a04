// A tool call reassembled from streamed events (claw/claw_backend.h,
// claw/claw_backend_anthropic.c, gated by on_sse_event in claw/claw_agent.c), and
// the hash that tells a repeated call (claw/claw_agent.c).

module ToolEvents {
  import opened CStrings

  const ARGS_MAX: nat := 8192
  const NAME_MAX: nat := 64

  // A decoded event, as far as the accumulator looks at it. A block that is not a
  // tool_use opens with no tool; a delta carries a fragment of arguments or not.
  datatype Event =
    | Start(tool: Option<(string, string)>)
    | Delta(frag: Option<string>)
    | Stop
    | Unrelated

  datatype Call = Call(name: string, id: string, json: string, overflow: bool)

  // The accumulator, and whether a call has been handed over.
  datatype Acc = Acc(call: Call, active: bool, taken: bool)

  const EMPTY := Acc(Call("", "", "", false), false, false)

  function Add(c: Call, frag: string): Call
  {
    c.(json := Take(c.json + frag, ARGS_MAX - 1),
       overflow := c.overflow || |c.json| + |frag| > ARGS_MAX - 1)
  }

  // snprintf into a field of 64 bytes.
  function Field(s: string): string { Take(Upto0(s), NAME_MAX - 1) }

  function Feed(a: Acc, e: Event): Acc
  {
    if a.taken then a
    else match e
      case Start(tool) =>
        if tool.None? then a
        else a.(call := Call(Field(tool.value.0), Field(tool.value.1), "", a.call.overflow), active := true)
      case Delta(frag) =>
        if a.active && frag.Some? then a.(call := Add(a.call, Upto0(frag.value))) else a
      case Stop =>
        if !a.active then a
        else
          var c := if a.call.json == "" then Add(a.call, "{}") else a.call;
          Acc(c, false, c.name != "")
      case Unrelated => a
  }

  function FeedAll(a: Acc, es: seq<Event>): Acc
    decreases |es|
  {
    if es == [] then a else FeedAll(Feed(a, es[0]), es[1..])
  }

  // ---- what a provider sends: content blocks, one after the other ----

  datatype Block =
    | Tool(name: string, id: string, frags: seq<string>)
    | Prose(deltas: nat)

  function Deltas(frags: seq<string>): seq<Event>
  {
    if frags == [] then [] else [Delta(Some(frags[0]))] + Deltas(frags[1..])
  }

  function ProseDeltas(n: nat): seq<Event>
  {
    if n == 0 then [] else [Delta(None)] + ProseDeltas(n - 1)
  }

  function Events(b: Block): seq<Event>
  {
    match b
    case Tool(name, id, frags) => [Start(Some((name, id)))] + Deltas(frags) + [Stop]
    case Prose(n) => [Start(None)] + ProseDeltas(n) + [Stop]
  }

  function Stream(bs: seq<Block>): seq<Event>
  {
    if bs == [] then [] else Events(bs[0]) + Stream(bs[1..])
  }

  function Joined(frags: seq<string>): string
  {
    if frags == [] then "" else Upto0(frags[0]) + Joined(frags[1..])
  }

  // ---- what comes out ----

  predicate Overlong(b: Block)
  {
    b.Tool? && |Joined(b.frags)| > ARGS_MAX - 1
  }

  predicate Named(b: Block)
  {
    b.Tool? && Field(b.name) != ""
  }

  // The first named tool block, its arguments whole or cut, "{}" for none. Nothing
  // resets the overflow flag: an overlong block without a name leaves it set.
  function Result(bs: seq<Block>, overflow: bool): Option<Call>
  {
    if bs == [] then None
    else
      var b := bs[0];
      var o := overflow || Overlong(b);
      if Named(b) then
        Some(Call(Field(b.name), Field(b.id),
                  if Joined(b.frags) == "" then "{}" else Take(Joined(b.frags), ARGS_MAX - 1), o))
      else Result(bs[1..], o)
  }

  lemma {:induction false} FeedConcat(a: Acc, x: seq<Event>, y: seq<Event>)
    ensures FeedAll(a, x + y) == FeedAll(FeedAll(a, x), y)
    decreases |x|
  {
    if x == [] {
      assert x + y == y;
    } else {
      assert (x + y)[1..] == x[1..] + y;
      FeedConcat(Feed(a, x[0]), x[1..], y);
    }
  }

  lemma {:induction false} TakenStays(a: Acc, es: seq<Event>)
    requires a.taken
    ensures FeedAll(a, es) == a
  {
    if es != [] {
      TakenStays(a, es[1..]);
    }
  }

  lemma AddAdd(c: Call, x: string, y: string)
    requires |c.json| <= ARGS_MAX - 1
    ensures Add(Add(c, x), y) == Add(c, x + y)
  {
    TakeTake(c.json + x, y, ARGS_MAX - 1);
    assert c.json + x + y == c.json + (x + y);
  }

  lemma {:induction false} FeedDeltas(a: Acc, frags: seq<string>)
    requires a.active && !a.taken && |a.call.json| <= ARGS_MAX - 1
    ensures FeedAll(a, Deltas(frags)) == a.(call := Add(a.call, Joined(frags)))
    decreases |frags|
  {
    if frags == [] {
      assert a.call.json + "" == a.call.json;
    } else {
      var b := Feed(a, Delta(Some(frags[0])));
      assert Deltas(frags)[1..] == Deltas(frags[1..]);
      FeedDeltas(b, frags[1..]);
      AddAdd(a.call, Upto0(frags[0]), Joined(frags[1..]));
    }
  }

  lemma {:induction false} FeedProse(a: Acc, n: nat)
    requires !a.active
    ensures FeedAll(a, ProseDeltas(n)) == a
  {
    if n > 0 {
      assert ProseDeltas(n)[1..] == ProseDeltas(n - 1);
      FeedProse(a, n - 1);
    }
  }

  lemma ThreeParts(a: Acc, s: Event, mid: seq<Event>)
    ensures FeedAll(a, [s] + mid + [Stop]) == Feed(FeedAll(Feed(a, s), mid), Stop)
  {
    FeedConcat(a, [s] + mid, [Stop]);
    FeedConcat(a, [s], mid);
    assert forall b: Acc, e: Event :: FeedAll(b, [e]) == FeedAll(Feed(b, e), [e][1..]);
  }

  // One block, from an accumulator that is not in the middle of another.
  lemma FeedBlock(a: Acc, b: Block)
    requires !a.active && !a.taken
    ensures var u := FeedAll(a, Events(b));
      && !u.active && u.call.overflow == (a.call.overflow || Overlong(b))
      && u.taken == Named(b)
      && (Named(b) ==> Result([b], a.call.overflow) == Some(u.call))
  {
    match b
    case Tool(name, id, frags) =>
      ThreeParts(a, Start(Some((name, id))), Deltas(frags));
      var s := Feed(a, Start(Some((name, id))));
      FeedDeltas(s, frags);
      assert "" + Joined(frags) == Joined(frags);
      assert Joined(frags) == "" ==> Take("" + "{}", ARGS_MAX - 1) == "{}";
    case Prose(n) =>
      ThreeParts(a, Start(None), ProseDeltas(n));
      FeedProse(a, n);
  }

  // Reassembly: for any blocks and any fragments, the call handed over is the
  // first completed named one, and no later event changes it.
  lemma {:induction false} Reassembly(a: Acc, bs: seq<Block>)
    requires !a.active && !a.taken
    ensures var u := FeedAll(a, Stream(bs)); var r := Result(bs, a.call.overflow);
      u.taken == r.Some? && (r.Some? ==> u.call == r.value)
    decreases |bs|
  {
    if bs != [] {
      var mid := FeedAll(a, Events(bs[0]));
      FeedConcat(a, Events(bs[0]), Stream(bs[1..]));
      FeedBlock(a, bs[0]);
      if mid.taken {
        TakenStays(mid, Stream(bs[1..]));
      } else {
        Reassembly(mid, bs[1..]);
      }
    }
  }

  // The flag on the call handed over reports that call's own arguments exactly
  // when no unnamed block before it was overlong.
  lemma {:induction false} OverflowIsOwn(bs: seq<Block>, overflow: bool, k: nat)
    requires k < |bs| && Named(bs[k]) && forall i :: 0 <= i < k ==> !Named(bs[i])
    ensures Result(bs, overflow).Some?
    ensures Result(bs, overflow).value.overflow
        <==> Overlong(bs[k]) || overflow || exists i :: 0 <= i < k && Overlong(bs[i])
  {
    if k > 0 {
      var t, o := bs[1..], overflow || Overlong(bs[0]);
      OverflowIsOwn(t, o, k - 1);
      assert forall i :: 0 <= i < k - 1 ==> t[i] == bs[i + 1];
      assert (exists i :: 0 <= i < k && Overlong(bs[i]))
          <==> Overlong(bs[0]) || exists i :: 0 <= i < k - 1 && Overlong(t[i]) by {
        if i :| 0 <= i < k && Overlong(bs[i]) {
          assert i > 0 ==> Overlong(t[i - 1]);
        }
        if i :| 0 <= i < k - 1 && Overlong(t[i]) {
          assert Overlong(bs[i + 1]);
        }
      }
    }
  }

  function Concat(frags: seq<string>): string
  {
    if frags == [] then "" else frags[0] + Concat(frags[1..])
  }

  lemma {:induction false} JoinedIs(frags: seq<string>)
    requires forall i :: 0 <= i < |frags| ==> '\0' !in frags[i]
    ensures Joined(frags) == Concat(frags)
  {
    if frags != [] {
      Upto0Whole(frags[0]);
      JoinedIs(frags[1..]);
    }
  }

  lemma {:induction false} ResultAfterProse(pre: seq<Block>, bs: seq<Block>, overflow: bool)
    requires forall i :: 0 <= i < |pre| ==> pre[i].Prose?
    ensures Result(pre + bs, overflow) == Result(bs, overflow)
  {
    if pre == [] {
      assert pre + bs == bs;
    } else {
      assert (pre + bs)[1..] == pre[1..] + bs;
      ResultAfterProse(pre[1..], bs, overflow);
    }
  }

  // A reply of prose, one call and anything after it: the call arrives with its
  // name, its id and its arguments, each whole when it fits and else its first bytes.
  lemma CallArrives(pre: seq<Block>, name: string, id: string, frags: seq<string>, post: seq<Block>)
    requires forall i :: 0 <= i < |pre| ==> pre[i].Prose?
    requires name != "" && '\0' !in name && '\0' !in id && forall i :: 0 <= i < |frags| ==> '\0' !in frags[i]
    ensures var u, json := FeedAll(EMPTY, Stream(pre + [Tool(name, id, frags)] + post)), Concat(frags);
      && u.taken
      && u.call.name == (if |name| <= 63 then name else name[..63])
      && u.call.id == (if |id| <= 63 then id else id[..63])
      && u.call.json == (if json == "" then "{}" else if |json| <= 8191 then json else json[..8191])
      && (u.call.overflow <==> |json| > 8191)
  {
    var b := Tool(name, id, frags);
    JoinedIs(frags);
    Upto0Whole(name);
    Upto0Whole(id);
    hide Stream, Joined, Upto0;
    Reassembly(EMPTY, pre + [b] + post);
    assert pre + [b] + post == pre + ([b] + post);
    ResultAfterProse(pre, [b] + post, false);
    assert ([b] + post)[0] == b;
  }
}

module ToolCall {
  import opened CStrings
  import opened ToolEvents

  // claw_tool_accum_t, and the has_call flag of the stream it belongs to.
  class Accum {
    const json: array<char>
    var jsonLen: nat
    var name: string
    var id: string
    var active: bool
    var overflow: bool
    var hasCall: bool

    ghost predicate Shows(c: Call)
      reads this, json
    {
      && json.Length == ARGS_MAX && jsonLen < ARGS_MAX && json[..jsonLen] == c.json
      && name == c.name && id == c.id && overflow == c.overflow
    }

    ghost predicate Matches(a: Acc)
      reads this, json
    {
      Shows(a.call) && active == a.active && hasCall == a.taken
    }

    constructor ()
      ensures Matches(EMPTY) && fresh(json)
    {
      json := new char[ARGS_MAX](_ => '\0');
      jsonLen, name, id, active, overflow, hasCall := 0, "", "", false, false, false;
    }

    // claw_tool_accum_add
    method Add(frag: string, ghost c: Call)
      requires Shows(c)
      modifies `jsonLen, `overflow, json
      ensures Shows(ToolEvents.Add(c, frag))
    {
      var n := |frag|;
      var space := ARGS_MAX - 1 - jsonLen;
      if n > space {
        n := space;
        overflow := true;
      }
      forall i | 0 <= i < n {
        json[jsonLen + i] := frag[i];
      }
      jsonLen := jsonLen + n;
      json[jsonLen] := '\0';
      assert json[..jsonLen] == c.json + frag[..n];
      assert c.json + frag[..n] == Take(c.json + frag, ARGS_MAX - 1);
    }

    // extract_tool_call
    method Extract(e: Event, ghost a: Acc) returns (ready: bool)
      requires Matches(a) && !a.taken
      modifies `jsonLen, `name, `id, `active, `overflow, json
      ensures ready == Feed(a, e).taken
      ensures Shows(Feed(a, e).call) && active == Feed(a, e).active
    {
      ready := false;
      match e {
        case Start(tool) =>
          if tool.Some? {
            name, id := Field(tool.value.0), Field(tool.value.1);
            jsonLen := 0;
            json[0] := '\0';
            active := true;
          }
        case Delta(frag) =>
          if active && frag.Some? {
            Add(Upto0(frag.value), a.call);
          }
        case Stop =>
          if active {
            active := false;
            if jsonLen == 0 {
              Add("{}", a.call);
            }
            ready := name != "";
          }
        case Unrelated =>
      }
    }

    // on_sse_event: nothing is fed once a call is ready.
    method OnEvent(e: Event, ghost a: Acc)
      requires Matches(a)
      modifies this, json
      ensures Matches(Feed(a, e))
    {
      if !hasCall {
        var ready := Extract(e, a);
        if ready {
          hasCall := true;
        }
      }
    }
  }

  // A whole stream of blocks through a fresh accumulator.
  method Receive(bs: seq<Block>) returns (call: Option<Call>)
    ensures call == Result(bs, false)
  {
    var acc := new Accum();
    var es := Stream(bs);
    ghost var a := EMPTY;
    assert es[0..] == es;
    for i := 0 to |es|
      invariant acc.Matches(a) && fresh(acc) && fresh(acc.json)
      invariant FeedAll(a, es[i..]) == FeedAll(EMPTY, es)
    {
      assert es[i..][1..] == es[i + 1..];
      acc.OnEvent(es[i], a);
      a := Feed(a, es[i]);
    }
    Reassembly(EMPTY, bs);
    call := if acc.hasCall then Some(Call(acc.name, acc.id, acc.json[..acc.jsonLen], acc.overflow)) else None;
  }
}

module RepeatedCall {
  // 32-bit FNV-1a over the bytes of the argument text. The multiplication wraps.
  const WORD: nat := 0x1_0000_0000
  type Word = h: nat | h < WORD
  const BASIS: Word := 2166136261
  const PRIME: nat := 16777619
  const INVERSE: nat := 899433627

  type Byte = b: nat | b < 256

  function XorBit(a: nat, b: nat): nat
  {
    if a == b then 0 else 1
  }

  // x ^ y over n bits.
  function XorBits(x: nat, y: nat, n: nat): nat
  {
    if n == 0 then 0 else 2 * XorBits(x / 2, y / 2, n - 1) + XorBit(x % 2, y % 2)
  }

  function Pow2(n: nat): nat { if n == 0 then 1 else 2 * Pow2(n - 1) }

  // Doing it twice undoes it.
  lemma {:induction false} XorTwice(x: nat, y: nat, n: nat)
    requires x < Pow2(n)
    ensures XorBits(x, y, n) < Pow2(n)
    ensures XorBits(XorBits(x, y, n), y, n) == x
  {
    if n > 0 {
      hide XorBits;
      XorTwice(x / 2, y / 2, n - 1);
      var r, bit := XorBits(x / 2, y / 2, n - 1), XorBit(x % 2, y % 2);
      XorStep(x, y, n);
      XorStep(2 * r + bit, y, n);
      LastBit(r, bit);
      assert XorBit(bit, y % 2) == x % 2;
      hide XorBit;
      assert XorBits(2 * r + bit, y, n) == 2 * (x / 2) + x % 2;
    }
  }

  lemma XorStep(x: nat, y: nat, n: nat)
    requires n > 0
    ensures XorBits(x, y, n) == 2 * XorBits(x / 2, y / 2, n - 1) + XorBit(x % 2, y % 2)
  {
  }

  lemma LastBit(r: nat, bit: nat)
    requires bit < 2
    ensures (2 * r + bit) / 2 == r && (2 * r + bit) % 2 == bit
  {
  }

  lemma {:induction false} XorSwap(x: nat, y: nat, n: nat)
    ensures XorBits(x, y, n) == XorBits(y, x, n)
  {
    if n > 0 {
      XorSwap(x / 2, y / 2, n - 1);
    }
  }

  function XorByte(x: Byte, y: Byte): Byte
  {
    XorTwiceByte(x, y);
    XorBits(x, y, 8)
  }

  // h ^ b: only the low byte changes.
  function Xor(h: Word, b: Byte): Word
  {
    h / 256 * 256 + XorByte(h % 256, b)
  }

  lemma XorTwiceByte(x: Byte, y: Byte)
    ensures XorBits(x, y, 8) < 256 && XorBits(XorBits(x, y, 8), y, 8) == x
    ensures XorBits(XorBits(x, y, 8), x, 8) == y
  {
    hide XorBits;
    assert Pow2(4) == 16 && Pow2(8) == 256;
    XorTwice(x, y, 8);
    XorTwice(y, x, 8);
    XorSwap(x, y, 8);
  }

  function Times(h: Word): Word
  {
    h * 16777619 % 0x1_0000_0000
  }

  function Mix(h: Word, b: Byte): Word
  {
    Times(Xor(h, b))
  }

  function Hash(h: Word, s: seq<Byte>): Word
    decreases |s|
  {
    if s == [] then h else Hash(Mix(h, s[0]), s[1..])
  }

  lemma ModOf(h: Word, t: int)
    ensures (h + WORD * t) % WORD == h
  {
  }

  lemma Remainder(n: nat)
    ensures n == n / WORD * WORD + n % WORD
  {
  }

  lemma TimesIs(h: Word)
    ensures Times(h) == h * PRIME % WORD
  {
  }

  // The prime has an inverse modulo 2^32, so multiplying by it loses nothing.
  lemma PrimeIsInvertible(h: Word)
    ensures PRIME * INVERSE % WORD == 1
    ensures Times(h) * INVERSE % WORD == h
  {
    hide Times;
    var c := 3513497;
    assert PRIME * INVERSE == 1 + WORD * c;
    ModOf(1, c);
    var q := h * PRIME / WORD;
    TimesIs(h);
    Remainder(h * PRIME);
    assert Times(h) * INVERSE == h + WORD * (h * c - q * INVERSE);
    ModOf(h, h * c - q * INVERSE);
  }

  lemma TimesInjective(h: Word, k: Word)
    requires Times(h) == Times(k)
    ensures h == k
  {
    hide Times;
    PrimeIsInvertible(h);
    PrimeIsInvertible(k);
  }

  lemma XorInjective(h: Word, k: Word, a: Byte, b: Byte)
    requires Xor(h, a) == Xor(k, b)
    ensures a == b ==> h == k
    ensures h == k ==> a == b
  {
    hide XorBits;
    XorTwiceByte(h % 256, a);
    XorTwiceByte(k % 256, b);
    assert h / 256 == Xor(h, a) / 256 && k / 256 == Xor(k, b) / 256;
    assert XorByte(h % 256, a) == XorByte(k % 256, b);
  }

  // One step is a bijection in the state and tells any two bytes apart.
  lemma MixInjective(h: Word, k: Word, a: Byte, b: Byte)
    requires Mix(h, a) == Mix(k, b)
    ensures a == b ==> h == k
    ensures h == k ==> a == b
  {
    hide Times, Xor;
    TimesInjective(Xor(h, a), Xor(k, b));
    XorInjective(h, k, a, b);
  }

  // What follows can never bring two different states together.
  lemma {:induction false} HashInjective(h: Word, k: Word, s: seq<Byte>)
    requires Hash(h, s) == Hash(k, s)
    ensures h == k
    decreases |s|
  {
    hide Mix;
    if s != [] {
      HashInjective(Mix(h, s[0]), Mix(k, s[0]), s[1..]);
      MixInjective(h, k, s[0], s[0]);
    }
  }

  lemma {:induction false} HashConcat(h: Word, s: seq<Byte>, t: seq<Byte>)
    ensures Hash(h, s + t) == Hash(Hash(h, s), t)
    decreases |s|
  {
    hide Mix;
    if s == [] {
      assert s + t == t;
    } else {
      assert (s + t)[1..] == s[1..] + t;
      HashConcat(Mix(h, s[0]), s[1..], t);
    }
  }

  // Arguments that differ in exactly one byte never share a hash, whatever their
  // length.
  lemma OneByteApart(pre: seq<Byte>, a: Byte, b: Byte, post: seq<Byte>)
    requires a != b
    ensures Hash(BASIS, pre + [a] + post) != Hash(BASIS, pre + [b] + post)
  {
    hide Mix;
    var h := Hash(BASIS, pre);
    HashConcat(BASIS, pre + [a], post);
    HashConcat(BASIS, pre, [a]);
    HashConcat(BASIS, pre + [b], post);
    HashConcat(BASIS, pre, [b]);
    assert Hash(h, [a]) == Mix(h, a) && Hash(h, [b]) == Mix(h, b);
    if Hash(Mix(h, a), post) == Hash(Mix(h, b), post) {
      HashInjective(Mix(h, a), Mix(h, b), post);
      MixInjective(h, h, a, b);
    }
  }

  method Fnv(s: seq<Byte>) returns (hash: Word)
    ensures hash == Hash(BASIS, s)
  {
    hide Mix;
    hash := BASIS;
    assert s[0..] == s;
    for i := 0 to |s|
      invariant Hash(hash, s[i..]) == Hash(BASIS, s)
    {
      assert s[i..][1..] == s[i + 1..];
      hash := Mix(hash, s[i]);
    }
  }
}
