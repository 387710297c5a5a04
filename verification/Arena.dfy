// Memory lent to claw as a private heap (claw/claw_arena.c): which heap a pointer
// goes back to, and when the lender may have its memory again.

module Arena {
  import opened CStrings

  const SIZE_MAX: nat := 0xFFFF_FFFF

  datatype Heap = Lent | General

  // Live blocks of one allocator: address and size.
  type Blocks = map<nat, nat>

  predicate Inside(p: nat, n: nat, start: nat, end: nat) { start <= p && p + n <= end }
  predicate Outside(p: nat, n: nat, start: nat, end: nat) { (p < start && p + n <= start) || end <= p }

  // What an allocator promises of the block it hands out: its own range, not null,
  // and an address not in use. The private heap hands out no empty block.
  predicate FromArena(a: Allocator, p: nat, n: nat)
    reads a
  {
    p > 0 && n > 0 && Inside(p, n, a.start, a.end) && p !in a.arena
  }

  // The lent memory is a block of the general heap already, so no other meets it.
  predicate FromGeneral(a: Allocator, p: nat, n: nat)
    reads a
  {
    p > 0 && p !in a.general && Outside(p, n, a.start, a.end)
  }

  class Allocator {
    var heap: bool
    var start: nat
    var end: nat
    var active: bool
    // The two heaps as their allocators see them.
    var arena: Blocks
    var general: Blocks

    ghost predicate Valid()
      reads this
    {
      && (active ==> heap) && (!heap ==> arena == map[] && start == end == 0)
      && (forall p :: p in arena ==> p > 0 && arena[p] > 0 && Inside(p, arena[p], start, end))
      && (forall p :: p in general ==> p > 0 && Outside(p, general[p], start, end))
    }

    constructor ()
      ensures Valid() && !heap && arena == map[] && general == map[]
    {
      heap, start, end, active := false, 0, 0, false;
      arena, general := map[], map[];
    }

    // What the books of a lender would say: one entry for each live block.
    ghost predicate Books(l: Ledger)
      reads this
    {
      && l.heap == heap && l.start == start && l.end == end && l.active == active
      && Tallies(arena, general, l.live)
    }

    predicate InArena(p: nat)
      reads this
    {
      heap && start <= p < end
    }

    // A pointer that either heap handed out lies in the lent range exactly when the
    // arena did.
    lemma InArenaIsOwner(p: nat)
      requires Valid() && (p in arena || p in general)
      ensures InArena(p) <==> p in arena
      ensures !(p in arena && p in general)
    {
      if p in arena {
        assert Inside(p, arena[p], start, end);
      }
      if p in general {
        assert Outside(p, general[p], start, end);
      }
    }

    // claw_malloc: a is what multi_heap_malloc would return, g what malloc would.
    method Malloc(n: nat, a: Option<nat>, g: Option<nat>) returns (p: Option<nat>)
      requires Valid()
      requires a.Some? && active ==> FromArena(this, a.value, n)
      requires g.Some? ==> FromGeneral(this, g.value, n)
      modifies `arena, `general
      ensures Valid()
      ensures p == if active && a.Some? then a else g
      ensures arena == if active && a.Some? then old(arena)[a.value := n] else old(arena)
      ensures general == if !(active && a.Some?) && g.Some? then old(general)[g.value := n] else old(general)
    {
      if active && a.Some? {
        arena := arena[a.value := n];
        return a;
      }
      if g.Some? {
        general := general[g.value := n];
      }
      p := g;
    }

    // claw_calloc: refuses exactly the products that would wrap.
    method Calloc(n: nat, size: nat, a: Option<nat>, g: Option<nat>) returns (p: Option<nat>)
      requires Valid() && n <= SIZE_MAX && size <= SIZE_MAX
      requires a.Some? && active ==> FromArena(this, a.value, n * size)
      requires g.Some? ==> FromGeneral(this, g.value, n * size)
      modifies `arena, `general
      ensures Valid() && (p.Some? ==> n * size <= SIZE_MAX)
      ensures n * size > SIZE_MAX ==> p == None && arena == old(arena) && general == old(general)
      ensures n * size <= SIZE_MAX ==> p == if active && a.Some? then a else g
      ensures n * size <= SIZE_MAX ==>
        arena == if active && a.Some? then old(arena)[a.value := n * size] else old(arena)
      ensures n * size <= SIZE_MAX ==>
        general == if !(active && a.Some?) && g.Some? then old(general)[g.value := n * size] else old(general)
    {
      WrapsIff(n, size);
      if size != 0 && n > SIZE_MAX / size {
        return None;
      }
      p := Malloc(n * size, a, g);
    }

    // claw_free: every block goes back to the heap it came from.
    method Free(p: Option<nat>) returns (into: Option<Heap>)
      requires Valid() && (p.Some? ==> p.value in arena || p.value in general)
      modifies `arena, `general
      ensures Valid()
      ensures arena == if p.Some? then old(arena) - {p.value} else old(arena)
      ensures general == if p.Some? then old(general) - {p.value} else old(general)
      ensures into == if p.None? then None else Some(if p.value in old(arena) then Lent else General)
    {
      if p.None? {
        return None;
      }
      InArenaIsOwner(p.value);
      if InArena(p.value) {
        arena := arena - {p.value};
        into := Some(Lent);
      } else {
        general := general - {p.value};
        into := Some(General);
      }
    }

    // claw_arena_begin; `registers` is whether multi_heap_register accepts the
    // memory. The lender's block meets no other live one.
    method Begin(mem: nat, size: nat, registers: bool)
      requires Valid()
      requires forall p :: p in general ==> Outside(p, general[p], mem, mem + size)
      modifies `heap, `start, `end, `active
      ensures Valid() && active == (old(heap) || (mem > 0 && size > 0 && registers))
      ensures old(heap) ==> heap && start == old(start) && end == old(end)
      ensures !old(heap) ==> if active then heap && start == mem && end == mem + size else !heap
    {
      if heap {
        active := true;
        return;
      }
      if mem == 0 || size == 0 {
        return;
      }
      heap := registers;
      if heap {
        start, end, active := mem, mem + size, true;
      }
    }

    // claw_arena_end: true exactly when nothing lives in the lent memory. After a
    // false one the range stays known, so later frees still find their heap.
    method End() returns (back: bool)
      requires Valid()
      modifies `heap, `start, `end, `active
      ensures Valid() && !active
      ensures back <==> arena == map[]
      ensures back ==> !heap && forall p :: p in general ==> Outside(p, general[p], old(start), old(end))
      ensures !back ==> heap && start == old(start) && end == old(end)
    {
      active := false;
      if !heap {
        return true;
      }
      if |arena| != 0 {
        NotEmpty(arena);
        return false;
      }
      heap, start, end := false, 0, 0;
      back := true;
    }
  }

  lemma NotEmpty(b: Blocks)
    requires |b| != 0
    ensures b != map[]
  {
  }

  lemma WrapsIff(n: nat, size: nat)
    ensures size != 0 && n > SIZE_MAX / size <==> n * size > SIZE_MAX
  {
    if size != 0 {
      var q, r := SIZE_MAX / size, SIZE_MAX % size;
      assert SIZE_MAX == q * size + r;
      if n > q {
        assert n * size >= (q + 1) * size by { MulGrows(q + 1, n, size); }
        assert (q + 1) * size == q * size + size;
      } else {
        MulGrows(n, q, size);
      }
    }
  }

  lemma {:induction false} MulGrows(x: nat, y: nat, z: nat)
    requires x <= y
    ensures x * z <= y * z
  {
    assert (y - x) * z >= 0;
    assert y * z == x * z + (y - x) * z;
  }

  // ---- runs ----

  datatype Block = Block(home: Heap, size: nat)

  // Every live block with the heap that handed it out. No address is looked at.
  datatype Ledger = Ledger(heap: bool, start: nat, end: nat, active: bool, live: map<nat, Block>)

  datatype Op =
    | Begin(mem: nat, size: nat, registers: bool)
    | Malloc(n: nat, a: Option<nat>, g: Option<nat>)
    | Calloc(count: nat, size: nat, a: Option<nat>, g: Option<nat>)
    | Free(p: Option<nat>)
    | End

  datatype Event = Quiet | Given(p: Option<nat>) | Freed(into: Option<Heap>) | Ended(back: bool)

  // Two heaps with no address in common, and the one list of all their blocks.
  predicate Tallies(arena: Blocks, general: Blocks, live: map<nat, Block>)
  {
    && live.Keys == arena.Keys + general.Keys && arena.Keys !! general.Keys
    && (forall p :: p in arena ==> live[p] == Block(Lent, arena[p]))
    && (forall p :: p in general ==> live[p] == Block(General, general[p]))
  }

  lemma TallyGive(arena: Blocks, general: Blocks, live: map<nat, Block>, p: nat, n: nat)
    requires Tallies(arena, general, live) && p !in live
    ensures Tallies(arena[p := n], general, live[p := Block(Lent, n)])
    ensures Tallies(arena, general[p := n], live[p := Block(General, n)])
  {
  }

  lemma TallyFree(arena: Blocks, general: Blocks, live: map<nat, Block>, p: nat)
    requires Tallies(arena, general, live) && p in live
    ensures Tallies(arena - {p}, general - {p}, live - {p})
    ensures live[p].home == if p in arena then Lent else General
  {
  }

  predicate Lends(l: Ledger)
  {
    exists p :: p in l.live && l.live[p].home == Lent
  }

  // What the two allocators and the callers keep to.
  predicate CanGive(l: Ledger, n: nat, a: Option<nat>, g: Option<nat>)
  {
    && (a.Some? && l.active ==> a.value > 0 && n > 0 && a.value !in l.live && Inside(a.value, n, l.start, l.end))
    && (g.Some? ==> g.value > 0 && g.value !in l.live && Outside(g.value, n, l.start, l.end))
  }

  predicate Allowed(l: Ledger, op: Op)
  {
    match op
    case Begin(mem, size, _) =>
      forall p :: p in l.live && l.live[p].home == General ==> Outside(p, l.live[p].size, mem, mem + size)
    case Malloc(n, a, g) => CanGive(l, n, a, g)
    case Calloc(count, size, a, g) => count <= SIZE_MAX && size <= SIZE_MAX && CanGive(l, count * size, a, g)
    case Free(p) => p.Some? ==> p.value in l.live
    case End => true
  }

  function Give(l: Ledger, n: nat, a: Option<nat>, g: Option<nat>): (Ledger, Event)
  {
    if l.active && a.Some? then (l.(live := l.live[a.value := Block(Lent, n)]), Given(a))
    else if g.Some? then (l.(live := l.live[g.value := Block(General, n)]), Given(g))
    else (l, Given(None))
  }

  function Next(l: Ledger, op: Op): (Ledger, Event)
    requires Allowed(l, op)
  {
    match op
    case Begin(mem, size, registers) =>
      (if l.heap then l.(active := true)
       else if mem == 0 || size == 0 || !registers then l
       else Ledger(true, mem, mem + size, true, l.live), Quiet)
    case Malloc(n, a, g) => Give(l, n, a, g)
    case Calloc(count, size, a, g) =>
      if count * size > SIZE_MAX then (l, Given(None)) else Give(l, count * size, a, g)
    case Free(p) =>
      if p.None? then (l, Freed(None)) else (l.(live := l.live - {p.value}), Freed(Some(l.live[p.value].home)))
    case End =>
      if Lends(l) then (l.(active := false), Ended(false)) else (Ledger(false, 0, 0, false, l.live), Ended(true))
  }

  predicate AllAllowed(l: Ledger, ops: seq<Op>)
    decreases |ops|
  {
    ops == [] || (Allowed(l, ops[0]) && AllAllowed(Next(l, ops[0]).0, ops[1..]))
  }

  // The ledger after a run, and what the run showed.
  function After(l: Ledger, ops: seq<Op>): (Ledger, seq<Event>)
    requires AllAllowed(l, ops)
    decreases |ops|
  {
    if ops == [] then (l, [])
    else
      var (m, e) := Next(l, ops[0]);
      var (n, es) := After(m, ops[1..]);
      (n, [e] + es)
  }

  // A block stays in the heap that handed it out through any begins and ends, so
  // whenever it is freed it goes there.
  lemma {:induction false} StaysHome(l: Ledger, ops: seq<Op>, p: nat)
    requires AllAllowed(l, ops) && p in l.live && Free(Some(p)) !in ops
    ensures var m := After(l, ops).0;
      p in m.live && m.live[p] == l.live[p] && Next(m, Free(Some(p))).1 == Freed(Some(l.live[p].home))
    decreases |ops|
  {
    if ops != [] {
      assert ops[0] != Free(Some(p));
      StaysHome(Next(l, ops[0]).0, ops[1..], p);
    }
  }

  lemma {:induction false} AfterConcat(l: Ledger, a: seq<Op>, b: seq<Op>)
    requires AllAllowed(l, a + b)
    ensures AllAllowed(l, a) && AllAllowed(After(l, a).0, b)
    ensures After(l, a + b) == (After(After(l, a).0, b).0, After(l, a).1 + After(After(l, a).0, b).1)
    decreases |a|
  {
    hide Allowed, Next;
    if a == [] {
      assert a + b == b;
      assert [] + After(l, b).1 == After(l, b).1;
    } else {
      assert (a + b)[0] == a[0] && (a + b)[1..] == a[1..] + b;
      var (m, e) := Next(l, a[0]);
      AfterConcat(m, a[1..], b);
      var x, y := After(m, a[1..]), After(After(m, a[1..]).0, b);
      assert [e] + (x.1 + y.1) == [e] + x.1 + y.1;
    }
  }

  lemma OneStep(l: Ledger, op: Op, ops: seq<Op>)
    requires AllAllowed(l, [op] + ops)
    ensures Allowed(l, op) && AllAllowed(Next(l, op).0, ops)
    ensures var (m, e) := Next(l, op); var (n, es) := After(m, ops); After(l, [op] + ops) == (n, [e] + es)
  {
    hide Allowed, Next;
    assert ([op] + ops)[1..] == ops;
  }

  lemma AfterThree(l: Ledger, x: Op, y: Op, z: Op)
    requires AllAllowed(l, [x, y, z])
    ensures Allowed(l, x) && Allowed(Next(l, x).0, y) && Allowed(Next(Next(l, x).0, y).0, z)
    ensures var (l1, e1) := Next(l, x); var (l2, e2) := Next(l1, y); var (l3, e3) := Next(l2, z);
      After(l, [x, y, z]) == (l3, [e1, e2, e3])
  {
    hide Allowed, Next;
    assert [x] + [y, z] == [x, y, z] && [y] + [z] == [y, z] && [z] + [] == [z];
    OneStep(l, x, [y, z]);
    OneStep(Next(l, x).0, y, [z]);
    OneStep(Next(Next(l, x).0, y).0, z, []);
    var e1, e2 := Next(l, x).1, Next(Next(l, x).0, y).1;
    var e3 := Next(Next(Next(l, x).0, y).0, z).1;
    assert [e1] + ([e2] + ([e3] + [])) == [e1, e2, e3];
  }

  // The lent memory is used between begin and end; a block left in it keeps it lent.
  lemma Borrowed(l: Ledger, mem: nat, size: nat, n: nat, a: nat)
    requires !l.heap && !l.active && mem > 0 && size > 0
    requires AllAllowed(l, [Begin(mem, size, true), Malloc(n, Some(a), None), End])
    ensures After(l, [Begin(mem, size, true), Malloc(n, Some(a), None), End])
      == (Ledger(true, mem, mem + size, false, l.live[a := Block(Lent, n)]), [Quiet, Given(Some(a)), Ended(false)])
  {
    AfterThree(l, Begin(mem, size, true), Malloc(n, Some(a), None), End);
    assert l.live[a := Block(Lent, n)][a].home == Lent;
    hide Inside, Outside, After, AllAllowed;
  }

  // After the end it is not used any more, and the next end gives it back when that
  // block was freed.
  lemma GivenBack(l: Ledger, n: nat, late: nat, g: nat, a: nat)
    requires !l.active && a in l.live && l.live[a].home == Lent && a != g
    requires forall p :: p in l.live && p != a ==> l.live[p].home == General
    requires AllAllowed(l, [Malloc(n, Some(late), Some(g)), Free(Some(a)), End])
    ensures After(l, [Malloc(n, Some(late), Some(g)), Free(Some(a)), End])
      == (Ledger(false, 0, 0, false, l.live[g := Block(General, n)] - {a}), [Given(Some(g)), Freed(Some(Lent)), Ended(true)])
  {
    AfterThree(l, Malloc(n, Some(late), Some(g)), Free(Some(a)), End);
    hide Inside, Outside, After, AllAllowed;
  }

  // Both together: a whole session, with a block that is freed late.
  lemma SessionStory(l: Ledger, mem: nat, size: nat, n: nat, a: nat, g: nat, late: nat)
    requires !l.heap && !l.active && !Lends(l) && mem > 0 && size > 0 && a != g
    requires AllAllowed(l, [Begin(mem, size, true), Malloc(n, Some(a), None), End]
                           + [Malloc(n, Some(late), Some(g)), Free(Some(a)), End])
    ensures After(l, [Begin(mem, size, true), Malloc(n, Some(a), None), End]
                     + [Malloc(n, Some(late), Some(g)), Free(Some(a)), End]).1
      == [Quiet, Given(Some(a)), Ended(false), Given(Some(g)), Freed(Some(Lent)), Ended(true)]
  {
    hide After, AllAllowed, Next, Allowed;
    AfterConcat(l, [Begin(mem, size, true), Malloc(n, Some(a), None), End],
                [Malloc(n, Some(late), Some(g)), Free(Some(a)), End]);
    Borrowed(l, mem, size, n, a);
    var m := Ledger(true, mem, mem + size, false, l.live[a := Block(Lent, n)]);
    GivenBack(m, n, late, g, a);
  }

  method ApplyGive(a: Allocator, op: Op, ghost l: Ledger) returns (e: Event)
    requires a.Valid() && a.Books(l) && Allowed(l, op) && (op.Malloc? || op.Calloc?)
    modifies a
    ensures a.Valid() && a.Books(Next(l, op).0) && e == Next(l, op).1
  {
    ghost var n := if op.Malloc? then op.n else op.count * op.size;
    if l.active && op.a.Some? {
      TallyGive(a.arena, a.general, l.live, op.a.value, n);
    } else if op.g.Some? {
      TallyGive(a.arena, a.general, l.live, op.g.value, n);
    }
    InBooks(a, l);
    hide Tallies, Inside, Outside;
    var p;
    if op.Malloc? {
      p := a.Malloc(op.n, op.a, op.g);
    } else {
      p := a.Calloc(op.count, op.size, op.a, op.g);
    }
    e := Given(p);
  }

  lemma InBooks(a: Allocator, l: Ledger)
    requires a.Books(l)
    ensures forall p :: p !in l.live ==> p !in a.arena && p !in a.general
    ensures forall p :: p in l.live && l.live[p].home == General <==> p in a.general
    ensures forall p :: p in a.general ==> a.general[p] == l.live[p].size
    ensures Lends(l) <==> a.arena != map[]
  {
    if a.arena != map[] {
      var p :| p in a.arena;
      assert l.live[p].home == Lent;
    }
  }

  // One operation, with addresses.
  method Apply(a: Allocator, op: Op, ghost l: Ledger) returns (e: Event)
    requires a.Valid() && a.Books(l) && Allowed(l, op)
    modifies a
    ensures a.Valid() && a.Books(Next(l, op).0) && e == Next(l, op).1
  {
    if op.Malloc? || op.Calloc? {
      e := ApplyGive(a, op, l);
      return;
    }
    InBooks(a, l);
    if op.Free? && op.p.Some? {
      TallyFree(a.arena, a.general, l.live, op.p.value);
      assert op.p.value in a.arena || op.p.value in a.general;
    }
    hide Tallies;
    match op {
      case Begin(mem, size, registers) =>
        a.Begin(mem, size, registers);
        e := Quiet;
      case Free(p) =>
        var into := a.Free(p);
        e := Freed(into);
      case End =>
        var back := a.End();
        e := Ended(back);
    }
  }

  // Any interleaving: what the address test decides is what the ledger says.
  method Run(a: Allocator, ops: seq<Op>, ghost l: Ledger) returns (es: seq<Event>)
    requires a.Valid() && a.Books(l) && AllAllowed(l, ops)
    modifies a
    ensures a.Valid() && a.Books(After(l, ops).0) && es == After(l, ops).1
  {
    hide Next, Allowed;
    es := [];
    ghost var m := l;
    assert ops[0..] == ops;
    for i := 0 to |ops|
      invariant a.Valid() && a.Books(m) && AllAllowed(m, ops[i..])
      invariant After(l, ops).0 == After(m, ops[i..]).0 && After(l, ops).1 == es + After(m, ops[i..]).1
    {
      assert ops[i..][1..] == ops[i + 1..];
      var e := Apply(a, ops[i], m);
      m := Next(m, ops[i]).0;
      es := es + [e];
    }
  }
}
