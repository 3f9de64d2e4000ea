// A process's address space: user pages from 0 up, and the trapframe and trampoline pages at the top.
module ProcSpace {
  import opened Options
  import opened Counting
  import opened PageTable
  import opened Tables
  import opened Vm

  const TRAMPOLINE: nat := MAXPAGE - 1
  const TRAPFRAME: nat := MAXPAGE - 2
  const RX: Flags := Flags(true, true, false, true, false)
  const RW: Flags := Flags(true, true, true, false, false)

  /** What an address space with no user memory maps: the trampoline if a, the trapframe if b. */
  function Top(v: nat, a: bool, b: bool, trampoline: nat, trapframe: nat): (p: Option<Pte>) {
    if a && v == TRAMPOLINE then Some(Pte(trampoline, RX))
    else if b && v == TRAPFRAME then Some(Pte(trapframe, RW))
    else None
  }

  /** The trampoline is the last page, which only the kernel reaches and no one writes; the trapframe is
      the one below it, which only the kernel reaches and no one runs. */
  lemma TopRights(v: nat, trampoline: nat, trapframe: nat)
    requires v < MAXPAGE
    ensures var p := Top(v, true, true, trampoline, trapframe);
            && (v == 0x3ff_ffff ==> p == Some(Pte(trampoline, Flags(true, true, false, true, false))))
            && (v == 0x3ff_fffe ==> p == Some(Pte(trapframe, Flags(true, true, true, false, false))))
            && (v < 0x3ff_fffe ==> p == None)
  {
  }

  /** r is a new address space that maps its top pages and nothing else; other spaces are as before. */
  ghost predicate Space(mem: Mem, kind: Kinds, mem2: Mem, kind2: Kinds, r: nat, a: bool, b: bool, trampoline: nat, trapframe: nat) {
    && kind2.Keys == kind.Keys && r in kind && kind[r] == Free && kind2[r] == Node(r, 2, 0, r)
    && (forall x :: x in kind && x != r ==> kind2[x] == kind[x] || NewTableOf(kind[x], kind2[x], r))
    && ViewsKept(mem, mem2, kind) && BytesKept(mem, mem2, kind)
    && (forall v :: 0 <= v < MAXPAGE ==> View(mem2, r, v) == Top(v, a, b, trampoline, trapframe))
  }

  /** Every page has the use it had, and no process sees a difference. */
  ghost predicate Restored(mem: Mem, kind: Kinds, mem2: Mem, kind2: Kinds) {
    kind2 == kind && ViewsKept(mem, mem2, kind) && BytesKept(mem, mem2, kind)
  }

  lemma SpaceMade(mem: Mem, kind: Kinds, mem2: Mem, kind2: Kinds, r: nat, trampoline: nat, trapframe: nat)
    requires r in kind && kind[r] == Free && kind2 == kind[r := Node(r, 2, 0, r)]
    requires ViewsKept(mem, mem2, kind) && BytesKept(mem, mem2, kind)
    requires forall v :: 0 <= v < MAXPAGE ==> View(mem2, r, v).None?
    ensures Space(mem, kind, mem2, kind2, r, false, false, trampoline, trapframe)
  {
  }

  /** mappages of one top page, which may find no memory. */
  lemma SpaceMapped(mem: Mem, kind: Kinds, mem1: Mem, kind1: Kinds, mem2: Mem, kind2: Kinds,
                    r: nat, a: bool, trampoline: nat, trapframe: nat, done: nat)
    requires Space(mem, kind, mem1, kind1, r, a, false, trampoline, trapframe) && done <= 1
    requires if a then Mapped(mem1, kind1, mem2, kind2, r, TRAPFRAME, done, trapframe, RW, false)
             else Mapped(mem1, kind1, mem2, kind2, r, TRAMPOLINE, done, trampoline, RX, false)
    ensures Space(mem, kind, mem2, kind2, r, a || done == 1, a && done == 1, trampoline, trapframe)
  {
    hide View;
    forall q, v | IsRoot(kind, q) && 0 <= v < MAXPAGE ensures View(mem2, q, v) == View(mem, q, v) {
      assert IsRoot(kind1, q);
    }
    assert IsRoot(kind1, r);
    forall v | 0 <= v < MAXPAGE ensures View(mem2, r, v) == Top(v, a || done == 1, a && done == 1, trampoline, trapframe) {
      assert View(mem1, r, v) == Top(v, a, false, trampoline, trapframe);
    }
  }

  lemma SpaceUnmapped(mem: Mem, kind: Kinds, mem1: Mem, kind1: Kinds, mem2: Mem, kind2: Kinds, r: nat, trampoline: nat, trapframe: nat)
    requires Space(mem, kind, mem1, kind1, r, true, false, trampoline, trapframe)
    requires Unmapped(mem1, kind1, mem2, kind2, r, TRAMPOLINE, 1, false) && kind2 == kind1
    ensures Space(mem, kind, mem2, kind2, r, false, false, trampoline, trapframe)
  {
    hide View;
    forall q, v | IsRoot(kind, q) && 0 <= v < MAXPAGE ensures View(mem2, q, v) == View(mem, q, v) {
      assert IsRoot(kind1, q);
    }
    assert IsRoot(kind1, r);
    forall v | 0 <= v < MAXPAGE ensures View(mem2, r, v) == Top(v, false, false, trampoline, trapframe) {
      assert View(mem1, r, v) == Top(v, true, false, trampoline, trapframe);
    }
  }

  /** A page that is not a root serves no one. */
  lemma NoneOf(mem: Mem, kind: Kinds, r: nat, x: nat)
    requires TreeOk(mem, kind) && !IsRoot(kind, r) && x in kind
    ensures (kind[x].Node? || kind[x].Leaf?) ==> kind[x].r != r
  {
    if kind[x].Leaf? { assert LeafOk(mem, kind, x, kind[x]); }
    var t := if kind[x].Leaf? then kind[x].up else x;
    if kind[t].Node? {
      HungAt(mem, kind, t, None);
      if kind[t].level == 1 { MiddleOf(mem, kind, t); }
      if kind[t].level == 0 { BottomOf(mem, kind, t); }
    }
  }

  /** Freeing a space made since gives back exactly what it took. */
  lemma SpaceGone(mem: Mem, kind: Kinds, mem1: Mem, kind1: Kinds, mem2: Mem, kind2: Kinds, r: nat, trampoline: nat, trapframe: nat)
    requires TreeOk(mem, kind) && Space(mem, kind, mem1, kind1, r, false, false, trampoline, trapframe)
    requires Released(mem1, kind1, mem2, kind2, r)
    ensures Restored(mem, kind, mem2, kind2)
  {
    hide View, TreeBut;
    forall x | x in kind ensures kind2[x] == kind[x] {
      NoneOf(mem, kind, r, x);
    }
    assert kind2 == kind;
    forall q, v | IsRoot(kind, q) && 0 <= v < MAXPAGE ensures View(mem2, q, v) == View(mem, q, v) {
      assert IsRoot(kind1, q) && q != r;
    }
  }

  lemma NoTables(mem: Mem, kind: Kinds, r: nat)
    requires TreeOk(mem, kind) && r in kind && kind[r] == Free
    ensures TablesOf(kind[r := Node(r, 2, 0, r)], r) == {}
  {
    hide TreeBut, TableId;
    var kind2 := kind[r := Node(r, 2, 0, r)];
    forall x | x in kind2 && kind2[x].Node? && kind2[x].level < 2
      ensures kind2[x].r != r
    {
      NoneOf(mem, kind, r, x);
    }
  }

  /** The trampoline page needs two table pages in a new space, and the trapframe page no more. */
  lemma TopTables(free: nat, free2: nat, have2: set<nat>)
    ensures Lacking(RangeIds(TRAMPOLINE, 1), {}) == 2
    ensures Paid(RangeIds(TRAMPOLINE, 1), free, {}, free2, have2) ==> Lacking(RangeIds(TRAPFRAME, 1), have2) == 0
  {
    OneRange(TRAMPOLINE);
    OneRange(TRAPFRAME);
    var ids := Ids(TRAMPOLINE, 0);
    assert Ids(TRAPFRAME, 0) == ids;
    PairMissing(TableId(1, Pre(1, TRAMPOLINE)), TableId(0, Pre(0, TRAMPOLINE)), {});
    assert ids - ({} + ids) == {};
  }

  /** What the two calls of mappages say about the pages that were free. */
  lemma TopsFit(free0: nat, free1: nat, have1: set<nat>, first: bool, free2: nat, have2: set<nat>, second: bool)
    requires free1 == free0 - 1 && have1 == {}
    requires first <==> free1 >= Lacking(RangeIds(TRAMPOLINE, 1), have1)
    requires first ==> Paid(RangeIds(TRAMPOLINE, 1), free1, have1, free2, have2)
    requires first ==> (second <==> free2 >= Lacking(RangeIds(TRAPFRAME, 1), have2))
    ensures first && second <==> free0 >= 3
  {
    TopTables(free1, free2, have2);
  }

  /** A new address space with the trampoline and the trapframe: it takes a root and two table pages. If
      there are fewer, every page taken is given back. */
  method ProcPagetable(m: Memory, trampoline: nat, trapframe: nat) returns (r: nat)
    requires m.Valid() && trampoline !in m.kind && trapframe in m.kind && m.kind[trapframe] == Held
    modifies m
    ensures m.Valid() && (r != 0 <==> |old(m.free)| >= 3)
    ensures r == 0 ==> Restored(old(m.mem), old(m.kind), m.mem, m.kind)
    ensures r != 0 ==> Space(old(m.mem), old(m.kind), m.mem, m.kind, r, true, true, trampoline, trapframe)
  {
    hide TreeBut, View, FreeOk, Mapped, Unmapped, Released, MappedIn, Borrowed, Space, IsTable, ViewsKept, BytesKept, Paid, Lacking, RangeIds, TablesOf;
    ghost var mem0, kind0, free0 := m.mem, m.kind, |m.free|;
    r := m.Uvmcreate();
    if r == 0 { return; }
    SpaceMade(mem0, kind0, m.mem, m.kind, r, trampoline, trapframe);
    NoTables(mem0, kind0, r);
    OnePage(TRAMPOLINE);
    OnePage(TRAPFRAME);
    SpaceSays(mem0, kind0, m.mem, m.kind, r, false, trampoline, trapframe);
    ghost var mem1, kind1, free1, have1 := m.mem, m.kind, |m.free|, TablesOf(m.kind, r);
    var ok;
    ghost var done;
    ok, done := m.Mappages(r, TRAMPOLINE * PGSIZE, PGSIZE, trampoline, RX, false);
    SpaceMapped(mem0, kind0, mem1, kind1, m.mem, m.kind, r, false, trampoline, trapframe, done);
    ghost var mem2, kind2, free2, have2 := m.mem, m.kind, |m.free|, TablesOf(m.kind, r);
    SpaceSays(mem0, kind0, mem2, kind2, r, ok, trampoline, trapframe);
    if !ok {
      m.Uvmfree(r, 0);
      SpaceGone(mem0, kind0, mem2, kind2, m.mem, m.kind, r, trampoline, trapframe);
      TopsFit(free0, free1, have1, false, free2, have2, false);
      return 0;
    }
    ok, done := m.Mappages(r, TRAPFRAME * PGSIZE, PGSIZE, trapframe, RW, false);
    SpaceMapped(mem0, kind0, mem2, kind2, m.mem, m.kind, r, true, trampoline, trapframe, done);
    if !ok {
      r := Abandon(m, mem0, kind0, r, trampoline, trapframe);
    }
    TopsFit(free0, free1, have1, true, free2, have2, ok);
  }

  /** The second failure path: unmap the trampoline, then free the space. */
  method Abandon(m: Memory, ghost mem0: Mem, ghost kind0: Kinds, r: nat, ghost trampoline: nat, ghost trapframe: nat) returns (none: nat)
    requires m.Valid() && TreeOk(mem0, kind0) && trampoline !in kind0
    requires Space(mem0, kind0, m.mem, m.kind, r, true, false, trampoline, trapframe)
    modifies m
    ensures m.Valid() && none == 0 && Restored(mem0, kind0, m.mem, m.kind)
  {
    hide TreeBut, View, FreeOk, Unmapped, Released, MappedIn, Borrowed, Space, IsTable, ViewsKept, BytesKept;
    SpaceSays(mem0, kind0, m.mem, m.kind, r, true, trampoline, trapframe);
    ghost var mem1, kind1 := m.mem, m.kind;
    m.Uvmunmap(r, TRAMPOLINE, 1, false);
    UnmapBorrowed(mem1, kind1, m.mem, m.kind, r, TRAMPOLINE, 1);
    SpaceUnmapped(mem0, kind0, mem1, kind1, m.mem, m.kind, r, trampoline, trapframe);
    ghost var mem2, kind2 := m.mem, m.kind;
    SpaceSays(mem0, kind0, mem2, kind2, r, false, trampoline, trapframe);
    m.Uvmfree(r, 0);
    SpaceGone(mem0, kind0, mem2, kind2, m.mem, m.kind, r, trampoline, trapframe);
    none := 0;
  }

  lemma SpaceSays(mem0: Mem, kind0: Kinds, mem: Mem, kind: Kinds, r: nat, a: bool, trampoline: nat, trapframe: nat)
    requires Space(mem0, kind0, mem, kind, r, a, false, trampoline, trapframe) && trampoline !in kind0
    ensures IsRoot(kind, r) && View(mem, r, TRAPFRAME).None? && (!a ==> View(mem, r, TRAMPOLINE).None?)
    ensures a ==> MappedIn(mem, kind, r, TRAMPOLINE, 1, false) && Borrowed(mem, kind, r, TRAMPOLINE, 1)
    ensures !a ==> MappedIn(mem, kind, r, 0, 0, true) && (forall v :: 0 <= v < MAXPAGE ==> View(mem, r, v).None?)
  {
    hide View;
    assert View(mem, r, TRAMPOLINE) == Top(TRAMPOLINE, a, false, trampoline, trapframe);
  }

  /** Frees a process's user memory and page table; the trampoline and trapframe pages are not its own. */
  method ProcFreepagetable(m: Memory, r: nat, sz: nat)
    requires m.Valid() && IsRoot(m.kind, r) && Pages(sz) <= TRAPFRAME && MappedIn(m.mem, m.kind, r, 0, Pages(sz), true)
    requires Borrowed(m.mem, m.kind, r, TRAPFRAME, 2)
    requires forall v :: Pages(sz) <= v < TRAPFRAME ==> View(m.mem, r, v).None?
    modifies m
    ensures m.Valid() && Released(old(m.mem), old(m.kind), m.mem, m.kind, r)
  {
    hide TreeBut, View, FreeOk, Unmapped, Released, MappedIn, Borrowed, IsTable;
    ghost var mem0, kind0 := m.mem, m.kind;
    TopsMapped(mem0, kind0, r);
    m.Uvmunmap(r, TRAMPOLINE, 1, false);
    ghost var mem1, kind1 := m.mem, m.kind;
    UnmapBorrowed(mem0, kind0, mem1, kind1, r, TRAMPOLINE, 1);
    OneTopLeft(mem0, kind0, mem1, kind1, r);
    m.Uvmunmap(r, TRAPFRAME, 1, false);
    ghost var mem2, kind2 := m.mem, m.kind;
    UnmapBorrowed(mem1, kind1, mem2, kind2, r, TRAPFRAME, 1);
    TopsGone(mem0, kind0, mem1, kind1, mem2, kind2, r, Pages(sz));
    m.Uvmfree(r, sz);
    ReleasedAfter(mem0, kind0, mem2, kind2, m.mem, m.kind, r);
  }

  lemma TopsMapped(mem: Mem, kind: Kinds, r: nat)
    requires Borrowed(mem, kind, r, TRAPFRAME, 2)
    ensures MappedIn(mem, kind, r, TRAMPOLINE, 1, false) && Borrowed(mem, kind, r, TRAMPOLINE, 1) && Borrowed(mem, kind, r, TRAPFRAME, 1)
  {
    hide View;
  }

  lemma OneTopLeft(mem0: Mem, kind0: Kinds, mem: Mem, kind: Kinds, r: nat)
    requires IsRoot(kind0, r) && Borrowed(mem0, kind0, r, TRAPFRAME, 1) && Unmapped(mem0, kind0, mem, kind, r, TRAMPOLINE, 1, false) && kind == kind0
    ensures IsRoot(kind, r) && MappedIn(mem, kind, r, TRAPFRAME, 1, false) && Borrowed(mem, kind, r, TRAPFRAME, 1)
  {
    hide View;
    assert View(mem, r, TRAPFRAME) == View(mem0, r, TRAPFRAME);
  }

  /** The two top pages unmapped, other spaces as before. */
  ghost predicate Bottomed(mem: Mem, mem2: Mem, kind: Kinds, r: nat) {
    && (forall q, v :: IsRoot(kind, q) && q != r && 0 <= v < MAXPAGE ==> View(mem2, q, v) == View(mem, q, v))
    && BytesKept(mem, mem2, kind)
  }

  lemma TopsGone(mem0: Mem, kind0: Kinds, mem1: Mem, kind1: Kinds, mem2: Mem, kind2: Kinds, r: nat, n: nat)
    requires IsRoot(kind0, r) && kind2 == kind1 == kind0 && n <= TRAPFRAME && MappedIn(mem0, kind0, r, 0, n, true)
    requires Unmapped(mem0, kind0, mem1, kind1, r, TRAMPOLINE, 1, false) && Unmapped(mem1, kind1, mem2, kind2, r, TRAPFRAME, 1, false)
    requires forall v :: n <= v < TRAPFRAME ==> View(mem0, r, v).None?
    ensures Bottomed(mem0, mem2, kind0, r)
    ensures MappedIn(mem2, kind2, r, 0, n, true) && (forall v :: n <= v < MAXPAGE ==> View(mem2, r, v).None?)
  {
    hide View;
    forall v | 0 <= v < TRAPFRAME ensures View(mem2, r, v) == View(mem0, r, v) {
      assert View(mem1, r, v) == View(mem0, r, v);
    }
    assert View(mem2, r, TRAMPOLINE) == View(mem1, r, TRAMPOLINE) == None;
  }

  lemma ReleasedAfter(mem0: Mem, kind0: Kinds, mem2: Mem, kind2: Kinds, mem: Mem, kind: Kinds, r: nat)
    requires kind2 == kind0 && Bottomed(mem0, mem2, kind0, r) && Released(mem2, kind2, mem, kind, r)
    ensures Released(mem0, kind0, mem, kind, r)
  {
    hide View;
  }
}
