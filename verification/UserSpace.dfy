// What growing, shrinking and copying an address space does to the bytes that user code sees.
module UserSpace {
  import opened Options
  import opened Blocks
  import opened PageTable
  import opened Tables
  import opened Vm
  import opened UserCopy

  /** User code sees the bytes it saw, but for addresses from lo up to hi of r. */
  ghost predicate SameBytes(mem: Mem, mem2: Mem, kind: Kinds, r: nat, lo: nat, hi: nat) {
    forall q, a: nat :: IsRoot(kind, q) && !(q == r && lo <= a < hi) ==> UserByte(mem2, q, a) == UserByte(mem, q, a)
  }

  /** Page v of r can be read, written and run by user code. */
  ghost predicate Usable(mem: Mem, r: nat, v: nat) {
    var p := View(mem, r, v);
    p.Some? && p.value.flags.v && p.value.flags.r && p.value.flags.w && p.value.flags.x && p.value.flags.u
  }

  /** A byte stays if its page stays where it is and the frame keeps its contents. */
  lemma ByteStays(mem: Mem, kind: Kinds, mem2: Mem, q: nat, a: nat)
    requires TreeOk(mem, kind) && IsRoot(kind, q)
    requires a / PGSIZE < MAXPAGE ==> View(mem2, q, a / PGSIZE) == View(mem, q, a / PGSIZE)
    requires forall f :: Owns(kind, q, a / PGSIZE, f) && f in mem ==> f in mem2 && mem2[f] == mem[f]
    ensures UserByte(mem2, q, a) == UserByte(mem, q, a)
  {
    hide TreeBut, View;
    var v := a / PGSIZE;
    if v < MAXPAGE && View(mem, q, v).Some? && View(mem, q, v).value.flags.u {
      UserPage(mem, kind, q, v);
    }
  }

  lemma PageOf(a: nat, first: nat, n: nat)
    ensures first * PGSIZE <= a < (first + n) * PGSIZE <==> first <= a / PGSIZE < first + n
  {
  }

  lemma FilledOthers(mem: Mem, kind: Kinds, mem2: Mem, kind2: Kinds, r: nat, first: nat, want: seq<Want>)
    requires TreeOk(mem, kind) && Filled(mem, kind, mem2, kind2, r, first, want)
    ensures SameBytes(mem, mem2, kind, r, first * PGSIZE, (first + |want|) * PGSIZE)
  {
    hide TreeBut, View, UserByte;
    forall q, a: nat | IsRoot(kind, q) && !(q == r && first * PGSIZE <= a < (first + |want|) * PGSIZE)
      ensures UserByte(mem2, q, a) == UserByte(mem, q, a)
    {
      PageOf(a, first, |want|);
      ByteStays(mem, kind, mem2, q, a);
    }
  }

  lemma ZeroedAt(n: nat, i: nat)
    requires i < n
    ensures Zeroed(n)[i].flags == Flags(true, true, true, true, true) && Zeroed(n)[i].page == Data(seq(PGSIZE, _ => 0))
  {
  }

  /** New memory is zero and can be used. */
  lemma NewBytes(mem: Mem, kind: Kinds, mem2: Mem, kind2: Kinds, r: nat, first: nat, n: nat, a: nat)
    requires Filled(mem, kind, mem2, kind2, r, first, Zeroed(n)) && first + n <= MAXPAGE
    requires first * PGSIZE <= a < (first + n) * PGSIZE
    ensures UserByte(mem2, r, a) == Some(0) && Usable(mem2, r, a / PGSIZE)
  {
    hide View, Zeroed;
    PageOf(a, first, n);
    var v := a / PGSIZE;
    assert PageIs(mem2, kind2, r, v, WantAt(Zeroed(n), first, v));
    ZeroedAt(n, v - first);
  }

  /** A copied address space has the same bytes, with the same rights, in frames of its own. */
  lemma CopiedBytes(mem: Mem, kind: Kinds, mem2: Mem, kind2: Kinds, r1: nat, r2: nat, n: nat, a: nat)
    requires TreeOk(mem, kind) && IsRoot(kind, r1) && MappedIn(mem, kind, r1, 0, n, true) && n <= MAXPAGE
    requires Filled(mem, kind, mem2, kind2, r2, 0, Copies(mem, r1, n)) && r1 != r2 && a < n * PGSIZE
    ensures View(mem, r1, a / PGSIZE).Some? && View(mem2, r2, a / PGSIZE).Some?
    ensures View(mem2, r2, a / PGSIZE).value.flags == View(mem, r1, a / PGSIZE).value.flags
    ensures View(mem2, r2, a / PGSIZE).value.frame != View(mem, r1, a / PGSIZE).value.frame
    ensures UserByte(mem2, r2, a) == UserByte(mem, r1, a) == UserByte(mem2, r1, a)
  {
    hide View, TreeBut, Copies;
    PageOf(a, 0, n);
    var v := a / PGSIZE;
    assert PageIs(mem2, kind2, r2, v, WantAt(Copies(mem, r1, n), 0, v));
    assert Owns(kind, r1, v, View(mem, r1, v).value.frame);
    LeavesThere(mem, kind, None);
    CopyAt(mem, r1, n, v);
    FilledOthers(mem, kind, mem2, kind2, r2, 0, Copies(mem, r1, n));
  }

  lemma CopyAt(mem: Mem, r: nat, n: nat, v: nat)
    requires v < n && View(mem, r, v).Some? && View(mem, r, v).value.frame in mem
    ensures |Copies(mem, r, n)| == n
    ensures Copies(mem, r, n)[v] == Want(View(mem, r, v).value.flags, mem[View(mem, r, v).value.frame])
  {
    hide View;
  }

  /** Memory given up is gone, and nothing else. */
  lemma UnmappedBytes(mem: Mem, kind: Kinds, mem2: Mem, kind2: Kinds, r: nat, first: nat, n: nat)
    requires TreeOk(mem, kind) && Unmapped(mem, kind, mem2, kind2, r, first, n, true) && first + n <= MAXPAGE && IsRoot(kind, r)
    ensures SameBytes(mem, mem2, kind, r, first * PGSIZE, (first + n) * PGSIZE)
    ensures forall a: nat :: first * PGSIZE <= a < (first + n) * PGSIZE ==> UserByte(mem2, r, a) == None
  {
    hide TreeBut, View;
    forall q, a: nat | IsRoot(kind, q) && !(q == r && first * PGSIZE <= a < (first + n) * PGSIZE)
      ensures UserByte(mem2, q, a) == UserByte(mem, q, a)
    {
      PageOf(a, first, n);
      ByteStays(mem, kind, mem2, q, a);
    }
    forall a: nat | first * PGSIZE <= a < (first + n) * PGSIZE
      ensures UserByte(mem2, r, a) == None
    {
      PageOf(a, first, n);
    }
  }

  lemma GrownBytes(mem: Mem, kind: Kinds, mem2: Mem, kind2: Kinds, r: nat)
    requires TreeOk(mem, kind) && Grown(mem, kind, mem2, kind2, r)
    ensures SameBytes(mem, mem2, kind, r, 0, 0)
  {
    hide TreeBut, View, UserByte;
    forall q, a: nat | IsRoot(kind, q)
      ensures UserByte(mem2, q, a) == UserByte(mem, q, a)
    {
      ByteStays(mem, kind, mem2, q, a);
    }
  }

  // ---- growproc ---------------------------------------------------------------------------------

  const SIZES: nat := 0x1_0000_0000   // a process's size is cut to 32 bits

  /** The process has its pages up to sz, and below 4 GB no others. */
  ghost predicate Sized(mem: Mem, kind: Kinds, r: nat, sz: nat) {
    && sz < SIZES && MappedIn(mem, kind, r, 0, Pages(sz), true)
    && (forall v :: Pages(sz) <= v < SIZES / PGSIZE ==> View(mem, r, v).None?)
  }

  /** The size growproc aims at: sums are cut to 32 bits, and one that comes out on the wrong side of the
      present size asks for no change. */
  function Target(sz: nat, n: int): (t: int)
    requires sz < SIZES
    ensures 0 <= t < SIZES && (n > 0 ==> t >= sz) && (n < 0 ==> t <= sz)
  {
    var t := (sz + n) % SIZES;
    if n > 0 then (if t < sz then sz else t) else if n < 0 then (if t >= sz then sz else t) else sz
  }

  lemma PagesBelow(a: nat, b: nat)
    requires a <= b < SIZES
    ensures Pages(a) <= Pages(b) <= SIZES / PGSIZE <= MAXPAGE && b <= MAXPAGE * PGSIZE
  {
  }

  lemma SizedIs(mem: Mem, kind: Kinds, r: nat, sz: nat)
    requires Sized(mem, kind, r, sz)
    ensures sz < SIZES && MappedIn(mem, kind, r, 0, Pages(sz), true)
    ensures forall v :: Pages(sz) <= v < SIZES / PGSIZE ==> View(mem, r, v).None?
  {
  }

  lemma SizedFrom(mem: Mem, kind: Kinds, r: nat, sz: nat, newsz: nat)
    requires Sized(mem, kind, r, sz) && newsz <= sz
    ensures Pages(newsz) <= Pages(sz) && MappedIn(mem, kind, r, Pages(newsz), Pages(sz) - Pages(newsz), true)
  {
    hide View;
    PagesBelow(newsz, sz);
  }

  lemma GrownSized(mem: Mem, kind: Kinds, mem2: Mem, kind2: Kinds, r: nat, sz: nat)
    requires IsRoot(kind, r) && Sized(mem, kind, r, sz) && Grown(mem, kind, mem2, kind2, r)
    ensures IsRoot(kind2, r) && Sized(mem2, kind2, r, sz)
  {
    hide View;
    PagesBelow(sz, sz);
  }

  lemma FilledSized(mem: Mem, kind: Kinds, mem2: Mem, kind2: Kinds, r: nat, sz: nat, newsz: nat, want: seq<Want>)
    requires IsRoot(kind, r) && Sized(mem, kind, r, sz) && sz <= newsz < SIZES
    requires |want| == Pages(newsz) - Pages(sz) && Filled(mem, kind, mem2, kind2, r, Pages(sz), want)
    ensures IsRoot(kind2, r) && Sized(mem2, kind2, r, newsz)
  {
    hide View;
    PagesBelow(sz, newsz);
    forall v | 0 <= v < Pages(newsz)
      ensures View(mem2, r, v).Some? && Owns(kind2, r, v, View(mem2, r, v).value.frame)
    {
      if v >= Pages(sz) { assert PageIs(mem2, kind2, r, v, WantAt(want, Pages(sz), v)); }
    }
  }

  lemma UnmappedSized(mem: Mem, kind: Kinds, mem2: Mem, kind2: Kinds, r: nat, sz: nat, newsz: nat)
    requires IsRoot(kind, r) && Sized(mem, kind, r, sz) && newsz <= sz
    requires Unmapped(mem, kind, mem2, kind2, r, Pages(newsz), Pages(sz) - Pages(newsz), true)
    ensures IsRoot(kind2, r) && Sized(mem2, kind2, r, newsz)
  {
    hide View;
    PagesBelow(newsz, sz);
  }

  /** What growing by n does, seen by user code. */
  ghost predicate Resized(mem: Mem, kind: Kinds, mem2: Mem, r: nat, sz: nat, newsz: nat) {
    && SameBytes(mem, mem2, kind, r, Pages(Least(sz, newsz)) * PGSIZE, Pages(Greatest(sz, newsz)) * PGSIZE)
    && (forall a: nat :: Pages(sz) * PGSIZE <= a < Pages(newsz) * PGSIZE ==>
          UserByte(mem2, r, a) == Some(0) && Usable(mem2, r, a / PGSIZE))
    && (forall a: nat :: Pages(newsz) * PGSIZE <= a < Pages(sz) * PGSIZE ==> UserByte(mem2, r, a) == None)
  }

  lemma GrownResized(mem: Mem, kind: Kinds, mem2: Mem, kind2: Kinds, r: nat, sz: nat)
    requires TreeOk(mem, kind) && Grown(mem, kind, mem2, kind2, r)
    ensures Resized(mem, kind, mem2, r, sz, sz)
  {
    hide UserByte, Usable, Grown, TreeBut;
    GrownBytes(mem, kind, mem2, kind2, r);
  }

  lemma FilledResized(mem: Mem, kind: Kinds, mem2: Mem, kind2: Kinds, r: nat, sz: nat, newsz: nat)
    requires TreeOk(mem, kind) && sz <= newsz < SIZES
    requires Filled(mem, kind, mem2, kind2, r, Pages(sz), Zeroed(Pages(newsz) - Pages(sz)))
    ensures Resized(mem, kind, mem2, r, sz, newsz)
  {
    hide UserByte, Usable, Filled, TreeBut, SameBytes, Zeroed;
    PagesBelow(sz, newsz);
    var n := Pages(newsz) - Pages(sz);
    ZeroedSize(n);
    FilledOthers(mem, kind, mem2, kind2, r, Pages(sz), Zeroed(n));
    forall a: nat | Pages(sz) * PGSIZE <= a < Pages(newsz) * PGSIZE
      ensures UserByte(mem2, r, a) == Some(0) && Usable(mem2, r, a / PGSIZE)
    {
      NewBytes(mem, kind, mem2, kind2, r, Pages(sz), n, a);
    }
  }

  lemma ZeroedSize(n: nat)
    ensures |Zeroed(n)| == n
  {
  }

  lemma UnmappedResized(mem: Mem, kind: Kinds, mem2: Mem, kind2: Kinds, r: nat, sz: nat, newsz: nat)
    requires TreeOk(mem, kind) && IsRoot(kind, r) && newsz <= sz < SIZES
    requires Unmapped(mem, kind, mem2, kind2, r, Pages(newsz), Pages(sz) - Pages(newsz), true)
    ensures Resized(mem, kind, mem2, r, sz, newsz)
  {
    hide UserByte, Usable, Unmapped, TreeBut, SameBytes;
    PagesBelow(newsz, sz);
    UnmappedBytes(mem, kind, mem2, kind2, r, Pages(newsz), Pages(sz) - Pages(newsz));
  }

  lemma NothingUnmapped(mem: Mem, kind: Kinds, mem2: Mem, kind2: Kinds, r: nat, first: nat, other: nat)
    requires Unmapped(mem, kind, mem2, kind2, r, first, 0, true)
    ensures Unmapped(mem, kind, mem2, kind2, r, other, 0, true)
  {
    hide View;
  }

  lemma Unchanged(mem: Mem, kind: Kinds, r: nat, sz: nat)
    ensures Resized(mem, kind, mem, r, sz, sz)
  {
  }

  /** Grow or shrink a process by n bytes. New memory is zero and usable, memory given up is gone, and
      every other byte of this and every other process is as it was. It fails exactly when fewer pages
      are free than the new pages and their tables take, and then changes nothing user code can see. */
  method GrowProc(m: Memory, r: nat, sz: nat, n: int) returns (ok: bool, newsz: nat)
    requires m.Valid() && IsRoot(m.kind, r) && Sized(m.mem, m.kind, r, sz) && -0x8000_0000 <= n < 0x8000_0000
    modifies m
    ensures m.Valid() && IsRoot(m.kind, r) && Sized(m.mem, m.kind, r, newsz)
    ensures ok <==> n <= 0 || (sz + n) % SIZES < sz || |old(m.free)| >= Cost(old(m.kind), r, Pages(sz), Pages(Target(sz, n)))
    ensures newsz == if ok then Target(sz, n) else sz
    ensures Resized(old(m.mem), old(m.kind), m.mem, r, sz, newsz)
  {
    hide TreeBut, FreeOk, View, Filled, Grown, Unmapped, MappedIn, Cost, Zeroed, Resized, Sized, Pages;
    ghost var mem0, kind0 := m.mem, m.kind;
    SizedIs(mem0, kind0, r, sz);
    Unchanged(mem0, kind0, r, sz);
    newsz := (sz + n) % SIZES;
    if n > 0 {
      if newsz >= sz { PagesBelow(sz, newsz); }
      ghost var aim := newsz;
      newsz, ok := m.Uvmalloc(r, sz, newsz);
      if aim < sz {
        ZeroedSize(0);
        FilledSized(mem0, kind0, m.mem, m.kind, r, sz, sz, Zeroed(0));
        FilledResized(mem0, kind0, m.mem, m.kind, r, sz, sz);
      } else if ok {
        ZeroedSize(Pages(aim) - Pages(sz));
        FilledSized(mem0, kind0, m.mem, m.kind, r, sz, aim, Zeroed(Pages(aim) - Pages(sz)));
        FilledResized(mem0, kind0, m.mem, m.kind, r, sz, aim);
      } else {
        GrownSized(mem0, kind0, m.mem, m.kind, r, sz);
        GrownResized(mem0, kind0, m.mem, m.kind, r, sz);
      }
      if newsz == 0 {
        return false, sz;
      }
    } else if n < 0 {
      ghost var aim := if newsz < sz then newsz else sz;
      PagesBelow(aim, sz);
      SizedFrom(mem0, kind0, r, sz, aim);
      ghost var first := Pages(newsz);
      newsz := m.Uvmdealloc(r, sz, newsz);
      if aim == sz { NothingUnmapped(mem0, kind0, m.mem, m.kind, r, first, Pages(sz)); }
      UnmappedSized(mem0, kind0, m.mem, m.kind, r, sz, aim);
      UnmappedResized(mem0, kind0, m.mem, m.kind, r, sz, aim);
    } else {
      newsz := sz;
    }
    ok := true;
  }

  function Least(a: nat, b: nat): nat { if a < b then a else b }
  function Greatest(a: nat, b: nat): nat { if a < b then b else a }
}
