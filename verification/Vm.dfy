// The physical page allocator and the operations on user address spaces.
module Vm {
  import opened Options
  import opened PageTable
  import opened Tables
  import opened Counting

  // ---- The free list ----------------------------------------------------------------------------

  /** The free pages form a list from head through their next pointers, last freed first. */
  ghost predicate ChainOk(mem: Mem, head: nat, free: seq<nat>) {
    && (forall i :: 0 <= i < |free| ==> free[i] in mem && mem[free[i]].Run? && free[i] != 0)
    && (forall i, j :: 0 <= i < j < |free| ==> free[i] != free[j])
    && (forall i, j :: 0 <= i < j < |free| && j == i + 1 ==> mem[free[j]].next == free[i])
    && (|free| > 0 ==> mem[free[0]].next == 0)
    && head == if |free| > 0 then free[|free|-1] else 0
  }

  /** The list holds exactly the pages that are free. */
  ghost predicate FreeOk(mem: Mem, head: nat, free: seq<nat>, kind: Kinds) {
    && ChainOk(mem, head, free)
    && (forall f :: f in kind && kind[f] == Free <==> f in free)
  }

  lemma PopKeeps(mem: Mem, head: nat, free: seq<nat>, kind: Kinds)
    requires FreeOk(mem, head, free, kind) && head != 0
    ensures head in mem && mem[head].Run? && head in kind && kind[head] == Free
    ensures |free| > 0 && FreeOk(mem[head := Junk], mem[head].next, free[..|free|-1], kind[head := Held])
  {
    var rest := free[..|free|-1];
    assert free == rest + [head];
    assert forall f :: f in free <==> f in rest || f == head;
    assert head !in rest;
    if |rest| > 0 { assert mem[free[|free|-1]].next == free[|free|-2]; }
  }

  lemma PushKeeps(mem: Mem, head: nat, free: seq<nat>, kind: Kinds, f: nat)
    requires FreeOk(mem, head, free, kind) && f in kind && kind[f] != Free && f != 0
    ensures FreeOk(mem[f := Run(head)], f, free + [f], kind[f := Free])
  {
    var mem2, more := mem[f := Run(head)], free + [f];
    assert f !in free;
    forall i, j | 0 <= i < j < |more| && j == i + 1 ensures mem2[more[j]].next == more[i] {
      if j < |free| { assert mem[free[j]].next == free[i]; }
    }
  }

  /** Changing pages that are not free leaves the list alone. */
  lemma ListFrame(mem: Mem, mem2: Mem, head: nat, free: seq<nat>, kind: Kinds, kind2: Kinds)
    requires FreeOk(mem, head, free, kind)
    requires forall f :: f in kind && kind[f] == Free && f in mem ==> f in mem2 && mem2[f] == mem[f]
    requires kind2.Keys == kind.Keys && (forall f :: f in kind ==> (kind2[f] == Free <==> kind[f] == Free))
    ensures FreeOk(mem2, head, free, kind2)
  {
    assert forall i :: 0 <= i < |free| ==> free[i] in free;
  }

  // ---- What an operation keeps ------------------------------------------------------------------

  /** Every address space maps the same pages to the same frames with the same flags. */
  ghost predicate ViewsKept(mem: Mem, mem2: Mem, kind: Kinds) {
    forall r, vpn :: IsRoot(kind, r) && 0 <= vpn < MAXPAGE ==> View(mem2, r, vpn) == View(mem, r, vpn)
  }

  /** User pages, and pages in the kernel's hands, hold the same bytes. */
  ghost predicate BytesKept(mem: Mem, mem2: Mem, kind: Kinds) {
    forall f :: f in kind && (kind[f].Leaf? || kind[f] == Held) && f in mem ==> f in mem2 && mem2[f] == mem[f]
  }

  /** A free page became a table page of r, below the root. */
  predicate NewTableOf(k: Kind, k2: Kind, r: nat) {
    k == Free && k2.Node? && k2.level < 2 && k2.r == r
  }

  /** Pages keep their use, except that free ones may have become table pages of r. */
  ghost predicate OnlyTables(kind: Kinds, kind2: Kinds, r: nat) {
    kind2.Keys == kind.Keys && (forall f :: f in kind ==> kind2[f] == kind[f] || NewTableOf(kind[f], kind2[f], r))
  }

  /** Nothing a process can see has changed; at most some table pages have been added to r. */
  ghost predicate Grown(mem: Mem, kind: Kinds, mem2: Mem, kind2: Kinds, r: nat) {
    OnlyTables(kind, kind2, r) && ViewsKept(mem, mem2, kind) && BytesKept(mem, mem2, kind)
  }

  /** Page vpn of r's address space is in frame f and r owns it. */
  predicate Owns(kind: Kinds, r: nat, vpn: nat, f: nat) {
    f in kind && kind[f].Leaf? && kind[f].r == r && kind[f].vpn == vpn
  }

  /** Exactly pages first .. first+n of r became mapped, to frames from `frame` on, which r owns if own. */
  ghost predicate Mapped(mem: Mem, kind: Kinds, mem2: Mem, kind2: Kinds,
                         r: nat, first: nat, n: nat, frame: nat, flags: Flags, own: bool) {
    && kind2.Keys == kind.Keys
    && (forall x :: x in kind ==>
          if own && frame <= x < frame + n then kind[x] == Held && Owns(kind2, r, first + (x - frame), x)
          else kind2[x] == kind[x] || NewTableOf(kind[x], kind2[x], r))
    && (forall r2, v :: IsRoot(kind, r2) && 0 <= v < MAXPAGE ==>
          View(mem2, r2, v) == if r2 == r && first <= v < first + n then Some(Pte(frame + (v - first), flags)) else View(mem, r2, v))
    && BytesKept(mem, mem2, kind)
  }

  /** Exactly pages first .. first+n of r became unmapped. The frames it owned there are free if freed, and
      are left to the caller if not. */
  ghost predicate Unmapped(mem: Mem, kind: Kinds, mem2: Mem, kind2: Kinds, r: nat, first: nat, n: nat, freed: bool) {
    && kind2.Keys == kind.Keys
    && (forall x :: x in kind ==>
          kind2[x] == if kind[x].Leaf? && kind[x].r == r && first <= kind[x].vpn < first + n then (if freed then Free else Held) else kind[x])
    && (forall r2, v :: IsRoot(kind, r2) && 0 <= v < MAXPAGE ==>
          View(mem2, r2, v) == if r2 == r && first <= v < first + n then None else View(mem, r2, v))
    && BytesKept(mem, mem2, kind2)
  }

  /** Pages first .. first+n of r are mapped, and if owned, to frames it owns. */
  ghost predicate MappedIn(mem: Mem, kind: Kinds, r: nat, first: nat, n: nat, owned: bool) {
    forall v :: first <= v < first + n ==> View(mem, r, v).Some? && (owned ==> Owns(kind, r, v, View(mem, r, v).value.frame))
  }

  /** No frame that r maps there is its own. */
  ghost predicate Borrowed(mem: Mem, kind: Kinds, r: nat, first: nat, n: nat) {
    forall v :: first <= v < first + n ==> View(mem, r, v).Some? && !Owns(kind, r, v, View(mem, r, v).value.frame)
  }

  /** A wanted page: its flags and its contents. */
  datatype Want = Want(flags: Flags, page: Page)

  /** Exactly pages first .. of r became mapped, each to a frame that was free, that r now owns, and that
      holds what was wanted. */
  ghost predicate Filled(mem: Mem, kind: Kinds, mem2: Mem, kind2: Kinds, r: nat, first: nat, want: seq<Want>) {
    && kind2.Keys == kind.Keys
    && (forall x :: x in kind ==>
          || kind2[x] == kind[x]
          || NewTableOf(kind[x], kind2[x], r)
          || (kind[x] == Free && kind2[x].Leaf? && kind2[x].r == r && first <= kind2[x].vpn < first + |want|))
    && (forall r2, v :: IsRoot(kind, r2) && 0 <= v < MAXPAGE && !(r2 == r && first <= v < first + |want|) ==>
          View(mem2, r2, v) == View(mem, r2, v))
    && (forall v :: first <= v < first + |want| ==> PageIs(mem2, kind2, r, v, WantAt(want, first, v)))
    && BytesKept(mem, mem2, kind)
  }

  function WantAt(want: seq<Want>, first: nat, v: nat): (w: Want)
    requires first <= v < first + |want|
  {
    want[v - first]
  }

  ghost predicate PageIs(mem: Mem, kind: Kinds, r: nat, vpn: nat, w: Want) {
    && View(mem, r, vpn).Some? && View(mem, r, vpn).value.flags == w.flags
    && var f := View(mem, r, vpn).value.frame;
       Owns(kind, r, vpn, f) && f in mem && mem[f] == w.page
  }

  class Memory {
    const lo: nat           // the first page after the kernel
    const hi: nat           // PHYSTOP
    var mem: Mem
    var head: nat
    ghost var free: seq<nat>
    ghost var kind: Kinds

    /** Every page the kernel manages has exactly one use, the free list holds the free ones, and the page
        tables are trees of the others. */
    ghost predicate Valid()
      reads this
    {
      && 0 < lo <= hi && (forall f :: f in kind <==> lo <= f < hi)
      && FreeOk(mem, head, free, kind) && TreeOk(mem, kind)
    }

    /** All of [lo, hi) ends up on the free list. */
    constructor (first: nat, last: nat, contents: Mem)
      requires 0 < first <= last
      ensures Valid() && lo == first && hi == last
      ensures |free| == last - first && (forall f :: f in kind ==> kind[f] == Free)
    {
      lo, hi, mem, head, free := first, last, contents, 0, [];
      kind := AllHeld(first, last);
      new;
      Freerange();
      NoTrees(mem, kind);
    }

    method Freerange()
      requires 0 < lo <= hi && (forall f :: f in kind <==> lo <= f < hi) && (forall f :: f in kind ==> kind[f] == Held)
      requires free == [] && head == 0
      modifies this
      ensures (forall f :: f in kind <==> lo <= f < hi) && (forall f :: f in kind ==> kind[f] == Free)
      ensures FreeOk(mem, head, free, kind) && |free| == hi - lo
    {
      var p := lo;
      while p + 1 <= hi
        invariant lo <= p <= hi && (forall f :: f in kind <==> lo <= f < hi)
        invariant forall f :: f in kind ==> kind[f] == if f < p then Free else Held
        invariant FreeOk(mem, head, free, kind) && |free| == p - lo
      {
        Kfree(p);
        p := p + 1;
      }
    }

    /** The page goes to the front of the list. */
    method Kfree(f: nat)
      requires FreeOk(mem, head, free, kind) && f in kind && kind[f] != Free && f != 0
      modifies this
      ensures FreeOk(mem, head, free, kind) && free == old(free) + [f] && head == f
      ensures kind == old(kind)[f := Free] && mem == old(mem)[f := Run(old(head))]
    {
      PushKeeps(mem, head, free, kind, f);
      mem := mem[f := Run(head)];
      head := f;
      free, kind := free + [f], kind[f := Free];
    }

    method Kalloc() returns (f: nat)
      requires Valid()
      modifies this
      ensures Valid() && (f == 0 <==> old(free) == [])
      ensures f == 0 ==> unchanged(this)
      ensures f != 0 ==> f in kind && old(kind[f]) == Free && kind == old(kind)[f := Held] && mem == old(mem)[f := Junk] && |free| == |old(free)| - 1
      ensures ViewsKept(old(mem), mem, old(kind)) && BytesKept(old(mem), mem, old(kind))
    {
      hide TreeBut, View;
      f := head;
      if f != 0 {
        PopKeeps(mem, head, free, kind);
        PlainPage(mem, kind, f, Junk, Held);
        head, mem := mem[f].next, mem[f := Junk];
        free, kind := free[..|free|-1], kind[f := Held];
      }
    }

    /** The slot for page vpn, if its table page exists or can be made. Nothing becomes mapped. */
    method Walk(r: nat, vpn: nat, alloc: bool) returns (slot: Option<(nat, nat)>)
      requires Valid() && IsRoot(kind, r) && vpn < MAXPAGE
      modifies this
      ensures Valid() && Grown(old(mem), old(kind), mem, kind, r)
      ensures !alloc ==> unchanged(this) && (slot.None? <==> Bottom(mem, r, vpn / ENTRIES).None?)
      ensures alloc ==> (slot.Some? <==> |old(free)| >= Lacking(Ids(vpn, 0), TablesOf(old(kind), r)))
      ensures alloc && slot.Some? ==> Paid(Ids(vpn, 0), |old(free)|, TablesOf(old(kind), r), |free|, TablesOf(kind, r))
      ensures slot.Some? ==> Bottom(mem, r, vpn / ENTRIES) == Some(slot.value.0) && slot.value.1 == vpn % ENTRIES
    {
      hide TreeBut, View, FreeOk, Entry, IsTable, Grown, IsRoot, Paid, Lacking, TablesOf, Ids, TableId;
      WalkStart(mem, kind, r, vpn);
      ghost var free0, have0 := |free|, TablesOf(kind, r);
      PaidNothing(free0, have0);
      NoIds(vpn);
      var t := r;
      var level := 2;
      while level > 0
        invariant 0 <= level <= 2 && Valid() && Grown(old(mem), old(kind), mem, kind, r)
        invariant !alloc ==> unchanged(this)
        invariant At(kind, r, vpn, t, level)
        invariant Paid(Ids(vpn, level), free0, have0, |free|, TablesOf(kind, r))
      {
        TableAt(mem, kind, t);
        TableThere(mem, kind, r, vpn, t, level);
        IdsDown(vpn, level);
        ghost var id, free1, have1 := TableId(level - 1, Pre(level - 1, vpn)), |free|, TablesOf(kind, r);
        PaidOne(id, free1, have1);
        var i := Px(level, vpn);
        var pte := mem[t].ptes[i];
        WalkOn(mem, kind, r, vpn, t, level);
        if pte.flags.v {
          t := pte.frame;
        } else {
          if !alloc { WalkEnds(mem, kind, r, vpn, t, level); return None; }
          ghost var mem0, kind0 := mem, kind;
          var c := Kalloc();
          if c == 0 {
            PaidShort(Ids(vpn, level), {id}, Ids(vpn, 0), free0, have0, free1, have1);
            OneLacking(id, have1);
            return None;
          }
          NoNewTable(kind0, c, Held, r);
          PreNext(level, vpn);
          AddTable(kind, c, Node(r, level - 1, Pre(level - 1, vpn), t), r);
          NewTable(mem0, kind0, mem, kind, head, free, t, i, c);
          mem := WithTable(mem, t, i, c);
          kind := kind[c := Node(r, level - 1, Pre(level - 1, vpn), t)];
          GrownThrough(old(mem), old(kind), mem0, kind0, mem, kind, r);
          t := c;
        }
        PaidJoin(Ids(vpn, level), {id}, free0, have0, free1, have1, |free|, TablesOf(kind, r));
        level := level - 1;
      }
      PaidRoom(Ids(vpn, 0), free0, have0, |free|, TablesOf(kind, r));
      BottomOf(mem, kind, t);
      slot := Some((t, Px(0, vpn)));
    }

    /** One page of mappages. */
    method MapOne(r: nat, vpn: nat, frame: nat, flags: Flags, ghost own: bool) returns (ok: bool)
      requires Valid() && IsRoot(kind, r) && vpn < MAXPAGE && View(mem, r, vpn).None?
      requires flags.v && IsLeaf(Pte(frame, flags)) && (flags.u ==> own) && (own ==> Spare(mem, kind, frame, 1))
      modifies this
      ensures Valid()
      ensures ok <==> |old(free)| >= Lacking(Ids(vpn, 0), TablesOf(old(kind), r))
      ensures !ok ==> Grown(old(mem), old(kind), mem, kind, r)
      ensures ok ==> Mapped(old(mem), old(kind), mem, kind, r, vpn, 1, frame, flags, own)
      ensures ok ==> Paid(Ids(vpn, 0), |old(free)|, TablesOf(old(kind), r), |free|, TablesOf(kind, r))
    {
      hide TreeBut, View, FreeOk, Entry, IsTable, Grown, Mapped, Paid, Lacking, TablesOf, Ids;
      var slot := Walk(r, vpn, true);
      if slot.None? { return false; }
      var (t, i) := slot.value;
      MapLemma(old(mem), old(kind), mem, kind, head, free, r, vpn, t, frame, flags, own);
      if own {
        GrownHeld(old(mem), old(kind), mem, kind, r, frame);
        NoNewTable(kind, frame, Leaf(r, vpn, t), r);
      }
      mem := WithPte(mem, t, i, Pte(frame, flags));
      if own {
        kind := kind[frame := Leaf(r, vpn, t)];
      }
      ok := true;
    }

    /** Maps the pages that hold va .. va+size to consecutive frames. On failure the pages before the one
        that found no memory stay mapped. */
    method Mappages(r: nat, va: nat, size: nat, frame: nat, flags: Flags, ghost own: bool) returns (ok: bool, ghost done: nat)
      requires Valid() && IsRoot(kind, r) && size > 0 && va + size <= MAXPAGE * PGSIZE
      requires forall v :: FirstPage(va) <= v < FirstPage(va) + PageCount(va, size) ==> View(mem, r, v).None?
      requires flags.v && IsLeaf(Pte(frame, flags)) && (flags.u ==> own) && (own ==> Spare(mem, kind, frame, PageCount(va, size)))
      modifies this
      ensures Valid() && (ok <==> done == PageCount(va, size))
      ensures done <= PageCount(va, size)
      ensures Mapped(old(mem), old(kind), mem, kind, r, FirstPage(va), done, frame, flags, own)
      ensures ok <==> |old(free)| >= Lacking(RangeIds(FirstPage(va), PageCount(va, size)), TablesOf(old(kind), r))
      ensures ok ==> Paid(RangeIds(FirstPage(va), PageCount(va, size)), |old(free)|, TablesOf(old(kind), r), |free|, TablesOf(kind, r))
    {
      hide TreeBut, View, FreeOk, Entry, IsTable, Mapped, Grown, Spare, Paid, Lacking, TablesOf, RangeIds, Ids;
      ghost var free0, have0, first := |free|, TablesOf(kind, r), FirstPage(va);
      PaidNothing(free0, have0);
      NoRange(first);
      PagesFit(va, size);
      NoneMapped(mem, kind, r, FirstPage(va), frame, flags, own);
      var a := va / PGSIZE;
      var last := (va + size - 1) / PGSIZE;
      var f := frame;
      done := 0;
      while true
        invariant a == FirstPage(va) + done && a <= last && f == frame + done && done < PageCount(va, size)
        invariant last + 1 == FirstPage(va) + PageCount(va, size)
        invariant Valid() && Mapped(old(mem), old(kind), mem, kind, r, FirstPage(va), done, frame, flags, own)
        invariant Paid(RangeIds(first, done), free0, have0, |free|, TablesOf(kind, r))
        decreases last - a
      {
        RangeMore(first, done);
        RangeGrows(first, done + 1, PageCount(va, size));
        ghost var free1, have1 := |free|, TablesOf(kind, r);
        MapNext(old(mem), old(kind), mem, kind, r, FirstPage(va), done, frame, flags, own, PageCount(va, size));
        ghost var mem1, kind1 := mem, kind;
        ok := MapOne(r, a, f, flags, own);
        MapMore(old(mem), old(kind), mem1, kind1, mem, kind, r, FirstPage(va), done, frame, flags, own, ok);
        if !ok {
          PaidShort(RangeIds(first, done), Ids(a, 0), RangeIds(first, PageCount(va, size)), free0, have0, free1, have1);
          return false, done;
        }
        PaidJoin(RangeIds(first, done), Ids(a, 0), free0, have0, free1, have1, |free|, TablesOf(kind, r));
        done := done + 1;
        if a == last { break; }
        a := a + 1;
        f := f + 1;
      }
      PaidRoom(RangeIds(first, done), free0, have0, |free|, TablesOf(kind, r));
      ok := true;
    }

    /** One page of uvmunmap. */
    method UnmapOne(r: nat, vpn: nat, freed: bool)
      requires Valid() && IsRoot(kind, r) && vpn < MAXPAGE && MappedIn(mem, kind, r, vpn, 1, freed)
      modifies this
      ensures Valid() && Unmapped(old(mem), old(kind), mem, kind, r, vpn, 1, freed)
      ensures free == if freed then old(free) + [View(old(mem), r, vpn).value.frame] else old(free)
    {
      hide TreeBut, View, FreeOk, Entry, Unmapped, Grown, WithPte;
      AnyMapped(mem, kind, r, vpn, 1, freed);
      HasSlot(mem, kind, r, vpn);
      var slot := Walk(r, vpn, false);
      var (t, i) := slot.value;
      UnmapLemma(mem, kind, head, free, r, vpn, t, freed);
      ghost var f := mem[t].ptes[i].frame;
      if freed {
        Kfree(mem[t].ptes[i].frame);
      }
      mem := WithPte(mem, t, i, NOPTE);
      if !freed && Owns(kind, r, vpn, f) {
        kind := kind[f := Held];
      }
    }

    /** Unmaps n pages from va on, which must be mapped, and frees their frames if asked. */
    method Uvmunmap(r: nat, vpn: nat, n: nat, freed: bool)
      requires Valid() && IsRoot(kind, r) && vpn + n <= MAXPAGE && MappedIn(mem, kind, r, vpn, n, freed)
      modifies this
      ensures Valid() && Unmapped(old(mem), old(kind), mem, kind, r, vpn, n, freed)
      ensures |free| == |old(free)| + (if freed then n else 0)
    {
      hide TreeBut, View, FreeOk, Entry, IsTable, Unmapped, MappedIn;
      NoneUnmapped(mem, kind, r, vpn, freed);
      var a := vpn;
      while a < vpn + n
        invariant vpn <= a <= vpn + n && Valid()
        invariant Unmapped(old(mem), old(kind), mem, kind, r, vpn, a - vpn, freed)
        invariant |free| == |old(free)| + (if freed then a - vpn else 0)
      {
        UnmapNext(old(mem), old(kind), mem, kind, r, vpn, a - vpn, n, freed);
        ghost var mem1, kind1 := mem, kind;
        UnmapOne(r, a, freed);
        UnmapMore(old(mem), old(kind), mem1, kind1, mem, kind, r, vpn, a - vpn, freed);
        a := a + 1;
      }
    }

    /** kalloc, fill and mappages for one page of a growing address space; nothing is lost on failure. */
    method FillPage(r: nat, vpn: nat, w: Want) returns (ok: bool)
      requires Valid() && IsRoot(kind, r) && vpn < MAXPAGE && View(mem, r, vpn).None?
      requires w.flags.v && IsLeaf(Pte(0, w.flags)) && w.page.Data? && |w.page.bytes| == PGSIZE
      modifies this
      ensures Valid()
      ensures ok <==> |old(free)| >= 1 + Lacking(Ids(vpn, 0), TablesOf(old(kind), r))
      ensures !ok ==> Grown(old(mem), old(kind), mem, kind, r)
      ensures ok ==> Filled(old(mem), old(kind), mem, kind, r, vpn, [w])
      ensures ok ==> Paid(Ids(vpn, 0), |old(free)| - 1, TablesOf(old(kind), r), |free|, TablesOf(kind, r))
    {
      hide TreeBut, View, FreeOk, Filled, Grown, Mapped, IsTable, Paid, Lacking, TablesOf, RangeIds, Ids;
      GrownSelf(mem, kind, r);
      var c := Kalloc();
      if c == 0 { return false; }
      ghost var kind1 := kind;
      NoNewTable(old(kind), c, Held, r);
      OneRange(vpn);
      FreshPage(old(mem), old(kind), mem, kind, head, free, r, vpn, c, w.page);
      mem := mem[c := w.page];
      ghost var mem1 := mem;
      ghost var done;
      OnePage(vpn);
      ok, done := Mappages(r, vpn * PGSIZE, PGSIZE, c, w.flags, true);
      if !ok {
        MappedNone(mem1, kind1, mem, kind, r, vpn, c, w.flags);
        StillHeld(mem1, kind1, mem, kind, c, r);
        ghost var mem2, kind2 := mem, kind;
        Kfree(c);
        GiveBack(old(mem), old(kind), mem1, kind1, mem2, kind2, mem, kind, c, r);
        return false;
      }
      FillOne(old(mem), old(kind), mem1, kind1, mem, kind, r, vpn, c, w);
    }

    /** Shrinks r from oldsz to newsz bytes, freeing the pages that no longer hold any of them. */
    method Uvmdealloc(r: nat, oldsz: nat, newsz: nat) returns (sz: nat)
      requires Valid() && IsRoot(kind, r) && oldsz <= MAXPAGE * PGSIZE
      requires newsz < oldsz ==> MappedIn(mem, kind, r, Pages(newsz), Pages(oldsz) - Pages(newsz), true)
      modifies this
      ensures Valid() && sz == if newsz < oldsz then newsz else oldsz
      ensures Unmapped(old(mem), old(kind), mem, kind, r, Pages(newsz), if newsz < oldsz then Pages(oldsz) - Pages(newsz) else 0, true)
    {
      hide TreeBut, View, FreeOk, Unmapped, MappedIn;
      NoneUnmapped(mem, kind, r, Pages(newsz), true);
      if newsz >= oldsz { return oldsz; }
      if Pages(newsz) < Pages(oldsz) {
        Uvmunmap(r, Pages(newsz), Pages(oldsz) - Pages(newsz), true);
      }
      return newsz;
    }

    /** Grows r from oldsz to newsz bytes with zeroed pages, or leaves its mappings as they were. */
    method Uvmalloc(r: nat, oldsz: nat, newsz: nat) returns (sz: nat, ok: bool)
      requires Valid() && IsRoot(kind, r) && newsz <= MAXPAGE * PGSIZE
      requires forall v :: Pages(oldsz) <= v < Pages(newsz) ==> View(mem, r, v).None?
      modifies this
      ensures Valid() && sz == if newsz < oldsz then oldsz else if ok then newsz else 0
      ensures ok ==> Filled(old(mem), old(kind), mem, kind, r, Pages(oldsz), Zeroed(if newsz < oldsz then 0 else Pages(newsz) - Pages(oldsz)))
      ensures !ok ==> newsz >= oldsz && Grown(old(mem), old(kind), mem, kind, r)
      ensures ok <==> newsz < oldsz || |old(free)| >= Cost(old(kind), r, Pages(oldsz), Pages(newsz))
    {
      hide TreeBut, View, FreeOk, Filled, Unmapped, Grown, MappedIn, Zeroed, Spent, Lacking, TablesOf, Ids, Cost, Paid;
      FilledNone(mem, kind, r, Pages(oldsz));
      ZeroedMore(0);
      if newsz < oldsz { return oldsz, true; }
      var first := Pages(oldsz);
      var a := first;
      SpentNothing(kind, r, first, |free|);
      while a * PGSIZE < newsz
        invariant first <= a <= Pages(newsz) && Valid()
        invariant Filled(old(mem), old(kind), mem, kind, r, first, Zeroed(a - first))
        invariant Spent(old(kind), kind, r, first, a, |old(free)|, |free|)
      {
        ghost var free1 := |free|;
        ZeroedMore(a - first);
        FilledMapped(old(mem), old(kind), mem, kind, r, first, Zeroed(a - first));
        ghost var mem1, kind1 := mem, kind;
        ok := FillPage(r, a, Want(USERPAGE, ZeroPage()));
        SpentMore(old(kind), kind1, kind, r, first, a, Pages(newsz), |old(free)|, free1, |free|, ok);
        if !ok {
          FilledGrown(old(mem), old(kind), mem1, kind1, mem, kind, r, first, Zeroed(a - first));
          FilledMapped(old(mem), old(kind), mem, kind, r, first, Zeroed(a - first));
          ghost var mem2, kind2 := mem, kind;
          AlignedPages(first);
          AlignedPages(a);
          var _ := Uvmdealloc(r, a * PGSIZE, first * PGSIZE);
          FilledUndone(old(mem), old(kind), mem2, kind2, mem, kind, r, first, Zeroed(a - first));
          return 0, false;
        }
        FilledMore(old(mem), old(kind), mem1, kind1, mem, kind, r, first, Zeroed(a - first), Want(USERPAGE, ZeroPage()));
        a := a + 1;
      }
      SpentRoom(old(kind), kind, r, first, Pages(newsz), |old(free)|, |free|);
      return newsz, true;
    }

    /** A new, empty address space. */
    method Uvmcreate() returns (r: nat)
      requires Valid()
      modifies this
      ensures Valid() && (r == 0 <==> old(free) == []) && (r == 0 ==> unchanged(this))
      ensures r != 0 ==> r in kind && old(kind[r]) == Free && kind == old(kind)[r := Node(r, 2, 0, r)] && |free| == |old(free)| - 1
      ensures r != 0 ==> forall v :: 0 <= v < MAXPAGE ==> View(mem, r, v).None?
      ensures ViewsKept(old(mem), mem, old(kind)) && BytesKept(old(mem), mem, old(kind))
    {
      hide TreeBut, View, FreeOk;
      r := Kalloc();
      if r == 0 { return; }
      NewRoot(old(mem), old(kind), mem, kind, head, free, r);
      mem := WithRoot(mem, r);
      kind := kind[r := Node(r, 2, 0, r)];
    }

    /** Copies pages 0 .. of one address space into another, or leaves the other's mappings as they were. */
    method Uvmcopy(r1: nat, r2: nat, sz: nat) returns (ok: bool)
      requires Valid() && IsRoot(kind, r1) && IsRoot(kind, r2) && r1 != r2 && sz <= MAXPAGE * PGSIZE
      requires MappedIn(mem, kind, r1, 0, Pages(sz), true)
      requires forall v :: 0 <= v < Pages(sz) ==> View(mem, r2, v).None?
      modifies this
      ensures Valid()
      ensures ok ==> Filled(old(mem), old(kind), mem, kind, r2, 0, Copies(old(mem), r1, Pages(sz)))
      ensures !ok ==> Grown(old(mem), old(kind), mem, kind, r2)
      ensures ok <==> |old(free)| >= Cost(old(kind), r2, 0, Pages(sz))
    {
      hide TreeBut, View, FreeOk, Filled, Unmapped, Grown, MappedIn, Copies, Entry, IsTable, Spent, Lacking, TablesOf, Ids, Cost, Paid;
      FilledNone(mem, kind, r2, 0);
      CopiesMore(mem, r1, 0);
      var i := 0;
      SpentNothing(kind, r2, 0, |free|);
      while i * PGSIZE < sz
        invariant 0 <= i <= Pages(sz) && Valid()
        invariant Filled(old(mem), old(kind), mem, kind, r2, 0, Copies(old(mem), r1, i))
        invariant Spent(old(kind), kind, r2, 0, i, |old(free)|, |free|)
      {
        ghost var free1 := |free|;
        ghost var done := Copies(old(mem), r1, i);
        CopiesMore(old(mem), r1, i);
        FilledMapped(old(mem), old(kind), mem, kind, r2, 0, done);
        CopyFrom(old(mem), old(kind), mem, kind, r1, r2, i, Pages(sz), done);
        var slot := Walk(r1, i, false);
        SlotFacts(mem, kind, r1, i, slot.value.0);
        EntryIs(mem, slot.value.0, slot.value.1);
        SlotThere(mem, slot.value.0);
        var pte := mem[slot.value.0].ptes[slot.value.1];
        ghost var mem1, kind1 := mem, kind;
        ok := FillPage(r2, i, Want(pte.flags, mem[pte.frame]));
        SpentMore(old(kind), kind1, kind, r2, 0, i, Pages(sz), |old(free)|, free1, |free|, ok);
        if !ok {
          FilledGrown(old(mem), old(kind), mem1, kind1, mem, kind, r2, 0, done);
          FilledMapped(old(mem), old(kind), mem, kind, r2, 0, done);
          ghost var mem2, kind2 := mem, kind;
          Uvmunmap(r2, 0, i, true);
          FilledUndone(old(mem), old(kind), mem2, kind2, mem, kind, r2, 0, done);
          return false;
        }
        FilledMore(old(mem), old(kind), mem1, kind1, mem, kind, r2, 0, done, WantOf(old(mem), r1, i));
        i := i + 1;
      }
      SpentRoom(old(kind), kind, r2, 0, Pages(sz), |old(free)|, |free|);
      return true;
    }

    /** Frees table page t and everything below it. No page below may be mapped. The pointer to t, if it
        is not a root, is left for the caller to clear. */
    method Freewalk(t: nat, ghost level: nat)
      requires Valid() && t in kind && kind[t].Node? && kind[t].level == level && Bare(mem, kind, kind[t].r)
      modifies this
      ensures (forall f :: f in kind <==> lo <= f < hi) && FreeOk(mem, head, free, kind)
      ensures TreeBut(mem, kind, Some(t)) && (level == 2 ==> TreeOk(mem, kind))
      ensures Pruned(old(mem), old(kind), mem, kind, old(kind)[t].r, level, old(kind)[t].pre)
      decreases level
    {
      hide TreeBut, FreeOk, Entry, IsTable, Bare, Pruned, PartPruned, Next;
      ghost var me := kind[t];
      HungAt(mem, kind, t, None);
      PruneStart(mem, kind, t);
      var i := 0;
      while i < ENTRIES
        invariant 0 <= i <= ENTRIES && Valid() && Bare(mem, kind, me.r)
        invariant PartPruned(old(mem), old(kind), mem, kind, t, i)
      {
        PruneTable(old(mem), old(kind), mem, kind, t, i);
        var pte := mem[t].ptes[i];
        if pte.flags.v {
          PruneChild(old(mem), old(kind), mem, kind, t, i);
          ghost var mem1, kind1 := mem, kind;
          var child := pte.frame;
          Freewalk(child, level - 1);
          PruneNext(old(mem), old(kind), mem1, kind1, mem, kind, head, free, t, i, child);
          mem := WithPte(mem, t, i, NOPTE);
        } else {
          PruneSkip(old(mem), old(kind), mem, kind, t, i);
        }
        i := i + 1;
      }
      PruneEnd(old(mem), old(kind), mem, kind, t, head);
      Kfree(t);
    }

    /** Gives back every page of r: the user pages below sz, and then the table pages. */
    method Uvmfree(r: nat, sz: nat)
      requires Valid() && IsRoot(kind, r) && sz <= MAXPAGE * PGSIZE && MappedIn(mem, kind, r, 0, Pages(sz), true)
      requires forall v :: Pages(sz) <= v < MAXPAGE ==> View(mem, r, v).None?
      modifies this
      ensures Valid() && Released(old(mem), old(kind), mem, kind, r)
    {
      hide TreeBut, View, FreeOk, Unmapped, Pruned, MappedIn, Bare, IsTable, Released;
      NoneUnmapped(mem, kind, r, 0, true);
      if sz > 0 {
        Uvmunmap(r, 0, Pages(sz), true);
      }
      NowBare(old(mem), old(kind), mem, kind, r, Pages(sz));
      ghost var mem1, kind1 := mem, kind;
      HungAt(mem, kind, r, None);
      Freewalk(r, 2);
      AllGone(old(mem), old(kind), mem1, kind1, mem, kind, r, Pages(sz));
    }

  }

  ghost function AllHeld(first: nat, last: nat): (k: Kinds)
    requires first <= last
    ensures forall f :: f in k <==> first <= f < last
    ensures forall f :: f in k ==> k[f] == Held
    decreases last - first
  {
    if first == last then map[] else AllHeld(first + 1, last)[first := Held]
  }

  lemma NoTrees(mem: Mem, kind: Kinds)
    requires forall f :: f in kind ==> kind[f] == Free
    ensures TreeOk(mem, kind)
  {
  }

  lemma PlainPageBut(mem: Mem, kind: Kinds, f: nat, page: Page, k: Kind, except: Option<nat>)
    requires TreeBut(mem, kind, except) && f in kind && (kind[f] == Free || kind[f] == Held) && (k == Free || k == Held)
    ensures TreeBut(mem[f := page], kind[f := k], except)
  {
    LeavesThere(mem, kind, except);
    FrameKeeps(mem, mem[f := page], kind, kind[f := k], except);
  }

  /** A page that serves no address space may change hands and contents. */
  lemma PlainPage(mem: Mem, kind: Kinds, f: nat, page: Page, k: Kind)
    requires TreeOk(mem, kind) && f in kind && (kind[f] == Free || kind[f] == Held) && (k == Free || k == Held)
    ensures TreeOk(mem[f := page], kind[f := k])
    ensures ViewsKept(mem, mem[f := page], kind) && (kind[f] == Free ==> BytesKept(mem, mem[f := page], kind))
  {
    hide View;
    var mem2 := mem[f := page];
    PlainPageBut(mem, kind, f, page, k, None);
    forall r, vpn | IsRoot(kind, r) && 0 <= vpn < MAXPAGE ensures View(mem2, r, vpn) == View(mem, r, vpn) {
      FrameView(mem, mem2, kind, r, vpn);
    }
  }

  lemma LeavesThere(mem: Mem, kind: Kinds, except: Option<nat>)
    requires TreeBut(mem, kind, except)
    ensures forall f :: f in kind && kind[f].Leaf? ==> f in mem && mem[f].Data? && |mem[f].bytes| == PGSIZE
  {
  }

  // ---- walk -------------------------------------------------------------------------------------

  lemma WalkStart(mem: Mem, kind: Kinds, r: nat, vpn: nat)
    requires TreeOk(mem, kind) && IsRoot(kind, r)
    ensures At(kind, r, vpn, r, 2) && Grown(mem, kind, mem, kind, r)
  {
    HungAt(mem, kind, r, None);
  }

  lemma GrownThrough(mem: Mem, kind: Kinds, mem2: Mem, kind2: Kinds, mem3: Mem, kind3: Kinds, r: nat)
    requires Grown(mem, kind, mem2, kind2, r) && Grown(mem2, kind2, mem3, kind3, r)
    ensures Grown(mem, kind, mem3, kind3, r)
  {
    hide View;
    forall q, vpn | IsRoot(kind, q) && 0 <= vpn < MAXPAGE ensures View(mem3, q, vpn) == View(mem, q, vpn) {
      assert IsRoot(kind2, q) && View(mem2, q, vpn) == View(mem, q, vpn);
    }
  }

  /** A page fresh from kalloc, cleared and linked in as a table page. */
  lemma NewTable(mem0: Mem, kind0: Kinds, mem: Mem, kind: Kinds, head: nat, free: seq<nat>, t: nat, i: nat, c: nat)
    requires TreeOk(mem, kind) && FreeOk(mem, head, free, kind)
    requires c in kind0 && kind0[c] == Free && kind == kind0[c := Held] && mem == mem0[c := Junk]
    requires ViewsKept(mem0, mem, kind0) && BytesKept(mem0, mem, kind0)
    requires t in kind && kind[t].Node? && 1 <= kind[t].level && IsTable(mem0, t) && i < ENTRIES && Entry(mem0, t, i).None?
    requires kind[t].pre * ENTRIES + i < Width(kind[t].level - 1)
    ensures IsTable(mem, t)
    ensures var kind2 := kind[c := Node(kind[t].r, kind[t].level - 1, kind[t].pre * ENTRIES + i, t)];
            var mem2 := WithTable(mem, t, i, c);
            TreeOk(mem2, kind2) && FreeOk(mem2, head, free, kind2) && Grown(mem0, kind0, mem2, kind2, kind[t].r)
  {
    hide View, WithTable, FreeOk, TreeBut;
    var kind2 := kind[c := Node(kind[t].r, kind[t].level - 1, kind[t].pre * ENTRIES + i, t)];
    var mem2 := WithTable(mem, t, i, c);
    HungAt(mem, kind, t, None);
    TableKeeps(mem, kind, t, i, c);
    ListFrame(mem, mem2, head, free, kind, kind2);
    forall r, vpn | IsRoot(kind0, r) && 0 <= vpn < MAXPAGE ensures View(mem2, r, vpn) == View(mem0, r, vpn) {
      TableView(mem, kind, t, i, c, r, vpn);
    }
  }

  /** The walk stops at an invalid entry: the page has no slot. */
  lemma WalkEnds(mem: Mem, kind: Kinds, r: nat, vpn: nat, t: nat, level: nat)
    requires TreeOk(mem, kind) && 1 <= level <= 2 && vpn < MAXPAGE && At(kind, r, vpn, t, level)
    requires Entry(mem, t, Px(level, vpn)).None?
    ensures Bottom(mem, r, vpn / ENTRIES).None?
  {
    hide TreeBut, Entry, Px, Pre;
    HungAt(mem, kind, t, None);
    Digit(vpn);
    if level == 1 { MiddleOf(mem, kind, t); }
  }

  lemma Digit(vpn: nat)
    requires vpn < MAXPAGE
    ensures Px(2, vpn) == vpn / ENTRIES / ENTRIES && Px(1, vpn) == vpn / ENTRIES % ENTRIES && Pre(1, vpn) == vpn / ENTRIES / ENTRIES
  {
  }

  lemma TableAt(mem: Mem, kind: Kinds, t: nat)
    requires TreeOk(mem, kind) && t in kind && kind[t].Node?
    ensures IsTable(mem, t) && t in mem && mem[t].Table? && |mem[t].ptes| == ENTRIES
  {
    HungAt(mem, kind, t, None);
  }

  lemma WalkOn(mem: Mem, kind: Kinds, r: nat, vpn: nat, t: nat, level: nat)
    requires TreeOk(mem, kind) && 1 <= level <= 2 && vpn < MAXPAGE && At(kind, r, vpn, t, level) && IsTable(mem, t)
    ensures mem[t].ptes[Px(level, vpn)].flags.v ==> At(kind, r, vpn, mem[t].ptes[Px(level, vpn)].frame, level - 1)
    ensures mem[t].ptes[Px(level, vpn)].flags.v <==> Entry(mem, t, Px(level, vpn)).Some?
  {
    hide TreeBut;
    SlotAt(mem, kind, t, Px(level, vpn), None);
    PreNext(level, vpn);
  }

  // ---- Mapping and unmapping one page -----------------------------------------------------------

  /** n frames in hand that serve no address space yet and hold data. */
  ghost predicate Spare(mem: Mem, kind: Kinds, frame: nat, n: nat) {
    forall x :: frame <= x < frame + n ==> x in kind && kind[x] == Held && x in mem && mem[x].Data? && |mem[x].bytes| == PGSIZE
  }

  lemma MapLemma(mem0: Mem, kind0: Kinds, mem: Mem, kind: Kinds, head: nat, free: seq<nat>,
                 r: nat, vpn: nat, t: nat, frame: nat, flags: Flags, own: bool)
    requires TreeOk(mem, kind) && FreeOk(mem, head, free, kind) && Grown(mem0, kind0, mem, kind, r)
    requires IsRoot(kind0, r) && vpn < MAXPAGE && View(mem0, r, vpn).None? && Bottom(mem, r, vpn / ENTRIES) == Some(t)
    requires flags.v && IsLeaf(Pte(frame, flags)) && (flags.u ==> own)
    requires own ==> Spare(mem0, kind0, frame, 1)
    ensures IsTable(mem, t) && (own ==> frame in kind)
    ensures var mem2 := WithPte(mem, t, vpn % ENTRIES, Pte(frame, flags));
            var kind2 := if own then kind[frame := Leaf(r, vpn, t)] else kind;
            TreeOk(mem2, kind2) && FreeOk(mem2, head, free, kind2) && Mapped(mem0, kind0, mem2, kind2, r, vpn, 1, frame, flags, own)
  {
    hide TreeBut, FreeOk, WithPte, Entry, IsTable, Bottom, View;
    SlotFacts(mem, kind, r, vpn, t);
    assert View(mem, r, vpn) == View(mem0, r, vpn);
    var p, i := Pte(frame, flags), vpn % ENTRIES;
    var mem2 := WithPte(mem, t, i, p);
    var kind2 := if own then kind[frame := Leaf(r, vpn, t)] else kind;
    MapKeeps(mem, kind, t, i, p, own);
    ListFrame(mem, mem2, head, free, kind, kind2);
    forall r2, v | IsRoot(kind0, r2) && 0 <= v < MAXPAGE
      ensures View(mem2, r2, v) == if r2 == r && v == vpn then Some(p) else View(mem0, r2, v)
    {
      LeafWriteView(mem, kind, t, i, p, r2, v);
    }
  }

  /** Growing the tables of r leaves a held page held. */
  lemma GrownHeld(mem0: Mem, kind0: Kinds, mem: Mem, kind: Kinds, r: nat, frame: nat)
    requires Grown(mem0, kind0, mem, kind, r) && Spare(mem0, kind0, frame, 1)
    ensures frame in kind && kind[frame] == Held
  {
  }

  lemma SlotFacts(mem: Mem, kind: Kinds, r: nat, vpn: nat, t: nat)
    requires TreeOk(mem, kind) && IsRoot(kind, r) && vpn < MAXPAGE && Bottom(mem, r, vpn / ENTRIES) == Some(t)
    ensures t in kind && kind[t].Node? && kind[t].r == r && kind[t].level == 0 && kind[t].pre == vpn / ENTRIES
    ensures kind[t].pre * ENTRIES + vpn % ENTRIES == vpn && IsTable(mem, t) && View(mem, r, vpn) == Entry(mem, t, vpn % ENTRIES)
  {
    hide TreeBut;
    BottomIs(mem, kind, r, vpn / ENTRIES);
    HungAt(mem, kind, t, None);
  }

  // ---- Mapping a range --------------------------------------------------------------------------

  function FirstPage(va: nat): (v: nat) {
    va / PGSIZE
  }

  function PageCount(va: nat, size: nat): (n: nat)
    requires size > 0
    ensures n >= 1
  {
    (va + size - 1) / PGSIZE - va / PGSIZE + 1
  }

  lemma PagesFit(va: nat, size: nat)
    requires size > 0 && va + size <= MAXPAGE * PGSIZE
    ensures FirstPage(va) + PageCount(va, size) <= MAXPAGE
  {
  }

  lemma NoneMapped(mem: Mem, kind: Kinds, r: nat, first: nat, frame: nat, flags: Flags, own: bool)
    ensures Mapped(mem, kind, mem, kind, r, first, 0, frame, flags, own)
  {
  }

  /** The next page is still unmapped and its frame still in hand. */
  lemma MapNext(mem0: Mem, kind0: Kinds, mem: Mem, kind: Kinds, r: nat, first: nat, n: nat, frame: nat, flags: Flags, own: bool, total: nat)
    requires Mapped(mem0, kind0, mem, kind, r, first, n, frame, flags, own) && IsRoot(kind0, r) && n < total
    requires first + total <= MAXPAGE && (own ==> Spare(mem0, kind0, frame, total))
    requires forall v :: first <= v < first + total ==> View(mem0, r, v).None?
    ensures IsRoot(kind, r) && View(mem, r, first + n).None? && (own ==> Spare(mem, kind, frame + n, 1))
  {
    hide View;
    assert View(mem, r, first + n) == View(mem0, r, first + n);
  }

  lemma MapMore(mem0: Mem, kind0: Kinds, mem1: Mem, kind1: Kinds, mem: Mem, kind: Kinds,
                r: nat, first: nat, n: nat, frame: nat, flags: Flags, own: bool, ok: bool)
    requires Mapped(mem0, kind0, mem1, kind1, r, first, n, frame, flags, own) && IsRoot(kind0, r)
    requires !ok ==> Grown(mem1, kind1, mem, kind, r)
    requires ok ==> Mapped(mem1, kind1, mem, kind, r, first + n, 1, frame + n, flags, own)
    ensures Mapped(mem0, kind0, mem, kind, r, first, if ok then n + 1 else n, frame, flags, own)
  {
    hide View;
    forall r2 | IsRoot(kind0, r2) ensures IsRoot(kind1, r2) {
    }
  }

  // ---- Unmapping --------------------------------------------------------------------------------

  lemma AnyMapped(mem: Mem, kind: Kinds, r: nat, first: nat, n: nat, owned: bool)
    requires MappedIn(mem, kind, r, first, n, owned)
    ensures MappedIn(mem, kind, r, first, n, false)
  {
  }

  lemma HasSlot(mem: Mem, kind: Kinds, r: nat, vpn: nat)
    requires MappedIn(mem, kind, r, vpn, 1, false)
    ensures Bottom(mem, r, vpn / ENTRIES).Some? && View(mem, r, vpn).Some?
  {
    assert View(mem, r, vpn).Some?;
  }

  /** The owner of a user page reaches it through the one slot for its page number. */
  lemma OwnerSlot(mem: Mem, kind: Kinds, r: nat, vpn: nat, t: nat, f: nat)
    requires TreeOk(mem, kind) && IsRoot(kind, r) && vpn < MAXPAGE && Bottom(mem, r, vpn / ENTRIES) == Some(t)
    requires Owns(kind, r, vpn, f)
    ensures kind[f] == Leaf(r, vpn, t) && View(mem, r, vpn).Some? && View(mem, r, vpn).value.frame == f
  {
    assert LeafOk(mem, kind, f, kind[f]);
    BottomOf(mem, kind, kind[f].up);
  }

  lemma UnmapLemma(mem: Mem, kind: Kinds, head: nat, free: seq<nat>, r: nat, vpn: nat, t: nat, freed: bool)
    requires TreeOk(mem, kind) && FreeOk(mem, head, free, kind) && 0 !in kind
    requires IsRoot(kind, r) && vpn < MAXPAGE && MappedIn(mem, kind, r, vpn, 1, freed) && Bottom(mem, r, vpn / ENTRIES) == Some(t)
    ensures IsTable(mem, t) && mem[t].ptes[vpn % ENTRIES] == View(mem, r, vpn).value
    ensures var f := mem[t].ptes[vpn % ENTRIES].frame;
            if freed then
              var mem1, kind2 := mem[f := Run(head)], kind[f := Free];
              && f in kind && kind[f].Leaf? && f != t && f != 0 && IsTable(mem1, t)
              && (FreeOk(mem1, f, free + [f], kind2) ==>
                    TreeOk(WithPte(mem1, t, vpn % ENTRIES, NOPTE), kind2) && FreeOk(WithPte(mem1, t, vpn % ENTRIES, NOPTE), f, free + [f], kind2)
                    && Unmapped(mem, kind, WithPte(mem1, t, vpn % ENTRIES, NOPTE), kind2, r, vpn, 1, freed))
            else
              var mem2 := WithPte(mem, t, vpn % ENTRIES, NOPTE);
              var kind2 := if Owns(kind, r, vpn, f) then kind[f := Held] else kind;
              TreeOk(mem2, kind2) && FreeOk(mem2, head, free, kind2) && Unmapped(mem, kind, mem2, kind2, r, vpn, 1, freed)
  {
    hide TreeBut, FreeOk, WithPte, Entry, Bottom, View;
    SlotFacts(mem, kind, r, vpn, t);
    assert View(mem, r, vpn).Some?;
    EntryIs(mem, t, vpn % ENTRIES);
    var p := mem[t].ptes[vpn % ENTRIES];
    if freed {
      OwnerSlot(mem, kind, r, vpn, t, p.frame);
      UnmapFreed(mem, kind, head, free, r, vpn, t, p);
    } else {
      UnmapLeft(mem, kind, head, free, r, vpn, t, p);
    }
  }

  lemma EntryIs(mem: Mem, t: nat, i: nat)
    requires IsTable(mem, t) && i < ENTRIES && Entry(mem, t, i).Some?
    ensures Entry(mem, t, i) == Some(mem[t].ptes[i])
  {
  }

  lemma UnmapLeft(mem: Mem, kind: Kinds, head: nat, free: seq<nat>, r: nat, vpn: nat, t: nat, p: Pte)
    requires TreeOk(mem, kind) && FreeOk(mem, head, free, kind) && IsRoot(kind, r) && vpn < MAXPAGE
    requires t in kind && kind[t].Node? && kind[t].level == 0 && kind[t].r == r && kind[t].pre == vpn / ENTRIES && IsTable(mem, t)
    requires Entry(mem, t, vpn % ENTRIES) == Some(p) && Bottom(mem, r, vpn / ENTRIES) == Some(t) && View(mem, r, vpn) == Some(p)
    ensures var mem2 := WithPte(mem, t, vpn % ENTRIES, NOPTE);
            var kind2 := if Owns(kind, r, vpn, p.frame) then kind[p.frame := Held] else kind;
            TreeOk(mem2, kind2) && FreeOk(mem2, head, free, kind2) && Unmapped(mem, kind, mem2, kind2, r, vpn, 1, false)
  {
    hide TreeBut, FreeOk, WithPte, Entry, IsTable, View, Bottom;
    var mem2 := WithPte(mem, t, vpn % ENTRIES, NOPTE);
    var own := Owns(kind, r, vpn, p.frame);
    var kind2 := if own then kind[p.frame := Held] else kind;
    forall x | Owns(kind, r, vpn, x) ensures x == p.frame && kind[x] == Leaf(r, vpn, t) {
      OwnerSlot(mem, kind, r, vpn, t, x);
    }
    UnmapKeeps(mem, kind, t, vpn % ENTRIES, p, own);
    ListFrame(mem, mem2, head, free, kind, kind2);
    forall r2, v | IsRoot(kind, r2) && 0 <= v < MAXPAGE
      ensures View(mem2, r2, v) == if r2 == r && v == vpn then None else View(mem, r2, v)
    {
      LeafWriteView(mem, kind, t, vpn % ENTRIES, NOPTE, r2, v);
    }
    OnlyOne(kind, kind2, r, vpn, p.frame);
  }

  lemma OnlyOne(kind: Kinds, kind2: Kinds, r: nat, vpn: nat, f: nat)
    requires kind2 == if Owns(kind, r, vpn, f) then kind[f := Held] else kind
    requires forall x :: Owns(kind, r, vpn, x) ==> x == f
    ensures forall x :: x in kind ==> kind2[x] == if kind[x].Leaf? && kind[x].r == r && vpn <= kind[x].vpn < vpn + 1 then Held else kind[x]
  {
    forall x | x in kind ensures kind2[x] == if kind[x].Leaf? && kind[x].r == r && vpn <= kind[x].vpn < vpn + 1 then Held else kind[x] {
      assert Owns(kind, r, vpn, x) ==> x == f;
    }
  }

  lemma Commute(mem: Mem, t: nat, i: nat, p: Pte, f: nat, page: Page)
    requires IsTable(mem, t) && i < ENTRIES && f != t
    ensures IsTable(mem[f := page], t) && WithPte(mem[f := page], t, i, p) == WithPte(mem, t, i, p)[f := page]
  {
  }

  lemma UnmapFreed(mem: Mem, kind: Kinds, head: nat, free: seq<nat>, r: nat, vpn: nat, t: nat, p: Pte)
    requires TreeOk(mem, kind) && 0 !in kind && IsRoot(kind, r) && vpn < MAXPAGE
    requires t in kind && kind[t].Node? && kind[t].level == 0 && kind[t].r == r && kind[t].pre == vpn / ENTRIES && IsTable(mem, t)
    requires Entry(mem, t, vpn % ENTRIES) == Some(p) && p.frame in kind && kind[p.frame] == Leaf(r, vpn, t)
    requires Bottom(mem, r, vpn / ENTRIES) == Some(t)
    ensures var mem1, kind2 := mem[p.frame := Run(head)], kind[p.frame := Free];
            && IsTable(mem1, t) && p.frame != 0
            && (FreeOk(mem1, p.frame, free + [p.frame], kind2) ==>
                  var mem2 := WithPte(mem1, t, vpn % ENTRIES, NOPTE);
                  && TreeOk(mem2, kind2) && FreeOk(mem2, p.frame, free + [p.frame], kind2)
                  && Unmapped(mem, kind, mem2, kind2, r, vpn, 1, true))
  {
    hide TreeBut, FreeOk, WithPte, Entry, IsTable, View, Unmapped;
    var i, f := vpn % ENTRIES, p.frame;
    var mem1, kind1, kind2 := mem[f := Run(head)], kind[f := Held], kind[f := Free];
    Commute(mem, t, i, NOPTE, f, Run(head));
    var mem2 := WithPte(mem1, t, i, NOPTE);
    var memA := WithPte(mem, t, i, NOPTE);
    UnmapKeeps(mem, kind, t, i, p, true);
    PlainPage(memA, kind1, f, Run(head), Free);
    assert kind1[f := Free] == kind2;
    if FreeOk(mem1, f, free + [f], kind2) {
      ListFrame(mem1, mem2, f, free + [f], kind2, kind2);
    }
    forall x | Owns(kind, r, vpn, x) ensures x == f {
      OneOwned(mem, kind, r, vpn, t, f, x);
    }
    UnmapFreedViews(mem, kind, memA, mem2, kind1, kind2, r, vpn, t, p);
  }

  lemma UnmapFreedViews(mem: Mem, kind: Kinds, memA: Mem, mem2: Mem, kind1: Kinds, kind2: Kinds, r: nat, vpn: nat, t: nat, p: Pte)
    requires TreeOk(mem, kind) && IsRoot(kind, r) && vpn < MAXPAGE
    requires t in kind && kind[t].Node? && kind[t].level == 0 && kind[t].r == r && kind[t].pre == vpn / ENTRIES && IsTable(mem, t)
    requires p.frame in kind && kind[p.frame] == Leaf(r, vpn, t)
    requires memA == WithPte(mem, t, vpn % ENTRIES, NOPTE) && kind1 == kind[p.frame := Held] && kind2 == kind[p.frame := Free]
    requires ViewsKept(memA, mem2, kind1) && mem2.Keys == memA.Keys + {p.frame}
    requires forall u :: u in memA && u != p.frame ==> mem2[u] == memA[u]
    requires forall x :: Owns(kind, r, vpn, x) ==> x == p.frame
    ensures Unmapped(mem, kind, mem2, kind2, r, vpn, 1, true)
  {
    hide TreeBut, WithPte, Entry, IsTable, View;
    forall r2, v | IsRoot(kind, r2) && 0 <= v < MAXPAGE
      ensures View(mem2, r2, v) == if r2 == r && v == vpn then None else View(mem, r2, v)
    {
      LeafWriteView(mem, kind, t, vpn % ENTRIES, NOPTE, r2, v);
      assert IsRoot(kind1, r2);
      assert View(mem2, r2, v) == View(memA, r2, v);
    }
    forall x | x in kind ensures kind2[x] == if kind[x].Leaf? && kind[x].r == r && kind[x].vpn == vpn then Free else kind[x] {
      assert Owns(kind, r, vpn, x) ==> x == p.frame;
    }
  }

  /** One frame at most backs a page. */
  lemma OneOwned(mem: Mem, kind: Kinds, r: nat, vpn: nat, t: nat, f: nat, x: nat)
    requires TreeOk(mem, kind) && IsRoot(kind, r) && vpn < MAXPAGE && Bottom(mem, r, vpn / ENTRIES) == Some(t)
    requires Owns(kind, r, vpn, f) && Owns(kind, r, vpn, x)
    ensures f == x
  {
    hide TreeBut, Bottom, View;
    OwnerSlot(mem, kind, r, vpn, t, f);
    OwnerSlot(mem, kind, r, vpn, t, x);
  }

  lemma NoneUnmapped(mem: Mem, kind: Kinds, r: nat, first: nat, freed: bool)
    ensures Unmapped(mem, kind, mem, kind, r, first, 0, freed)
  {
  }

  lemma UnmapNext(mem0: Mem, kind0: Kinds, mem: Mem, kind: Kinds, r: nat, first: nat, n: nat, total: nat, freed: bool)
    requires Unmapped(mem0, kind0, mem, kind, r, first, n, freed) && IsRoot(kind0, r) && n < total
    requires first + total <= MAXPAGE && MappedIn(mem0, kind0, r, first, total, freed)
    ensures IsRoot(kind, r) && MappedIn(mem, kind, r, first + n, 1, freed)
  {
    hide View;
    assert View(mem, r, first + n) == View(mem0, r, first + n);
  }

  lemma UnmapMore(mem0: Mem, kind0: Kinds, mem1: Mem, kind1: Kinds, mem: Mem, kind: Kinds, r: nat, first: nat, n: nat, freed: bool)
    requires Unmapped(mem0, kind0, mem1, kind1, r, first, n, freed) && IsRoot(kind0, r)
    requires Unmapped(mem1, kind1, mem, kind, r, first + n, 1, freed)
    ensures Unmapped(mem0, kind0, mem, kind, r, first, n + 1, freed)
  {
    hide View;
    forall r2 | IsRoot(kind0, r2) ensures IsRoot(kind1, r2) {
    }
  }

  // ---- Growing an address space -----------------------------------------------------------------

  lemma GrownSelf(mem: Mem, kind: Kinds, r: nat)
    ensures Grown(mem, kind, mem, kind, r)
  {
  }

  lemma FreshPage(mem0: Mem, kind0: Kinds, mem: Mem, kind: Kinds, head: nat, free: seq<nat>, r: nat, vpn: nat, c: nat, page: Page)
    requires TreeOk(mem, kind) && FreeOk(mem, head, free, kind) && IsRoot(kind0, r) && vpn < MAXPAGE && View(mem0, r, vpn).None?
    requires c in kind0 && kind0[c] == Free && kind == kind0[c := Held] && mem == mem0[c := Junk]
    requires ViewsKept(mem0, mem, kind0) && page.Data? && |page.bytes| == PGSIZE
    ensures TreeOk(mem[c := page], kind) && FreeOk(mem[c := page], head, free, kind)
    ensures IsRoot(kind, r) && View(mem[c := page], r, vpn).None? && Spare(mem[c := page], kind, c, 1)
    ensures ViewsKept(mem0, mem[c := page], kind0) && BytesKept(mem0, mem[c := page], kind0)
  {
    hide TreeBut, View, FreeOk;
    var mem2 := mem[c := page];
    PlainPage(mem, kind, c, page, Held);
    assert kind[c := Held] == kind;
    ListFrame(mem, mem2, head, free, kind, kind);
    forall r2, v | IsRoot(kind0, r2) && 0 <= v < MAXPAGE ensures View(mem2, r2, v) == View(mem0, r2, v) {
      assert IsRoot(kind, r2);
    }
  }

  lemma StillHeld(mem: Mem, kind: Kinds, mem2: Mem, kind2: Kinds, c: nat, r: nat)
    requires Grown(mem, kind, mem2, kind2, r) && c in kind && kind[c] == Held
    ensures c in kind2 && kind2[c] == Held
  {
  }

  lemma GiveBack(mem0: Mem, kind0: Kinds, mem1: Mem, kind1: Kinds, mem2: Mem, kind2: Kinds, mem3: Mem, kind3: Kinds, c: nat, r: nat)
    requires c in kind0 && kind0[c] == Free && kind1 == kind0[c := Held] && ViewsKept(mem0, mem1, kind0) && BytesKept(mem0, mem1, kind0)
    requires Grown(mem1, kind1, mem2, kind2, r) && TreeOk(mem2, kind2) && kind3 == kind2[c := Free]
    requires mem3.Keys == mem2.Keys + {c} && (forall x :: x in mem2 && x != c ==> mem3[x] == mem2[x])
    ensures TreeOk(mem3, kind3) && Grown(mem0, kind0, mem3, kind3, r)
  {
    hide TreeBut, View;
    assert mem3 == mem2[c := mem3[c]];
    PlainPage(mem2, kind2, c, mem3[c], Free);
    forall r2, v | IsRoot(kind0, r2) && 0 <= v < MAXPAGE ensures View(mem3, r2, v) == View(mem0, r2, v) {
      assert IsRoot(kind1, r2);
      assert IsRoot(kind2, r2);
      assert View(mem1, r2, v) == View(mem0, r2, v);
    }
  }

  lemma FillOne(mem0: Mem, kind0: Kinds, mem1: Mem, kind1: Kinds, mem2: Mem, kind2: Kinds, r: nat, vpn: nat, c: nat, w: Want)
    requires c in kind0 && kind0[c] == Free && kind1 == kind0[c := Held] && ViewsKept(mem0, mem1, kind0) && BytesKept(mem0, mem1, kind0)
    requires IsRoot(kind0, r) && vpn < MAXPAGE && c in mem1 && mem1[c] == w.page
    requires Mapped(mem1, kind1, mem2, kind2, r, vpn, 1, c, w.flags, true)
    ensures Filled(mem0, kind0, mem2, kind2, r, vpn, [w])
  {
    hide View, PageIs;
    FillOnePage(mem1, kind1, mem2, kind2, r, vpn, c, w);
    forall r2, v | IsRoot(kind0, r2) && 0 <= v < MAXPAGE && !(r2 == r && v == vpn)
      ensures View(mem2, r2, v) == View(mem0, r2, v)
    {
      assert IsRoot(kind1, r2);
      assert View(mem1, r2, v) == View(mem0, r2, v);
    }
  }

  lemma FillOnePage(mem1: Mem, kind1: Kinds, mem2: Mem, kind2: Kinds, r: nat, vpn: nat, c: nat, w: Want)
    requires c in kind1 && kind1[c] == Held && IsRoot(kind1, r) && vpn < MAXPAGE && c in mem1 && mem1[c] == w.page
    requires Mapped(mem1, kind1, mem2, kind2, r, vpn, 1, c, w.flags, true)
    ensures PageIs(mem2, kind2, r, vpn, w) && Owns(kind2, r, vpn, c)
  {
    hide View;
    assert View(mem2, r, vpn) == Some(Pte(c, w.flags));
  }

  lemma FilledNone(mem: Mem, kind: Kinds, r: nat, first: nat)
    ensures Filled(mem, kind, mem, kind, r, first, [])
  {
  }

  lemma FilledMore(mem0: Mem, kind0: Kinds, mem1: Mem, kind1: Kinds, mem2: Mem, kind2: Kinds, r: nat, first: nat, want: seq<Want>, w: Want)
    requires Filled(mem0, kind0, mem1, kind1, r, first, want) && Filled(mem1, kind1, mem2, kind2, r, first + |want|, [w])
    requires IsRoot(kind0, r) && first + |want| < MAXPAGE
    ensures Filled(mem0, kind0, mem2, kind2, r, first, want + [w])
  {
    hide View;
    forall r2 | IsRoot(kind0, r2) ensures IsRoot(kind1, r2) {
    }
    FilledPages(mem0, kind0, mem1, kind1, mem2, kind2, r, first, want, w);
    hide PageIs;
  }

  lemma FilledPages(mem0: Mem, kind0: Kinds, mem1: Mem, kind1: Kinds, mem2: Mem, kind2: Kinds, r: nat, first: nat, want: seq<Want>, w: Want)
    requires Filled(mem0, kind0, mem1, kind1, r, first, want) && Filled(mem1, kind1, mem2, kind2, r, first + |want|, [w])
    requires IsRoot(kind1, r) && first + |want| < MAXPAGE
    ensures forall v :: first <= v < first + |want| + 1 ==> PageIs(mem2, kind2, r, v, WantAt(want + [w], first, v))
  {
    hide View;
    forall v | first <= v < first + |want| + 1 ensures PageIs(mem2, kind2, r, v, WantAt(want + [w], first, v)) {
      if v < first + |want| {
        assert PageIs(mem1, kind1, r, v, WantAt(want, first, v));
        assert View(mem2, r, v) == View(mem1, r, v);
      } else {
        assert PageIs(mem2, kind2, r, v, WantAt([w], first + |want|, v));
      }
    }
  }

  lemma FilledGrown(mem0: Mem, kind0: Kinds, mem1: Mem, kind1: Kinds, mem2: Mem, kind2: Kinds, r: nat, first: nat, want: seq<Want>)
    requires Filled(mem0, kind0, mem1, kind1, r, first, want) && Grown(mem1, kind1, mem2, kind2, r) && IsRoot(kind0, r)
    requires first + |want| <= MAXPAGE
    ensures Filled(mem0, kind0, mem2, kind2, r, first, want)
  {
    hide View;
    forall r2 | IsRoot(kind0, r2) ensures IsRoot(kind1, r2) {
    }
    forall v | first <= v < first + |want| ensures PageIs(mem2, kind2, r, v, WantAt(want, first, v)) {
      assert PageIs(mem1, kind1, r, v, WantAt(want, first, v));
      assert View(mem2, r, v) == View(mem1, r, v);
    }
  }

  lemma FilledMapped(mem0: Mem, kind0: Kinds, mem: Mem, kind: Kinds, r: nat, first: nat, want: seq<Want>)
    requires Filled(mem0, kind0, mem, kind, r, first, want) && IsRoot(kind0, r) && first + |want| <= MAXPAGE
    ensures IsRoot(kind, r) && MappedIn(mem, kind, r, first, |want|, true)
    ensures first + |want| < MAXPAGE && View(mem0, r, first + |want|).None? ==> View(mem, r, first + |want|).None?
  {
    hide View;
    forall v | first <= v < first + |want| ensures View(mem, r, v).Some? && Owns(kind, r, v, View(mem, r, v).value.frame) {
      assert PageIs(mem, kind, r, v, WantAt(want, first, v));
    }
  }

  /** An unmapped page is no one's leaf. */
  lemma NoLeaf(mem: Mem, kind: Kinds, r: nat, v: nat, x: nat)
    requires TreeOk(mem, kind) && View(mem, r, v).None?
    ensures !Owns(kind, r, v, x)
  {
    if Owns(kind, r, v, x) {
      assert LeafOk(mem, kind, x, kind[x]);
      BottomOf(mem, kind, kind[x].up);
      assert false;
    }
  }

  /** A page mapped to a frame that is not r's own is no page that r owns. */
  lemma NotOwn(mem: Mem, kind: Kinds, r: nat, v: nat, x: nat)
    requires TreeOk(mem, kind) && IsRoot(kind, r) && v < MAXPAGE && View(mem, r, v).Some? && !Owns(kind, r, v, View(mem, r, v).value.frame)
    ensures !Owns(kind, r, v, x)
  {
    hide TreeBut;
    if Owns(kind, r, v, x) {
      OwnerSlot(mem, kind, r, v, Bottom(mem, r, v / ENTRIES).value, x);
      assert false;
    }
  }

  /** Unmapping such pages changes no page's use. */
  lemma UnmapBorrowed(mem: Mem, kind: Kinds, mem2: Mem, kind2: Kinds, r: nat, first: nat, n: nat)
    requires TreeOk(mem, kind) && IsRoot(kind, r) && first + n <= MAXPAGE && Borrowed(mem, kind, r, first, n)
    requires Unmapped(mem, kind, mem2, kind2, r, first, n, false)
    ensures kind2 == kind
  {
    hide TreeBut, View;
    forall x | x in kind ensures kind2[x] == kind[x] {
      if kind[x].Leaf? && kind[x].r == r && first <= kind[x].vpn < first + n {
        NotOwn(mem, kind, r, kind[x].vpn, x);
      }
    }
  }

  /** Undoing the pages filled so far leaves only table pages added. */
  lemma FilledUndone(mem0: Mem, kind0: Kinds, mem1: Mem, kind1: Kinds, mem2: Mem, kind2: Kinds, r: nat, first: nat, want: seq<Want>)
    requires Filled(mem0, kind0, mem1, kind1, r, first, want) && Unmapped(mem1, kind1, mem2, kind2, r, first, |want|, true)
    requires IsRoot(kind0, r) && TreeOk(mem0, kind0)
    requires forall v :: first <= v < first + |want| ==> View(mem0, r, v).None?
    ensures Grown(mem0, kind0, mem2, kind2, r)
  {
    hide View, TreeBut;
    forall r2 | IsRoot(kind0, r2) ensures IsRoot(kind1, r2) {
    }
    forall x | x in kind0 ensures kind2[x] == kind0[x] || NewTableOf(kind0[x], kind2[x], r) {
      if kind0[x].Leaf? && first <= kind0[x].vpn < first + |want| && kind0[x].r == r { NoLeaf(mem0, kind0, r, kind0[x].vpn, x); }
    }
  }

  /** PGROUNDUP(sz) / PGSIZE. */
  function Pages(sz: nat): (n: nat)
    ensures (n - 1) * PGSIZE < sz <= n * PGSIZE
  {
    (sz + PGSIZE - 1) / PGSIZE
  }

  lemma AlignedPages(n: nat)
    ensures Pages(n * PGSIZE) == n
  {
  }

  const USERPAGE: Flags := Flags(true, true, true, true, true)

  function ZeroPage(): (p: Page)
    ensures p.Data? && |p.bytes| == PGSIZE
  {
    Data(seq(PGSIZE, i => 0))
  }

  ghost function Zeroed(n: nat): (w: seq<Want>)
    ensures |w| == n
  {
    seq(n, i => Want(USERPAGE, ZeroPage()))
  }

  lemma ZeroedMore(n: nat)
    ensures Zeroed(0) == [] && Zeroed(n + 1) == Zeroed(n) + [Want(USERPAGE, ZeroPage())]
  {
  }

  /** The pages of a range of addresses. */
  lemma RangePages(va: nat, size: nat, v: nat)
    requires size > 0
    ensures FirstPage(va) <= v < FirstPage(va) + PageCount(va, size) <==> exists a: nat :: va <= a < va + size && a / PGSIZE == v
  {
    if FirstPage(va) <= v < FirstPage(va) + PageCount(va, size) {
      var a := if v * PGSIZE < va then va else v * PGSIZE;
      assert va <= a < va + size && a / PGSIZE == v;
    }
  }

  lemma OnePage(vpn: nat)
    ensures FirstPage(vpn * PGSIZE) == vpn && PageCount(vpn * PGSIZE, PGSIZE) == 1
  {
  }

  lemma MappedNone(mem: Mem, kind: Kinds, mem2: Mem, kind2: Kinds, r: nat, first: nat, frame: nat, flags: Flags)
    requires Mapped(mem, kind, mem2, kind2, r, first, 0, frame, flags, true)
    ensures Grown(mem, kind, mem2, kind2, r)
  {
  }

  // ---- New and copied address spaces ------------------------------------------------------------

  lemma NewRoot(mem0: Mem, kind0: Kinds, mem: Mem, kind: Kinds, head: nat, free: seq<nat>, c: nat)
    requires TreeOk(mem, kind) && FreeOk(mem, head, free, kind)
    requires c in kind0 && kind0[c] == Free && kind == kind0[c := Held]
    requires ViewsKept(mem0, mem, kind0) && BytesKept(mem0, mem, kind0)
    ensures var mem2, kind2 := WithRoot(mem, c), kind[c := Node(c, 2, 0, c)];
            && TreeOk(mem2, kind2) && FreeOk(mem2, head, free, kind2)
            && ViewsKept(mem0, mem2, kind0) && BytesKept(mem0, mem2, kind0)
            && (forall v :: 0 <= v < MAXPAGE ==> View(mem2, c, v).None?)
  {
    hide TreeBut, View, FreeOk, WithRoot, Entry, IsTable;
    var mem2, kind2 := WithRoot(mem, c), kind[c := Node(c, 2, 0, c)];
    RootKeeps(mem, kind, c);
    ListFrame(mem, mem2, head, free, kind, kind2);
    forall v | 0 <= v < MAXPAGE ensures View(mem2, c, v).None? {
      RootView(mem, kind, c, c, v);
    }
    forall r, v | IsRoot(kind0, r) && 0 <= v < MAXPAGE ensures View(mem2, r, v) == View(mem0, r, v) {
      assert IsRoot(kind, r);
      RootView(mem, kind, c, r, v);
    }
  }

  /** What page v of r holds, with its flags. */
  function WantOf(mem: Mem, r: nat, v: nat): (w: Want) {
    var p := View(mem, r, v);
    if p.Some? && p.value.frame in mem then Want(p.value.flags, mem[p.value.frame]) else Want(INNER, Junk)
  }

  function Copies(mem: Mem, r: nat, n: nat): (w: seq<Want>)
    ensures |w| == n && (forall v :: 0 <= v < n ==> w[v] == WantOf(mem, r, v))
  {
    if n == 0 then [] else Copies(mem, r, n - 1) + [WantOf(mem, r, n - 1)]
  }

  lemma CopiesMore(mem: Mem, r: nat, n: nat)
    ensures Copies(mem, r, 0) == [] && Copies(mem, r, n + 1) == Copies(mem, r, n) + [WantOf(mem, r, n)]
  {
  }

  /** The source page is still as it was. */
  lemma CopyFrom(mem0: Mem, kind0: Kinds, mem: Mem, kind: Kinds, r1: nat, r2: nat, i: nat, n: nat, done: seq<Want>)
    requires TreeOk(mem0, kind0) && TreeOk(mem, kind) && Filled(mem0, kind0, mem, kind, r2, 0, done) && IsRoot(kind0, r1) && r1 != r2
    requires i < n <= MAXPAGE && MappedIn(mem0, kind0, r1, 0, n, true)
    ensures IsRoot(kind, r1) && Bottom(mem, r1, i / ENTRIES).Some? && View(mem, r1, i) == View(mem0, r1, i)
    ensures View(mem0, r1, i).Some? && var f := View(mem0, r1, i).value.frame;
            f in mem0 && f in mem && mem[f] == mem0[f] && mem[f].Data? && |mem[f].bytes| == PGSIZE
    ensures View(mem0, r1, i).value.flags.v && IsLeaf(Pte(0, View(mem0, r1, i).value.flags))
  {
    hide TreeBut, Filled, MappedIn;
    CopyView(mem0, kind0, mem, kind, r1, r2, i, n, done);
    LeafFacts(mem0, kind0, r1, i);
    LeavesThere(mem0, kind0, None);
  }

  lemma CopyView(mem0: Mem, kind0: Kinds, mem: Mem, kind: Kinds, r1: nat, r2: nat, i: nat, n: nat, done: seq<Want>)
    requires Filled(mem0, kind0, mem, kind, r2, 0, done) && IsRoot(kind0, r1) && r1 != r2
    requires i < n <= MAXPAGE && MappedIn(mem0, kind0, r1, 0, n, true)
    ensures IsRoot(kind, r1) && View(mem, r1, i) == View(mem0, r1, i) && View(mem0, r1, i).Some?
    ensures Owns(kind0, r1, i, View(mem0, r1, i).value.frame) && BytesKept(mem0, mem, kind0)
  {
    hide View;
    assert View(mem0, r1, i).Some?;
  }

  /** A mapped page's entry is valid and is a leaf. */
  lemma LeafFacts(mem: Mem, kind: Kinds, r: nat, vpn: nat)
    requires TreeOk(mem, kind) && IsRoot(kind, r) && vpn < MAXPAGE && View(mem, r, vpn).Some?
    ensures View(mem, r, vpn).value.flags.v && IsLeaf(View(mem, r, vpn).value)
    ensures View(mem, r, vpn).value.flags.u ==> Owns(kind, r, vpn, View(mem, r, vpn).value.frame)
  {
    hide TreeBut;
    BottomIs(mem, kind, r, vpn / ENTRIES);
    var t := Bottom(mem, r, vpn / ENTRIES).value;
    SlotAt(mem, kind, t, vpn % ENTRIES, None);
  }

  lemma SlotThere(mem: Mem, t: nat)
    requires IsTable(mem, t)
    ensures t in mem && mem[t].Table? && |mem[t].ptes| == ENTRIES
  {
  }

  // ---- Taking an address space apart ------------------------------------------------------------

  /** No page of r is mapped. */
  ghost predicate Bare(mem: Mem, kind: Kinds, r: nat) {
    forall t :: t in kind && kind[t].Node? && kind[t].r == r && kind[t].level == 0 ==> Empty(mem, t)
  }

  /** k is a table page at or below the place (level, pre) of r's tree. */
  predicate InSub(k: Kind, r: nat, level: nat, pre: nat) {
    k.Node? && k.r == r && k.level <= level && Up(k.pre, level - k.level) == pre
  }

  /** Exactly the table pages of the subtree at (level, pre) became free; no other page changed. */
  ghost predicate Pruned(mem: Mem, kind: Kinds, mem2: Mem, kind2: Kinds, r: nat, level: nat, pre: nat) {
    && kind2.Keys == kind.Keys
    && (forall x :: x in kind ==> kind2[x] == if InSub(kind[x], r, level, pre) then Free else kind[x])
    && (forall x :: x in mem && !(x in kind && InSub(kind[x], r, level, pre)) ==> x in mem2 && mem2[x] == mem[x])
  }

  /** k is in one of the first i subtrees below table page (level, pre) of r's tree. */
  predicate Before(k: Kind, me: Kind, i: nat)
    requires me.Node?
  {
    k.Node? && k.r == me.r && k.level < me.level
    && me.pre * ENTRIES <= Up(k.pre, me.level - 1 - k.level) < me.pre * ENTRIES + i
  }

  /** The first i subtrees below t are gone and their slots cleared. */
  ghost predicate PartPruned(mem: Mem, kind: Kinds, mem2: Mem, kind2: Kinds, t: nat, i: nat) {
    && t in kind && kind[t].Node? && kind2.Keys == kind.Keys
    && (forall x :: x in kind ==> kind2[x] == if Before(kind[x], kind[t], i) then Free else kind[x])
    && (forall x :: x in mem && x != t && !(x in kind && Before(kind[x], kind[t], i)) ==> x in mem2 && mem2[x] == mem[x])
    && IsTable(mem, t) && IsTable(mem2, t)
    && (forall j :: 0 <= j < i ==> Entry(mem2, t, j).None?)
    && (forall j :: i <= j < ENTRIES ==> Entry(mem2, t, j) == Entry(mem, t, j))
  }

  lemma NotBefore(me: Kind, i: nat)
    requires me.Node?
    ensures !Before(me, me, i)
  {
  }

  lemma PruneStart(mem: Mem, kind: Kinds, t: nat)
    requires t in kind && kind[t].Node? && IsTable(mem, t)
    ensures PartPruned(mem, kind, mem, kind, t, 0)
  {
    hide Up;
  }

  lemma PruneTable(mem0: Mem, kind0: Kinds, mem: Mem, kind: Kinds, t: nat, i: nat)
    requires PartPruned(mem0, kind0, mem, kind, t, i)
    ensures t in mem && mem[t].Table? && |mem[t].ptes| == ENTRIES && t in kind && t in kind0 && kind0[t].Node? && kind[t] == kind0[t]
  {
    NotBefore(kind0[t], i);
  }

  /** A valid slot leads to the table page below, so t is not at the bottom. */
  lemma PruneChild(mem0: Mem, kind0: Kinds, mem: Mem, kind: Kinds, t: nat, i: nat)
    requires PartPruned(mem0, kind0, mem, kind, t, i) && TreeOk(mem, kind) && i < ENTRIES && Bare(mem, kind, kind0[t].r)
    requires t in mem && mem[t].Table? && |mem[t].ptes| == ENTRIES && mem[t].ptes[i].flags.v
    ensures kind0[t].level > 0 && Next(mem, Some(t), i) == Some(mem[t].ptes[i].frame)
    ensures var c := mem[t].ptes[i].frame;
            c in kind && kind[c] == Node(kind0[t].r, kind0[t].level - 1, kind0[t].pre * ENTRIES + i, t)
  {
    hide TreeBut;
    NotBefore(kind0[t], i);
    SlotAt(mem, kind, t, i, None);
    assert kind[t].level == 0 ==> Empty(mem, t);
  }

  lemma PruneSkip(mem0: Mem, kind0: Kinds, mem: Mem, kind: Kinds, t: nat, i: nat)
    requires PartPruned(mem0, kind0, mem, kind, t, i) && TreeOk(mem0, kind0) && i < ENTRIES
    requires t in mem && mem[t].Table? && |mem[t].ptes| == ENTRIES && !mem[t].ptes[i].flags.v
    ensures PartPruned(mem0, kind0, mem, kind, t, i + 1)
  {
    hide TreeBut, Up;
    assert Entry(mem0, t, i) == Entry(mem, t, i) == None;
    forall x | x in kind0 ensures Before(kind0[x], kind0[t], i) <==> Before(kind0[x], kind0[t], i + 1) {
      if Before(kind0[x], kind0[t], i + 1) { NothingBelow(mem0, kind0, t, i, x); }
    }
  }

  lemma {:induction false} UpOnce(p: nat, n: nat)
    ensures Up(p, n + 1) == Up(p, n) / ENTRIES
  {
    if n > 0 { UpOnce(p / ENTRIES, n - 1); }
  }

  lemma BeforeNext(k: Kind, me: Kind, i: nat)
    requires me.Node? && me.level > 0
    ensures Before(k, me, i + 1) <==> Before(k, me, i) || InSub(k, me.r, me.level - 1, me.pre * ENTRIES + i)
  {
    hide Up;
  }

  lemma BeforeAll(k: Kind, me: Kind)
    requires me.Node?
    ensures InSub(k, me.r, me.level, me.pre) <==>
            Before(k, me, ENTRIES) || (k.Node? && k.r == me.r && k.level == me.level && k.pre == me.pre)
  {
    if k.Node? && k.level < me.level { UpOnce(k.pre, me.level - 1 - k.level); }
  }

  /** Dropping the subtree below slot i leaves t and every page outside the subtree alone. */
  lemma PruneKept(mem0: Mem, kind0: Kinds, mem1: Mem, kind1: Kinds, mem: Mem, kind: Kinds, t: nat, i: nat)
    requires PartPruned(mem0, kind0, mem1, kind1, t, i) && kind0[t].level > 0
    requires Pruned(mem1, kind1, mem, kind, kind0[t].r, kind0[t].level - 1, kind0[t].pre * ENTRIES + i)
    ensures t in kind && kind[t] == kind0[t] && IsTable(mem, t) && t in mem && t in mem1 && mem[t] == mem1[t]
    ensures forall v :: v in kind && kind[v].Node? ==> kind1[v] == kind[v]
    ensures forall v :: v in kind && kind[v].Node? && v in mem1 ==> v in mem && mem[v] == mem1[v]
  {
    hide Up;
    NotBefore(kind0[t], i);
  }

  lemma PruneTree(mem1: Mem, kind1: Kinds, mem: Mem, kind: Kinds, me: Kind, t: nat, i: nat, c: nat)
    requires TreeOk(mem1, kind1) && i < ENTRIES && me.Node? && me.level > 0 && t in kind1 && kind1[t] == me
    requires c in kind1 && kind1[c] == Node(me.r, me.level - 1, me.pre * ENTRIES + i, t) && Next(mem1, Some(t), i) == Some(c)
    requires TreeBut(mem, kind, Some(c)) && kind.Keys == kind1.Keys && kind[c] == Free && kind[t] == me && IsTable(mem, t)
    requires forall v :: v in kind && kind[v].Node? ==> kind1[v] == kind[v]
    requires forall v :: v in kind && kind[v].Node? && v in mem1 ==> v in mem && mem[v] == mem1[v]
    ensures TreeOk(WithPte(mem, t, i, NOPTE), kind)
  {
    hide TreeBut, WithPte;
    HungAt(mem1, kind1, t, None);
    forall v, j | v in kind && kind[v].Node? && kind[v].level > 0 && 0 <= j < ENTRIES && Next(mem, Some(v), j) == Some(c)
      ensures v == t && j == i
    {
      HungAt(mem1, kind1, v, None);
      OnlyPointer(mem1, kind1, c, v, j);
      Digits(kind1[c].pre, me.pre, i);
    }
    ClearKeeps(mem, kind, t, i, c);
  }

  lemma PruneNext(mem0: Mem, kind0: Kinds, mem1: Mem, kind1: Kinds, mem: Mem, kind: Kinds, head: nat, free: seq<nat>, t: nat, i: nat, c: nat)
    requires PartPruned(mem0, kind0, mem1, kind1, t, i) && TreeOk(mem1, kind1) && i < ENTRIES && kind0[t].level > 0
    requires Bare(mem1, kind1, kind0[t].r) && FreeOk(mem, head, free, kind)
    requires c in kind1 && kind1[c] == Node(kind0[t].r, kind0[t].level - 1, kind0[t].pre * ENTRIES + i, t)
    requires Next(mem1, Some(t), i) == Some(c)
    requires Pruned(mem1, kind1, mem, kind, kind0[t].r, kind0[t].level - 1, kind0[t].pre * ENTRIES + i) && TreeBut(mem, kind, Some(c))
    ensures IsTable(mem, t)
    ensures var mem2 := WithPte(mem, t, i, NOPTE);
            && TreeOk(mem2, kind) && FreeOk(mem2, head, free, kind) && Bare(mem2, kind, kind0[t].r)
            && PartPruned(mem0, kind0, mem2, kind, t, i + 1)
  {
    hide TreeBut, FreeOk, WithPte, Before, Up, PartPruned, Entry, Bare, IsTable;
    PruneKept(mem0, kind0, mem1, kind1, mem, kind, t, i);
    PruneTable(mem0, kind0, mem1, kind1, t, i);
    var mem2 := WithPte(mem, t, i, NOPTE);
    SubSelf(kind1[c]);
    PruneTree(mem1, kind1, mem, kind, kind0[t], t, i, c);
    ListFrame(mem, mem2, head, free, kind, kind);
    PruneBare(mem1, kind1, mem, kind, mem2, t, i);
    PruneMore(mem0, kind0, mem1, kind1, mem, kind, t, i);
  }

  lemma SubSelf(k: Kind)
    requires k.Node?
    ensures InSub(k, k.r, k.level, k.pre)
  {
  }

  lemma PruneBare(mem1: Mem, kind1: Kinds, mem: Mem, kind: Kinds, mem2: Mem, t: nat, i: nat)
    requires t in kind && kind[t].Node? && kind[t].level > 0 && IsTable(mem, t) && i < ENTRIES && mem2 == WithPte(mem, t, i, NOPTE)
    requires TreeOk(mem1, kind1) && Bare(mem1, kind1, kind[t].r)
    requires kind.Keys == kind1.Keys
    requires forall v :: v in kind && kind[v].Node? ==> kind1[v] == kind[v]
    requires forall v :: v in kind && kind[v].Node? && v in mem1 ==> v in mem && mem[v] == mem1[v]
    ensures Bare(mem2, kind, kind[t].r)
  {
    hide WithPte, TreeBut;
    forall l | l in kind && kind[l].Node? && kind[l].r == kind[t].r && kind[l].level == 0 ensures Empty(mem2, l) {
      HungAt(mem1, kind1, l, None);
      assert Empty(mem1, l);
      forall j | 0 <= j < ENTRIES ensures Entry(mem2, l, j).None? {
        assert Entry(mem2, l, j) == Entry(mem, l, j) == Entry(mem1, l, j);
      }
    }
  }

  lemma PruneMore(mem0: Mem, kind0: Kinds, mem1: Mem, kind1: Kinds, mem: Mem, kind: Kinds, t: nat, i: nat)
    requires PartPruned(mem0, kind0, mem1, kind1, t, i) && i < ENTRIES && kind0[t].level > 0
    requires Pruned(mem1, kind1, mem, kind, kind0[t].r, kind0[t].level - 1, kind0[t].pre * ENTRIES + i)
    requires IsTable(mem, t) && t in mem1 && mem[t] == mem1[t]
    ensures PartPruned(mem0, kind0, WithPte(mem, t, i, NOPTE), kind, t, i + 1)
  {
    hide WithPte, Before, InSub, Up;
    var mem2 := WithPte(mem, t, i, NOPTE);
    forall x | x in kind0
      ensures Before(kind0[x], kind0[t], i + 1) <==> Before(kind0[x], kind0[t], i) || InSub(kind0[x], kind0[t].r, kind0[t].level - 1, kind0[t].pre * ENTRIES + i)
    {
      BeforeNext(kind0[x], kind0[t], i);
    }
    FreeNotSub(kind0[t].r, kind0[t].level - 1, kind0[t].pre * ENTRIES + i);
    assert forall j :: 0 <= j < ENTRIES ==> Entry(mem, t, j) == Entry(mem1, t, j);
  }

  lemma FreeNotSub(r: nat, level: nat, pre: nat)
    ensures !InSub(Free, r, level, pre)
  {
  }

  lemma PruneEnd(mem0: Mem, kind0: Kinds, mem: Mem, kind: Kinds, t: nat, head: nat)
    requires PartPruned(mem0, kind0, mem, kind, t, ENTRIES) && TreeOk(mem, kind) && TreeOk(mem0, kind0)
    ensures t in kind && kind[t] != Free
    ensures var mem2, kind2 := mem[t := Run(head)], kind[t := Free];
            && TreeBut(mem2, kind2, Some(t)) && (kind0[t].level == 2 ==> TreeOk(mem2, kind2))
            && Pruned(mem0, kind0, mem2, kind2, kind0[t].r, kind0[t].level, kind0[t].pre)
  {
    hide TreeBut, Before, Up, Entry;
    PruneTable(mem0, kind0, mem, kind, t, ENTRIES);
    DropKeeps(mem, kind, t);
    var held := kind[t := Held];
    assert held[t := Free] == kind[t := Free];
    PlainPageBut(mem, held, t, Run(head), Free, Some(t));
    if kind0[t].level == 2 { PlainPageBut(mem, held, t, Run(head), Free, None); }
    forall x | x in kind0
      ensures InSub(kind0[x], kind0[t].r, kind0[t].level, kind0[t].pre) <==> Before(kind0[x], kind0[t], ENTRIES) || x == t
    {
      BeforeAll(kind0[x], kind0[t]);
      if kind0[x].Node? && kind0[x].r == kind0[t].r && kind0[x].level == kind0[t].level && kind0[x].pre == kind0[t].pre {
        OneNode(mem0, kind0, x, t);
      }
    }
  }

  /** Exactly the pages that served r became free. */
  ghost predicate Released(mem: Mem, kind: Kinds, mem2: Mem, kind2: Kinds, r: nat) {
    && kind2.Keys == kind.Keys
    && (forall x :: x in kind ==> kind2[x] == if (kind[x].Node? || kind[x].Leaf?) && kind[x].r == r then Free else kind[x])
    && (forall r2, v :: IsRoot(kind, r2) && r2 != r && 0 <= v < MAXPAGE ==> View(mem2, r2, v) == View(mem, r2, v))
    && BytesKept(mem, mem2, kind2)
  }

  /** A level-0 entry is a mapped page. */
  lemma EntryMapped(mem: Mem, kind: Kinds, t: nat, i: nat)
    requires TreeOk(mem, kind) && t in kind && kind[t].Node? && kind[t].level == 0 && i < ENTRIES
    ensures kind[t].pre * ENTRIES + i < MAXPAGE && IsRoot(kind, kind[t].r)
    ensures View(mem, kind[t].r, kind[t].pre * ENTRIES + i) == Entry(mem, t, i)
  {
    hide TreeBut;
    HungAt(mem, kind, t, None);
    BottomOf(mem, kind, t);
    Digits(kind[t].pre * ENTRIES + i, kind[t].pre, i);
  }

  lemma NowBare(mem0: Mem, kind0: Kinds, mem: Mem, kind: Kinds, r: nat, n: nat)
    requires Unmapped(mem0, kind0, mem, kind, r, 0, n, true) && IsRoot(kind0, r) && TreeOk(mem, kind)
    requires forall v :: n <= v < MAXPAGE ==> View(mem0, r, v).None?
    ensures IsRoot(kind, r) && Bare(mem, kind, r)
  {
    hide TreeBut, View, Entry;
    forall t | t in kind && kind[t].Node? && kind[t].r == r && kind[t].level == 0 ensures Empty(mem, t) {
      forall i | 0 <= i < ENTRIES ensures Entry(mem, t, i).None? {
        EntryMapped(mem, kind, t, i);
      }
    }
  }

  /** Every table page of r is in the subtree at its root. */
  lemma WholeTree(mem: Mem, kind: Kinds, r: nat, x: nat)
    requires TreeOk(mem, kind) && x in kind && kind[x].Node?
    ensures InSub(kind[x], r, 2, 0) <==> kind[x].r == r
  {
    hide TreeBut;
    HungAt(mem, kind, x, None);
    var k := kind[x];
    if k.level < 2 { UpOnce(k.pre, 0); }
    if k.level == 0 { UpOnce(k.pre, 1); }
  }

  lemma LeafBelow(mem: Mem, kind: Kinds, x: nat)
    requires TreeOk(mem, kind) && x in kind && kind[x].Leaf?
    ensures kind[x].vpn < MAXPAGE && View(mem, kind[x].r, kind[x].vpn).Some?
  {
    var k := kind[x];
    assert LeafOk(mem, kind, x, k);
    EntryMapped(mem, kind, k.up, k.vpn % ENTRIES);
    Digits(k.vpn, kind[k.up].pre, k.vpn % ENTRIES);
  }

  lemma AllGone(mem0: Mem, kind0: Kinds, mem1: Mem, kind1: Kinds, mem: Mem, kind: Kinds, r: nat, n: nat)
    requires Unmapped(mem0, kind0, mem1, kind1, r, 0, n, true) && Pruned(mem1, kind1, mem, kind, r, 2, 0)
    requires TreeOk(mem0, kind0) && TreeOk(mem1, kind1)
    requires forall v :: n <= v < MAXPAGE ==> View(mem0, r, v).None?
    ensures Released(mem0, kind0, mem, kind, r)
  {
    hide TreeBut, View, InSub, Entry;
    NeverSub(r);
    forall x | x in kind0 ensures kind[x] == if (kind0[x].Node? || kind0[x].Leaf?) && kind0[x].r == r then Free else kind0[x] {
      if kind0[x].Node? { WholeTree(mem1, kind1, r, x); }
      if kind0[x].Leaf? { LeafBelow(mem0, kind0, x); }
    }
    forall x | x in kind1 && kind1[x].Node? ensures InSub(kind1[x], r, 2, 0) <==> kind1[x].r == r {
      WholeTree(mem1, kind1, r, x);
    }
    forall r2, v | IsRoot(kind0, r2) && r2 != r && 0 <= v < MAXPAGE ensures View(mem, r2, v) == View(mem0, r2, v) {
      OtherSpace(mem1, kind1, mem, kind, r, r2, v);
      assert View(mem1, r2, v) == View(mem0, r2, v);
    }
  }

  lemma NeverSub(r: nat)
    ensures forall k: Kind :: InSub(k, r, 2, 0) ==> k.Node?
  {
  }

  /** Taking r's tree apart leaves other address spaces mapped as before. */
  lemma OtherSpace(mem1: Mem, kind1: Kinds, mem: Mem, kind: Kinds, r: nat, r2: nat, v: nat)
    requires TreeOk(mem1, kind1) && Pruned(mem1, kind1, mem, kind, r, 2, 0) && IsRoot(kind1, r2) && r2 != r && v < MAXPAGE
    ensures View(mem, r2, v) == View(mem1, r2, v)
  {
    hide TreeBut, View, InSub;
    forall t, j | t in kind1 && kind1[t].Node? && kind1[t].r == r2 ensures Entry(mem, t, j) == Entry(mem1, t, j) {
      WholeTree(mem1, kind1, r, t);
      HungAt(mem1, kind1, t, None);
    }
    FrameView(mem1, mem, kind1, r2, v);
  }
}
