// Copying between the kernel and user address spaces, page by page through the page table.
module UserCopy {
  import opened Options
  import opened Blocks
  import opened PageTable
  import opened Vm

  /** The byte at address va of r's address space, if user code may reach it. */
  function UserByte(mem: Mem, r: nat, va: nat): (b: Option<byte>) {
    var p := View(mem, r, va / PGSIZE);
    if va / PGSIZE < MAXPAGE && p.Some? && p.value.flags.u && p.value.frame in mem
       && mem[p.value.frame].Data? && |mem[p.value.frame].bytes| == PGSIZE
    then Some(mem[p.value.frame].bytes[va % PGSIZE])
    else None
  }

  /** The n bytes from va on can all be reached. */
  ghost predicate Reach(mem: Mem, r: nat, va: nat, n: nat) {
    forall a :: va <= a < va + n ==> UserByte(mem, r, a).Some?
  }

  /** data is at va in r's address space. */
  ghost predicate Holds(mem: Mem, r: nat, va: nat, data: seq<byte>) {
    forall a :: va <= a < va + |data| ==> UserByte(mem, r, a) == Some(data[a - va])
  }

  /** Exactly the bytes of data were written at va of r's address space; no other byte of any address
      space changed. */
  ghost predicate Wrote(mem: Mem, mem2: Mem, kind: Kinds, r: nat, va: nat, data: seq<byte>) {
    && Holds(mem2, r, va, data)
    && (forall q, a :: IsRoot(kind, q) && 0 <= a && !(q == r && va <= a < va + |data|) ==> UserByte(mem2, q, a) == UserByte(mem, q, a))
  }

  /** What was written is what a read of the same range gives back. */
  lemma {:induction false} WrittenIsRead(mem: Mem, mem2: Mem, kind: Kinds, r: nat, va: nat, data: seq<byte>, read: seq<byte>)
    requires Wrote(mem, mem2, kind, r, va, data) && Holds(mem2, r, va, read) && |read| == |data|
    ensures read == data
  {
    forall k | 0 <= k < |data| ensures read[k] == data[k] {
      assert UserByte(mem2, r, va + k) == Some(data[(va + k) - va]);
      assert UserByte(mem2, r, va + k) == Some(read[(va + k) - va]);
    }
  }

  /** The frame of page vpn, if user code may reach it. */
  method Walkaddr(m: Memory, r: nat, vpn: nat) returns (f: Option<nat>)
    requires m.Valid() && IsRoot(m.kind, r)
    ensures f.Some? <==> vpn < MAXPAGE && View(m.mem, r, vpn).Some? && View(m.mem, r, vpn).value.flags.u
    ensures f.Some? ==> f.value == View(m.mem, r, vpn).value.frame && PageAt(m.mem, m.kind, r, vpn, f.value)
    modifies m
    ensures unchanged(m)
  {
    hide TreeBut, FreeOk, View, IsTable, Entry;
    if vpn >= MAXPAGE { return None; }
    var slot := m.Walk(r, vpn, false);
    if slot.None? { NoSlot(m.mem, r, vpn); return None; }
    SlotFacts(m.mem, m.kind, r, vpn, slot.value.0);
    SlotThere(m.mem, slot.value.0);
    var pte := m.mem[slot.value.0].ptes[slot.value.1];
    EntryOf(m.mem, slot.value.0, slot.value.1);
    if !pte.flags.v { return None; }
    if !pte.flags.u { return None; }
    UserPage(m.mem, m.kind, r, vpn);
    f := Some(pte.frame);
  }

  /** f is page vpn of r, a page of bytes that r owns. */
  ghost predicate PageAt(mem: Mem, kind: Kinds, r: nat, vpn: nat, f: nat) {
    Owns(kind, r, vpn, f) && f in mem && mem[f].Data? && |mem[f].bytes| == PGSIZE
  }

  lemma NoSlot(mem: Mem, r: nat, vpn: nat)
    requires Bottom(mem, r, vpn / ENTRIES).None?
    ensures View(mem, r, vpn).None?
  {
  }

  lemma EntryOf(mem: Mem, t: nat, i: nat)
    requires IsTable(mem, t) && i < ENTRIES
    ensures Entry(mem, t, i) == if mem[t].ptes[i].flags.v then Some(mem[t].ptes[i]) else None
  {
  }

  lemma UserPage(mem: Mem, kind: Kinds, r: nat, vpn: nat)
    requires TreeOk(mem, kind) && IsRoot(kind, r) && vpn < MAXPAGE && View(mem, r, vpn).Some? && View(mem, r, vpn).value.flags.u
    ensures PageAt(mem, kind, r, vpn, View(mem, r, vpn).value.frame)
  {
    hide TreeBut, View;
    LeafFacts(mem, kind, r, vpn);
    LeavesThere(mem, kind, None);
  }

  // ---- copyout ----------------------------------------------------------------------------------

  /** bytes with data over it from off on. */
  function Spliced(bytes: seq<byte>, off: nat, data: seq<byte>): (r: seq<byte>)
    requires off + |data| <= |bytes|
    ensures |r| == |bytes|
    ensures forall i :: 0 <= i < |r| ==> r[i] == if off <= i < off + |data| then data[i - off] else bytes[i]
  {
    bytes[..off] + data + bytes[off + |data|..]
  }

  /** Writing bytes of a user page changes those bytes of that address space and nothing else. */
  lemma PageWrite(mem: Mem, kind: Kinds, head: nat, free: seq<nat>, r: nat, vpn: nat, f: nat, off: nat, data: seq<byte>, mem2: Mem)
    requires TreeOk(mem, kind) && FreeOk(mem, head, free, kind) && IsRoot(kind, r) && PageAt(mem, kind, r, vpn, f)
    requires vpn < MAXPAGE && View(mem, r, vpn).Some? && View(mem, r, vpn).value.flags.u && View(mem, r, vpn).value.frame == f
    requires off + |data| <= PGSIZE && mem2 == mem[f := Data(Spliced(mem[f].bytes, off, data))]
    ensures TreeOk(mem2, kind) && FreeOk(mem2, head, free, kind) && ViewsKept(mem, mem2, kind)
    ensures Wrote(mem, mem2, kind, r, vpn * PGSIZE + off, data)
  {
    hide TreeBut, FreeOk, View, Spliced;
    PageWriteTree(mem, kind, head, free, f, mem2);
    forall q, a | IsRoot(kind, q) && 0 <= a && !(q == r && a / PGSIZE == vpn) ensures UserByte(mem2, q, a) == UserByte(mem, q, a) {
      OtherPage(mem, kind, q, a / PGSIZE, r, vpn, f);
    }
    forall a | vpn * PGSIZE <= a < vpn * PGSIZE + PGSIZE
      ensures a / PGSIZE == vpn && UserByte(mem2, r, a) == Some(mem2[f].bytes[a - vpn * PGSIZE]) && UserByte(mem, r, a) == Some(mem[f].bytes[a - vpn * PGSIZE])
    {
      assert a / PGSIZE == vpn && a % PGSIZE == a - vpn * PGSIZE;
      assert View(mem2, r, vpn) == View(mem, r, vpn);
    }
  }

  lemma PageWriteTree(mem: Mem, kind: Kinds, head: nat, free: seq<nat>, f: nat, mem2: Mem)
    requires TreeOk(mem, kind) && FreeOk(mem, head, free, kind) && f in kind && kind[f].Leaf? && f in mem2
    requires mem2 == mem[f := mem2[f]] && mem2[f].Data? && |mem2[f].bytes| == PGSIZE
    ensures TreeOk(mem2, kind) && FreeOk(mem2, head, free, kind) && ViewsKept(mem, mem2, kind)
  {
    hide View, FreeOk, TreeBut;
    LeavesThere(mem, kind, None);
    FrameKeeps(mem, mem2, kind, kind, None);
    ListFrame(mem, mem2, head, free, kind, kind);
    forall q, v | IsRoot(kind, q) && 0 <= v < MAXPAGE ensures View(mem2, q, v) == View(mem, q, v) {
      FrameView(mem, mem2, kind, q, v);
    }
  }

  /** No other page is in the same frame. */
  lemma OtherPage(mem: Mem, kind: Kinds, q: nat, v: nat, r: nat, vpn: nat, f: nat)
    requires TreeOk(mem, kind) && IsRoot(kind, q) && Owns(kind, r, vpn, f) && !(q == r && v == vpn)
    ensures v < MAXPAGE && View(mem, q, v).Some? && View(mem, q, v).value.flags.u ==> View(mem, q, v).value.frame != f
  {
    hide TreeBut, View;
    if v < MAXPAGE && View(mem, q, v).Some? { LeafFacts(mem, kind, q, v); }
  }

  lemma WroteNone(mem: Mem, kind: Kinds, r: nat, va: nat)
    ensures Wrote(mem, mem, kind, r, va, [])
  {
    hide UserByte;
  }

  lemma WroteMore(mem0: Mem, mem1: Mem, mem2: Mem, kind: Kinds, r: nat, va: nat, d1: seq<byte>, d2: seq<byte>)
    requires IsRoot(kind, r) && Wrote(mem0, mem1, kind, r, va, d1) && Wrote(mem1, mem2, kind, r, va + |d1|, d2)
    ensures Wrote(mem0, mem2, kind, r, va, d1 + d2)
  {
    hide UserByte;
    forall a | va <= a < va + |d1 + d2| ensures UserByte(mem2, r, a) == Some((d1 + d2)[a - va]) {
      if a < va + |d1| { assert UserByte(mem1, r, a) == Some(d1[a - va]); }
      else { assert UserByte(mem2, r, a) == Some(d2[a - (va + |d1|)]); }
    }
  }

  /** Whether an address can be reached does not depend on what the pages hold. */
  lemma ReachKept(mem: Mem, mem2: Mem, kind: Kinds, r: nat, va: nat)
    requires TreeOk(mem, kind) && TreeOk(mem2, kind) && IsRoot(kind, r) && ViewsKept(mem, mem2, kind)
    ensures UserByte(mem2, r, va).Some? <==> UserByte(mem, r, va).Some?
    ensures UserByte(mem, r, va).Some? <==> va / PGSIZE < MAXPAGE && View(mem, r, va / PGSIZE).Some? && View(mem, r, va / PGSIZE).value.flags.u
  {
    hide TreeBut, View;
    var v := va / PGSIZE;
    if v < MAXPAGE && View(mem, r, v).Some? && View(mem, r, v).value.flags.u {
      UserPage(mem, kind, r, v);
      UserPage(mem2, kind, r, v);
    }
  }

  /** Copies src to address dstva of r, up to the first page that user code may not reach. */
  method Copyout(m: Memory, r: nat, dstva: nat, src: seq<byte>) returns (ok: bool, ghost done: nat)
    requires m.Valid() && IsRoot(m.kind, r)
    modifies m
    ensures m.Valid() && m.kind == old(m.kind) && ViewsKept(old(m.mem), m.mem, m.kind)
    ensures done <= |src| && (ok <==> done == |src|)
    ensures Wrote(old(m.mem), m.mem, m.kind, r, dstva, src[..done])
    ensures Reach(old(m.mem), r, dstva, done) && (!ok ==> UserByte(old(m.mem), r, dstva + done).None?)
  {
    hide TreeBut, FreeOk, View, Wrote, UserByte, ViewsKept, Reach, PageAt;
    ghost var mem0, kind0 := m.mem, m.kind;
    WroteNone(mem0, kind0, r, dstva);
    ViewsSame(mem0, kind0);
    ReachNone(mem0, r, dstva);
    var va := dstva;
    var k := 0;
    while k < |src|
      invariant 0 <= k <= |src| && (k < |src| ==> va == dstva + k)
      invariant m.Valid() && m.kind == kind0 && ViewsKept(mem0, m.mem, kind0)
      invariant Wrote(mem0, m.mem, kind0, r, dstva, src[..k]) && Reach(mem0, r, dstva, k)
    {
      var va0 := va / PGSIZE;
      ReachKept(mem0, m.mem, kind0, r, va);
      ReachNow(m.mem, kind0, r, va);
      var f := Walkaddr(m, r, va0);
      if f.None? { return false, k; }
      var off := va - va0 * PGSIZE;
      var n := PGSIZE - off;
      if n > |src| - k { n := |src| - k; }
      ReachPage(mem0, m.mem, kind0, r, dstva, k, va, n);
      PageBytes(m.mem, m.kind, r, va0, f.value);
      ghost var mem1 := m.mem;
      m.mem := m.mem[f.value := Data(Spliced(m.mem[f.value].bytes, off, src[k..k + n]))];
      PageWrite(mem1, kind0, m.head, m.free, r, va0, f.value, off, src[k..k + n], m.mem);
      WroteMore(mem0, mem1, m.mem, kind0, r, dstva, src[..k], src[k..k + n]);
      assert src[..k] + src[k..k + n] == src[..k + n];
      ViewsThrough(mem0, mem1, m.mem, kind0);
      k := k + n;
      va := (va0 + 1) * PGSIZE;
    }
    ok, done := true, k;
  }

  lemma ViewsSame(mem: Mem, kind: Kinds)
    ensures ViewsKept(mem, mem, kind)
  {
  }

  lemma ViewsThrough(mem0: Mem, mem1: Mem, mem2: Mem, kind: Kinds)
    requires ViewsKept(mem0, mem1, kind) && ViewsKept(mem1, mem2, kind)
    ensures ViewsKept(mem0, mem2, kind)
  {
    hide View;
  }

  lemma ReachNone(mem: Mem, r: nat, va: nat)
    ensures Reach(mem, r, va, 0)
  {
  }

  lemma ReachNow(mem: Mem, kind: Kinds, r: nat, va: nat)
    requires TreeOk(mem, kind) && IsRoot(kind, r)
    ensures UserByte(mem, r, va).Some? <==> va / PGSIZE < MAXPAGE && View(mem, r, va / PGSIZE).Some? && View(mem, r, va / PGSIZE).value.flags.u
  {
    hide TreeBut, View;
    ViewsSame(mem, kind);
    ReachKept(mem, mem, kind, r, va);
  }

  lemma PageBytes(mem: Mem, kind: Kinds, r: nat, vpn: nat, f: nat)
    requires PageAt(mem, kind, r, vpn, f)
    ensures f in mem && mem[f].Data? && |mem[f].bytes| == PGSIZE
  {
  }

  /** The rest of a reachable page can be reached too. */
  lemma ReachPage(mem0: Mem, mem: Mem, kind: Kinds, r: nat, va: nat, k: nat, at: nat, n: nat)
    requires TreeOk(mem0, kind) && TreeOk(mem, kind) && IsRoot(kind, r) && ViewsKept(mem0, mem, kind)
    requires Reach(mem0, r, va, k) && at == va + k && UserByte(mem, r, at).Some? && n <= PGSIZE - at % PGSIZE
    ensures Reach(mem0, r, va, k + n)
  {
    hide TreeBut, View, UserByte;
    forall a | va <= a < va + k + n ensures UserByte(mem0, r, a).Some? {
      if a >= at {
        assert a / PGSIZE == at / PGSIZE;
        ReachKept(mem0, mem, kind, r, at);
        ReachNow(mem0, kind, r, a);
      }
    }
  }

  // ---- copyin and copyinstr ---------------------------------------------------------------------

  lemma HoldsNone(mem: Mem, r: nat, va: nat)
    ensures Holds(mem, r, va, [])
  {
  }

  /** Bytes off .. off+n of a page are what its address space holds there. */
  lemma PageRead(mem: Mem, r: nat, va: nat, done: seq<byte>, vpn: nat, f: nat, off: nat, n: nat)
    requires Holds(mem, r, va, done) && va + |done| == vpn * PGSIZE + off && off + n <= PGSIZE && vpn < MAXPAGE
    requires View(mem, r, vpn).Some? && View(mem, r, vpn).value.flags.u && View(mem, r, vpn).value.frame == f
    requires f in mem && mem[f].Data? && |mem[f].bytes| == PGSIZE
    ensures Holds(mem, r, va, done + mem[f].bytes[off..off + n])
  {
    hide View;
    var more := done + mem[f].bytes[off..off + n];
    forall a | va <= a < va + |more| ensures UserByte(mem, r, a) == Some(more[a - va]) {
      if a < va + |done| {
        assert UserByte(mem, r, a) == Some(done[a - va]);
      } else {
        assert a / PGSIZE == vpn && a % PGSIZE == a - vpn * PGSIZE;
      }
    }
  }

  /** Copies len bytes from address srcva of r, up to the first page that user code may not reach. */
  method Copyin(m: Memory, r: nat, srcva: nat, len: nat) returns (ok: bool, dst: seq<byte>)
    requires m.Valid() && IsRoot(m.kind, r)
    modifies m
    ensures unchanged(m)
    ensures |dst| <= len && (ok <==> |dst| == len) && Holds(m.mem, r, srcva, dst)
    ensures !ok ==> UserByte(m.mem, r, srcva + |dst|).None?
  {
    hide TreeBut, FreeOk, View, UserByte, Holds, PageAt;
    HoldsNone(m.mem, r, srcva);
    var va := srcva;
    dst := [];
    while |dst| < len
      invariant |dst| <= len && (|dst| < len ==> va == srcva + |dst|)
      invariant unchanged(m) && Holds(m.mem, r, srcva, dst)
      decreases len - |dst|
    {
      var va0 := va / PGSIZE;
      ReachNow(m.mem, m.kind, r, va);
      var f := Walkaddr(m, r, va0);
      if f.None? { return false, dst; }
      var off := va - va0 * PGSIZE;
      var n := PGSIZE - off;
      if n > len - |dst| { n := len - |dst|; }
      PageBytes(m.mem, m.kind, r, va0, f.value);
      PageRead(m.mem, r, srcva, dst, va0, f.value, off, n);
      dst := dst + m.mem[f.value].bytes[off..off + n];
      va := (va0 + 1) * PGSIZE;
    }
    ok := true;
  }

  predicate NoNul(data: seq<byte>) {
    forall i :: 0 <= i < |data| ==> data[i] != 0
  }

  /** Copies the bytes of a page from off on, n of them or up to a NUL. */
  method CopyChars(page: seq<byte>, off: nat, n: nat) returns (chars: seq<byte>, nul: bool)
    requires off + n <= |page|
    ensures |chars| <= n && chars == page[off..off + |chars|] && NoNul(chars)
    ensures nul <==> |chars| < n
    ensures nul ==> page[off + |chars|] == 0
  {
    chars := [];
    var left := n;
    while left > 0
      invariant |chars| + left == n && chars == page[off..off + |chars|] && NoNul(chars)
    {
      if page[off + |chars|] == 0 { return chars, true; }
      chars := chars + [page[off + |chars|]];
      left := left - 1;
    }
    nul := false;
  }

  /** Copies a string from address srcva of r: the bytes up to a NUL, if there is one within max bytes
      and before any page that user code may not reach. */
  method Copyinstr(m: Memory, r: nat, srcva: nat, max: nat) returns (ok: bool, dst: seq<byte>)
    requires m.Valid() && IsRoot(m.kind, r)
    modifies m
    ensures unchanged(m) && |dst| <= max && Holds(m.mem, r, srcva, dst) && NoNul(dst)
    ensures ok ==> |dst| < max && UserByte(m.mem, r, srcva + |dst|) == Some(0)
    ensures !ok ==> |dst| == max || UserByte(m.mem, r, srcva + |dst|).None?
  {
    hide TreeBut, FreeOk, View, UserByte, Holds, PageAt;
    HoldsNone(m.mem, r, srcva);
    var va := srcva;
    dst := [];
    while |dst| < max
      invariant |dst| <= max && (|dst| < max ==> va == srcva + |dst|)
      invariant unchanged(m) && Holds(m.mem, r, srcva, dst) && NoNul(dst)
      decreases max - |dst|
    {
      var va0 := va / PGSIZE;
      ReachNow(m.mem, m.kind, r, va);
      var f := Walkaddr(m, r, va0);
      if f.None? { return false, dst; }
      var off := va - va0 * PGSIZE;
      var n := PGSIZE - off;
      if n > max - |dst| { n := max - |dst|; }
      PageBytes(m.mem, m.kind, r, va0, f.value);
      var chars, nul := CopyChars(m.mem[f.value].bytes, off, n);
      PageRead(m.mem, r, srcva, dst, va0, f.value, off, |chars|);
      if nul {
        PageRead(m.mem, r, srcva, dst, va0, f.value, off, |chars| + 1);
        AtNul(m.mem, r, srcva, dst + chars, dst + m.mem[f.value].bytes[off..off + |chars| + 1]);
        return true, dst + chars;
      }
      dst := dst + chars;
      va := (va0 + 1) * PGSIZE;
    }
    ok := false;
  }

  lemma AtNul(mem: Mem, r: nat, va: nat, data: seq<byte>, more: seq<byte>)
    requires Holds(mem, r, va, more) && |more| == |data| + 1 && more[|data|] == 0
    ensures UserByte(mem, r, va + |data|) == Some(0)
  {
    hide UserByte;
    assert UserByte(mem, r, va + |data|) == Some(more[(va + |data|) - va]);
  }
}
