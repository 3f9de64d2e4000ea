// Sv39 page tables as trees of table pages, and the flat map from pages to entries that they stand for.
module PageTable {
  import opened Options
  import opened Bits
  import opened Blocks

  const PGSIZE: nat := 4096
  const ENTRIES: nat := 512
  const MAXPAGE: nat := 0x400_0000      // MAXVA / PGSIZE

  // ---- Entries ----------------------------------------------------------------------------------

  datatype Flags = Flags(v: bool, r: bool, w: bool, x: bool, u: bool)

  /** A page-table entry: the frame it names and its flag bits. */
  datatype Pte = Pte(frame: nat, flags: Flags)

  const NOPTE: Pte := Pte(0, Flags(false, false, false, false, false))
  const INNER: Flags := Flags(true, false, false, false, false)

  /** The entry that points to table page t. */
  function Inner(t: nat): (p: Pte) {
    Pte(t, INNER)
  }

  predicate IsLeaf(p: Pte) {
    p.flags.r || p.flags.w || p.flags.x
  }

  // The 64-bit words: a frame's address above ten flag bits.

  function PaToPte(pa: nat): nat {
    Shl(Shr(pa, 12), 10)
  }

  function PteToPa(pte: nat): nat {
    Shl(Shr(pte, 10), 12)
  }

  function PteFlags(pte: nat): nat {
    And(pte, 0x3FF)
  }

  function PxOf(level: nat, va: nat): nat {
    And(Shr(va, 12 + 9 * level), 0x1FF)
  }

  function FlagBits(f: Flags): (n: nat)
    ensures n < 32
  {
    One(f.v) + 2 * (One(f.r) + 2 * (One(f.w) + 2 * (One(f.x) + 2 * One(f.u))))
  }

  function One(b: bool): nat {
    if b then 1 else 0
  }

  function Encode(p: Pte): nat {
    Or(PaToPte(p.frame * PGSIZE), FlagBits(p.flags))
  }

  function Decode(w: nat): Pte {
    var f := PteFlags(w);
    Pte(PteToPa(w) / PGSIZE, Flags(Bit(f, 0), Bit(f, 1), Bit(f, 2), Bit(f, 3), Bit(f, 4)))
  }

  lemma Masks()
    ensures Mask(9) == 512 && Mask(10) == 1024 && Mask(12) == 4096 && Mask(21) == 0x20_0000 && Mask(30) == 0x4000_0000
  {
    assert Mask(4) == 16;
    assert Mask(8) == 256;
    assert Mask(12) == 4096;
    assert Mask(16) == 0x1_0000;
    assert Mask(20) == 0x10_0000;
    assert Mask(24) == 0x100_0000;
    assert Mask(28) == 0x1000_0000;
  }

  /** Physical addresses have 56 bits. */
  const MAXFRAME: nat := 0x1000_0000_0000

  lemma EncodeIs(p: Pte)
    requires p.frame < MAXFRAME
    ensures Encode(p) == p.frame * 1024 + FlagBits(p.flags)
  {
    hide Mask, Or, FlagBits;
    Masks();
    OrLow(p.frame, FlagBits(p.flags), 10);
    assert PaToPte(p.frame * PGSIZE) == p.frame * 1024;
  }

  lemma FlagsBack(f: Flags)
    ensures var n := FlagBits(f); Flags(Bit(n, 0), Bit(n, 1), Bit(n, 2), Bit(n, 3), Bit(n, 4)) == f
  {
    var n4 := One(f.u);
    var n3 := One(f.x) + 2 * n4;
    var n2 := One(f.w) + 2 * n3;
    var n1 := One(f.r) + 2 * n2;
    var n0 := One(f.v) + 2 * n1;
    assert n0 / 2 == n1 && n1 / 2 == n2 && n2 / 2 == n3 && n3 / 2 == n4;
    assert Bit(n4, 0) == f.u;
    assert Bit(n3, 1) == Bit(n4, 0) && Bit(n3, 0) == f.x;
    assert Bit(n2, 2) == Bit(n3, 1) && Bit(n2, 1) == Bit(n3, 0) && Bit(n2, 0) == f.w;
    assert Bit(n1, 3) == Bit(n2, 2) && Bit(n1, 2) == Bit(n2, 1) && Bit(n1, 1) == Bit(n2, 0) && Bit(n1, 0) == f.r;
    assert Bit(n0, 4) == Bit(n1, 3) && Bit(n0, 3) == Bit(n1, 2) && Bit(n0, 2) == Bit(n1, 1) && Bit(n0, 1) == Bit(n1, 0) && Bit(n0, 0) == f.v;
  }

  /** An entry survives in its word, whatever frame and flags it has. */
  lemma PteRoundTrip(p: Pte)
    requires p.frame < MAXFRAME
    ensures Encode(p) < WORD64 && Decode(Encode(p)) == p
  {
    hide Mask, Or, FlagBits, And, Bit;
    var w := Encode(p);
    EncodeIs(p);
    Masks();
    AndMask(w, 10);
    assert w / 1024 == p.frame && w % 1024 == FlagBits(p.flags);
    assert PteToPa(w) == p.frame * PGSIZE;
    FlagsBack(p.flags);
  }

  /** The index of an address at a level is that of its page. */
  lemma PxIs(level: nat, va: nat)
    requires level <= 2
    ensures PxOf(level, va) == Px(level, va / PGSIZE)
  {
    hide Mask, And;
    Masks();
    AndMask(Shr(va, 12 + 9 * level), 9);
    assert 12 + 9 * level == if level == 0 then 12 else if level == 1 then 21 else 30;
    assert va / 0x20_0000 == va / PGSIZE / 512;
    assert va / 0x4000_0000 == va / PGSIZE / (512 * 512);
  }

  /** An address below MAXVA is its three table indices and its offset; the top index is below 256. */
  lemma PxRoundTrip(va: nat)
    requires va < MAXPAGE * PGSIZE
    ensures va == PxOf(2, va) * 0x4000_0000 + PxOf(1, va) * 0x20_0000 + PxOf(0, va) * 0x1000 + va % PGSIZE
    ensures PxOf(2, va) < 256
  {
    hide PxOf;
    PxIs(0, va);
    PxIs(1, va);
    PxIs(2, va);
  }

  // ---- Memory -----------------------------------------------------------------------------------

  /** What a physical page holds. */
  datatype Page = Junk | Run(next: nat) | Table(ptes: seq<Pte>) | Data(bytes: seq<byte>)

  type Mem = map<nat, Page>

  /** What each physical page is for. A table page at some level of r's tree covers the pages whose number
      starts with pre; a leaf is page vpn of r's address space; up is the table page that points to it. */
  datatype Kind = Free | Held | Node(r: nat, level: nat, pre: nat, up: nat) | Leaf(r: nat, vpn: nat, up: nat)

  type Kinds = map<nat, Kind>

  predicate IsTable(mem: Mem, t: nat) {
    t in mem && mem[t].Table? && |mem[t].ptes| == ENTRIES
  }

  /** The valid entry in slot i of table page t. */
  function Entry(mem: Mem, t: nat, i: nat): (p: Option<Pte>) {
    if IsTable(mem, t) && i < ENTRIES && mem[t].ptes[i].flags.v then Some(mem[t].ptes[i]) else None
  }

  function Next(mem: Mem, t: Option<nat>, i: nat): (c: Option<nat>) {
    if t.None? then None else
    var p := Entry(mem, t.value, i);
    if p.None? then None else Some(p.value.frame)
  }

  /** The level-1 and level-0 table pages on the way to a page. */
  function Middle(mem: Mem, r: nat, a: nat): (t: Option<nat>) {
    Next(mem, Some(r), a)
  }

  function Bottom(mem: Mem, r: nat, m: nat): (t: Option<nat>) {
    Next(mem, Middle(mem, r, m / ENTRIES), m % ENTRIES)
  }

  /** The flat map: the valid entry for page vpn of the address space rooted at r. */
  function View(mem: Mem, r: nat, vpn: nat): (p: Option<Pte>) {
    var t := Bottom(mem, r, vpn / ENTRIES);
    if t.None? then None else Entry(mem, t.value, vpn % ENTRIES)
  }

  // ---- The tree ---------------------------------------------------------------------------------

  predicate IsRoot(kind: Kinds, r: nat) {
    r in kind && kind[r].Node? && kind[r].r == r && kind[r].level == 2
  }

  /** How many table pages a full tree has at a level: virtual addresses stop at MAXVA. */
  function Width(level: nat): (n: nat) {
    if level == 0 then MAXPAGE / ENTRIES else if level == 1 then MAXPAGE / ENTRIES / ENTRIES else 1
  }

  /** Table page t is linked from the page above it. */
  predicate Hung(mem: Mem, kind: Kinds, t: nat, k: Kind) {
    && k.Node? && k.level <= 2 && k.pre < Width(k.level) && IsTable(mem, t)
    && (if k.level == 2 then k.r == t && k.pre == 0
        else && k.up in kind && kind[k.up].Node? && kind[k.up].r == k.r && kind[k.up].level == k.level + 1
             && kind[k.up].pre == k.pre / ENTRIES
             && Entry(mem, k.up, k.pre % ENTRIES) == Some(Inner(t)))
  }

  /** The index of page vpn at a level. */
  function Px(level: nat, vpn: nat): (i: nat)
    requires level <= 2
    ensures i < ENTRIES
  {
    if level == 0 then vpn % ENTRIES
    else if level == 1 then vpn / ENTRIES % ENTRIES
    else vpn / (ENTRIES * ENTRIES) % ENTRIES
  }

  /** The part of a page number that selects its table page at a level. */
  function Pre(level: nat, vpn: nat): (p: nat)
    requires level <= 2
  {
    if level == 0 then vpn / ENTRIES else if level == 1 then vpn / ENTRIES / ENTRIES else 0
  }

  lemma PreNext(level: nat, vpn: nat)
    requires 1 <= level <= 2 && vpn < MAXPAGE
    ensures Pre(level - 1, vpn) == Pre(level, vpn) * ENTRIES + Px(level, vpn) && Pre(level - 1, vpn) < Width(level - 1)
  {
  }

  /** t is the table page on the way to vpn at this level. */
  predicate At(kind: Kinds, r: nat, vpn: nat, t: nat, level: nat)
    requires level <= 2
  {
    t in kind && kind[t].Node? && kind[t].r == r && kind[t].level == level && kind[t].pre == Pre(level, vpn)
  }

  /** Slot i of table page t, if valid, points to the table page below, or is a leaf. */
  predicate SlotOk(mem: Mem, kind: Kinds, t: nat, k: Kind, i: nat, except: Option<nat>) {
    k.Node? && Entry(mem, t, i).Some? ==>
      var p := Entry(mem, t, i).value;
      if k.level > 0 then p.flags == INNER && (except == Some(p.frame) || (p.frame in kind && kind[p.frame] == Node(k.r, k.level - 1, k.pre * ENTRIES + i, t)))
      else IsLeaf(p) && (p.flags.u ==> p.frame in kind && kind[p.frame] == Leaf(k.r, k.pre * ENTRIES + i, t))
  }

  /** A user page is named by the entry for its page number. */
  predicate LeafOk(mem: Mem, kind: Kinds, f: nat, k: Kind) {
    k.Leaf? ==>
      && f in mem && mem[f].Data? && |mem[f].bytes| == PGSIZE
      && k.up in kind && kind[k.up].Node? && kind[k.up].r == k.r && kind[k.up].level == 0
      && kind[k.up].pre == k.vpn / ENTRIES
      && Entry(mem, k.up, k.vpn % ENTRIES).Some? && Entry(mem, k.up, k.vpn % ENTRIES).value.frame == f
  }

  /** The trees are well formed, but for pointers to page `except`. */
  predicate TreeBut(mem: Mem, kind: Kinds, except: Option<nat>) {
    && (forall t :: t in kind && kind[t].Node? ==> Hung(mem, kind, t, kind[t]))
    && (forall t, i :: t in kind && 0 <= i < ENTRIES ==> SlotOk(mem, kind, t, kind[t], i, except))
    && (forall f :: f in kind ==> LeafOk(mem, kind, f, kind[f]))
  }

  predicate TreeOk(mem: Mem, kind: Kinds) {
    TreeBut(mem, kind, None)
  }

  // ---- Walking agrees with the tree -------------------------------------------------------------

  lemma HungAt(mem: Mem, kind: Kinds, t: nat, except: Option<nat>)
    requires TreeBut(mem, kind, except) && t in kind && kind[t].Node?
    ensures Hung(mem, kind, t, kind[t])
  {
  }

  lemma SlotAt(mem: Mem, kind: Kinds, t: nat, i: nat, except: Option<nat>)
    requires TreeBut(mem, kind, except) && t in kind && i < ENTRIES
    ensures SlotOk(mem, kind, t, kind[t], i, except)
  {
  }

  /** The walk from a root reaches exactly the table pages of its tree. */
  lemma MiddleIs(mem: Mem, kind: Kinds, r: nat, a: nat)
    requires TreeOk(mem, kind) && IsRoot(kind, r) && a < ENTRIES
    ensures Middle(mem, r, a).Some? ==> Middle(mem, r, a).value in kind && kind[Middle(mem, r, a).value] == Node(r, 1, a, r)
  {
    hide TreeBut;
    HungAt(mem, kind, r, None);
    SlotAt(mem, kind, r, a, None);
    assert kind[r].pre * ENTRIES + a == a;
  }

  lemma BottomIs(mem: Mem, kind: Kinds, r: nat, m: nat)
    requires TreeOk(mem, kind) && IsRoot(kind, r) && m < ENTRIES * ENTRIES
    ensures Bottom(mem, r, m).Some? ==>
              && Middle(mem, r, m / ENTRIES).Some? && Bottom(mem, r, m).value in kind
              && kind[Bottom(mem, r, m).value] == Node(r, 0, m, Middle(mem, r, m / ENTRIES).value)
  {
    hide TreeBut;
    MiddleIs(mem, kind, r, m / ENTRIES);
    var d := Middle(mem, r, m / ENTRIES);
    if d.Some? {
      SlotAt(mem, kind, d.value, m % ENTRIES, None);
    }
  }

  /** The level-0 table page for m is on the walk to m's pages. */
  lemma BottomOf(mem: Mem, kind: Kinds, t: nat)
    requires TreeOk(mem, kind) && t in kind && kind[t].Node? && kind[t].level == 0
    ensures IsRoot(kind, kind[t].r) && Bottom(mem, kind[t].r, kind[t].pre) == Some(t)
    ensures kind[t].pre < ENTRIES * ENTRIES && Middle(mem, kind[t].r, kind[t].pre / ENTRIES) == Some(kind[t].up)
  {
    hide TreeBut;
    HungAt(mem, kind, t, None);
    HungAt(mem, kind, kind[t].up, None);
    HungAt(mem, kind, kind[kind[t].up].up, None);
  }

  lemma MiddleOf(mem: Mem, kind: Kinds, t: nat)
    requires TreeOk(mem, kind) && t in kind && kind[t].Node? && kind[t].level == 1
    ensures IsRoot(kind, kind[t].r) && Middle(mem, kind[t].r, kind[t].pre) == Some(t) && kind[t].pre < ENTRIES
  {
    hide TreeBut;
    HungAt(mem, kind, t, None);
    HungAt(mem, kind, kind[t].up, None);
  }

  /** Different pages have different slots. */
  lemma SlotsDiffer(mem: Mem, kind: Kinds, r: nat, vpn: nat, r2: nat, vpn2: nat)
    requires TreeOk(mem, kind) && IsRoot(kind, r) && IsRoot(kind, r2) && vpn < MAXPAGE && vpn2 < MAXPAGE
    requires Bottom(mem, r, vpn / ENTRIES).Some?
    ensures Bottom(mem, r, vpn / ENTRIES) == Bottom(mem, r2, vpn2 / ENTRIES) && vpn % ENTRIES == vpn2 % ENTRIES <==>
            r == r2 && vpn == vpn2
  {
    hide TreeBut;
    BottomIs(mem, kind, r, vpn / ENTRIES);
    BottomIs(mem, kind, r2, vpn2 / ENTRIES);
  }

  // ---- Writing a leaf entry ---------------------------------------------------------------------

  function WithPte(mem: Mem, t: nat, i: nat, p: Pte): (r: Mem)
    requires IsTable(mem, t) && i < ENTRIES
    ensures IsTable(r, t) && r.Keys == mem.Keys
    ensures forall u :: u != t && u in mem ==> r[u] == mem[u]
    ensures forall u, j :: Entry(r, u, j) == if u == t && j == i then (if p.flags.v then Some(p) else None) else Entry(mem, u, j)
    ensures forall u :: IsTable(mem, u) ==> IsTable(r, u)
  {
    mem[t := Table(mem[t].ptes[i := p])]
  }

  lemma Digits(vpn: nat, pre: nat, i: nat)
    requires i < ENTRIES
    ensures vpn == pre * ENTRIES + i <==> vpn / ENTRIES == pre && vpn % ENTRIES == i
  {
  }

  /** Writing a level-0 slot leaves the tables above it alone. */
  lemma LeafWriteWalk(mem: Mem, kind: Kinds, t: nat, i: nat, p: Pte, r: nat, m: nat)
    requires TreeOk(mem, kind) && t in kind && kind[t].Node? && kind[t].level == 0 && IsTable(mem, t) && i < ENTRIES
    requires IsRoot(kind, r) && m < ENTRIES * ENTRIES
    ensures Bottom(WithPte(mem, t, i, p), r, m) == Bottom(mem, r, m)
  {
    hide TreeBut, WithPte, Entry, IsTable;
    MiddleIs(mem, kind, r, m / ENTRIES);
  }

  /** Writing a level-0 slot changes the flat map at one page of one address space. */
  lemma LeafWriteView(mem: Mem, kind: Kinds, t: nat, i: nat, p: Pte, r: nat, vpn: nat)
    requires TreeOk(mem, kind) && t in kind && kind[t].Node? && kind[t].level == 0 && IsTable(mem, t) && i < ENTRIES
    requires IsRoot(kind, r) && vpn < MAXPAGE
    ensures View(WithPte(mem, t, i, p), r, vpn) ==
              if r == kind[t].r && vpn == kind[t].pre * ENTRIES + i then (if p.flags.v then Some(p) else None)
              else View(mem, r, vpn)
  {
    hide TreeBut, WithPte, Bottom, Entry, IsTable;
    var m, j := vpn / ENTRIES, vpn % ENTRIES;
    BottomIs(mem, kind, r, m);
    BottomOf(mem, kind, t);
    LeafWriteWalk(mem, kind, t, i, p, r, m);
    Digits(vpn, kind[t].pre, i);
  }

  /** Mapping: an empty slot gets a leaf. A user page must come from a held frame, which it then owns. */
  lemma MapKeeps(mem: Mem, kind: Kinds, t: nat, i: nat, p: Pte, own: bool)
    requires TreeOk(mem, kind) && t in kind && kind[t].Node? && kind[t].level == 0 && IsTable(mem, t) && i < ENTRIES
    requires Entry(mem, t, i).None? && p.flags.v && IsLeaf(p) && (p.flags.u ==> own)
    requires own ==> p.frame in kind && kind[p.frame] == Held && p.frame in mem && mem[p.frame].Data? && |mem[p.frame].bytes| == PGSIZE
    ensures TreeOk(WithPte(mem, t, i, p), if own then kind[p.frame := Leaf(kind[t].r, kind[t].pre * ENTRIES + i, t)] else kind)
  {
    hide IsTable, IsLeaf, Width, WithPte, Entry, TreeBut, LeafOk, SlotOk;
    var mem2 := WithPte(mem, t, i, p);
    var kind2 := if own then kind[p.frame := Leaf(kind[t].r, kind[t].pre * ENTRIES + i, t)] else kind;
    forall u | u in kind2 && kind2[u].Node? ensures Hung(mem2, kind2, u, kind2[u]) {
      HungAt(mem, kind, u, None);
    }
    forall u, j: nat | u in kind2 && j < ENTRIES ensures SlotOk(mem2, kind2, u, kind2[u], j, None) {
      SlotAt(mem, kind, u, j, None);
      MapSlot(mem, kind, t, i, p, own, mem2, kind2, u, j);
    }
    forall f | f in kind2 ensures LeafOk(mem2, kind2, f, kind2[f]) {
      LeafAt(mem, kind, f);
      MapLeaf(mem, kind, t, i, p, own, mem2, kind2, f);
    }
    TreeIs(mem2, kind2);
  }

  lemma LeafAt(mem: Mem, kind: Kinds, f: nat)
    requires TreeOk(mem, kind) && f in kind
    ensures LeafOk(mem, kind, f, kind[f])
  {
  }

  lemma TreeIs(mem: Mem, kind: Kinds)
    requires forall t :: t in kind && kind[t].Node? ==> Hung(mem, kind, t, kind[t])
    requires forall t, i: nat :: t in kind && i < ENTRIES ==> SlotOk(mem, kind, t, kind[t], i, None)
    requires forall f :: f in kind ==> LeafOk(mem, kind, f, kind[f])
    ensures TreeOk(mem, kind)
  {
    hide Hung, SlotOk, LeafOk;
  }

  lemma MapSlot(mem: Mem, kind: Kinds, t: nat, i: nat, p: Pte, own: bool, mem2: Mem, kind2: Kinds, u: nat, j: nat)
    requires t in kind && kind[t].Node? && kind[t].level == 0 && i < ENTRIES && IsLeaf(p) && (p.flags.u ==> own)
    requires own ==> p.frame in kind && kind[p.frame] == Held
    requires kind2 == if own then kind[p.frame := Leaf(kind[t].r, kind[t].pre * ENTRIES + i, t)] else kind
    requires Entry(mem2, u, j) == if u == t && j == i then Some(p) else Entry(mem, u, j)
    requires u in kind && j < ENTRIES && SlotOk(mem, kind, u, kind[u], j, None)
    ensures SlotOk(mem2, kind2, u, kind2[u], j, None)
  {
    hide Entry, IsLeaf;
  }

  lemma MapLeaf(mem: Mem, kind: Kinds, t: nat, i: nat, p: Pte, own: bool, mem2: Mem, kind2: Kinds, f: nat)
    requires t in kind && kind[t].Node? && kind[t].level == 0 && IsTable(mem, t) && i < ENTRIES && Entry(mem, t, i).None? && p.flags.v
    requires own ==> p.frame in kind && kind[p.frame] == Held && p.frame in mem && mem[p.frame].Data? && |mem[p.frame].bytes| == PGSIZE
    requires mem2 == WithPte(mem, t, i, p)
    requires kind2 == if own then kind[p.frame := Leaf(kind[t].r, kind[t].pre * ENTRIES + i, t)] else kind
    requires f in kind && LeafOk(mem, kind, f, kind[f])
    ensures LeafOk(mem2, kind2, f, kind2[f])
  {
    NotData(mem, t, f);
    NotData(mem, t, p.frame);
    hide Entry, WithPte, IsTable;
    Digits(kind[t].pre * ENTRIES + i, kind[t].pre, i);
  }

  lemma NotData(mem: Mem, t: nat, f: nat)
    requires IsTable(mem, t)
    ensures f in mem && mem[f].Data? ==> f != t
  {
  }

  /** Unmapping: a leaf entry is cleared, and the page it owned, if any, is held again. */
  lemma UnmapKeeps(mem: Mem, kind: Kinds, t: nat, i: nat, p: Pte, own: bool)
    requires TreeOk(mem, kind) && t in kind && kind[t].Node? && kind[t].level == 0 && IsTable(mem, t) && i < ENTRIES
    requires Entry(mem, t, i) == Some(p)
    requires own <==> p.frame in kind && kind[p.frame] == Leaf(kind[t].r, kind[t].pre * ENTRIES + i, t)
    ensures TreeOk(WithPte(mem, t, i, NOPTE), if own then kind[p.frame := Held] else kind)
  {
    hide Width, WithPte, Entry;
    var mem2 := WithPte(mem, t, i, NOPTE);
    var kind2 := if own then kind[p.frame := Held] else kind;
    forall u | u in kind2 && kind2[u].Node? ensures Hung(mem2, kind2, u, kind2[u]) {
      assert Hung(mem, kind, u, kind[u]);
    }
    forall u, j | u in kind2 && 0 <= j < ENTRIES ensures SlotOk(mem2, kind2, u, kind2[u], j, None) {
      assert SlotOk(mem, kind, u, kind[u], j, None);
    }
    forall f | f in kind2 ensures LeafOk(mem2, kind2, f, kind2[f]) {
      assert LeafOk(mem, kind, f, kind[f]);
    }
  }

  // ---- New table pages --------------------------------------------------------------------------

  function ZeroTable(): (p: Page)
    ensures p.Table? && |p.ptes| == ENTRIES && (forall i :: 0 <= i < ENTRIES ==> p.ptes[i] == NOPTE)
  {
    Table(seq(ENTRIES, i => NOPTE))
  }

  /** Page c, cleared, is linked from slot i of table page t. */
  function WithTable(mem: Mem, t: nat, i: nat, c: nat): (r: Mem)
    requires IsTable(mem, t) && i < ENTRIES && c != t
    ensures IsTable(r, t) && IsTable(r, c) && r.Keys == mem.Keys + {c}
    ensures forall u :: u != t && u != c && u in mem ==> r[u] == mem[u]
    ensures forall u, j :: Entry(r, u, j) == if u == t && j == i then Some(Inner(c)) else if u == c then None else Entry(mem, u, j)
    ensures forall u :: IsTable(mem, u) ==> IsTable(r, u)
  {
    WithPte(mem[c := ZeroTable()], t, i, Inner(c))
  }

  lemma TableKeeps(mem: Mem, kind: Kinds, t: nat, i: nat, c: nat)
    requires TreeOk(mem, kind) && t in kind && kind[t].Node? && 1 <= kind[t].level && IsTable(mem, t) && i < ENTRIES
    requires Entry(mem, t, i).None? && c in kind && kind[c] == Held && kind[t].pre * ENTRIES + i < Width(kind[t].level - 1)
    ensures TreeOk(WithTable(mem, t, i, c), kind[c := Node(kind[t].r, kind[t].level - 1, kind[t].pre * ENTRIES + i, t)])
  {
    hide Width, WithTable, Entry, IsTable, TreeBut, SlotOk, LeafOk;
    var mem2 := WithTable(mem, t, i, c);
    var kind2 := kind[c := Node(kind[t].r, kind[t].level - 1, kind[t].pre * ENTRIES + i, t)];
    HungAt(mem, kind, t, None);
    Digits(kind2[c].pre, kind[t].pre, i);
    forall u | u in kind2 && kind2[u].Node? ensures Hung(mem2, kind2, u, kind2[u]) {
      if u != c { HungAt(mem, kind, u, None); }
    }
    forall u, j: nat | u in kind2 && j < ENTRIES ensures SlotOk(mem2, kind2, u, kind2[u], j, None) {
      SlotAt(mem, kind, u, j, None);
      TableSlot(mem, kind, t, i, c, mem2, kind2, u, j);
    }
    forall f | f in kind2 ensures LeafOk(mem2, kind2, f, kind2[f]) {
      LeafAt(mem, kind, f);
      TableLeaf(mem, kind, t, i, c, mem2, kind2, f);
    }
    TreeIs(mem2, kind2);
  }

  lemma TableSlot(mem: Mem, kind: Kinds, t: nat, i: nat, c: nat, mem2: Mem, kind2: Kinds, u: nat, j: nat)
    requires t in kind && kind[t].Node? && 1 <= kind[t].level && i < ENTRIES && c in kind && kind[c] == Held
    requires kind2 == kind[c := Node(kind[t].r, kind[t].level - 1, kind[t].pre * ENTRIES + i, t)]
    requires Entry(mem2, u, j) == if u == t && j == i then Some(Inner(c)) else if u == c then None else Entry(mem, u, j)
    requires u in kind && j < ENTRIES && SlotOk(mem, kind, u, kind[u], j, None)
    ensures SlotOk(mem2, kind2, u, kind2[u], j, None)
  {
    hide Entry, IsLeaf;
  }

  lemma TableLeaf(mem: Mem, kind: Kinds, t: nat, i: nat, c: nat, mem2: Mem, kind2: Kinds, f: nat)
    requires t in kind && kind[t].Node? && 1 <= kind[t].level && IsTable(mem, t) && i < ENTRIES && c in kind && kind[c] == Held
    requires mem2 == WithTable(mem, t, i, c) && kind2 == kind[c := Node(kind[t].r, kind[t].level - 1, kind[t].pre * ENTRIES + i, t)]
    requires f in kind && LeafOk(mem, kind, f, kind[f])
    ensures LeafOk(mem2, kind2, f, kind2[f])
  {
    NotData(mem, t, f);
    hide Entry, WithTable, IsTable;
  }

  /** A new, empty table page does not change the flat map. */
  lemma TableView(mem: Mem, kind: Kinds, t: nat, i: nat, c: nat, r: nat, vpn: nat)
    requires TreeOk(mem, kind) && t in kind && kind[t].Node? && IsTable(mem, t) && i < ENTRIES
    requires Entry(mem, t, i).None? && c in kind && kind[c] == Held && IsRoot(kind, r) && vpn < MAXPAGE
    requires kind[t].level >= 1
    ensures View(WithTable(mem, t, i, c), r, vpn) == View(mem, r, vpn)
  {
    hide TreeBut, WithTable, Entry, IsTable;
    BottomIs(mem, kind, r, vpn / ENTRIES);
    MiddleIs(mem, kind, r, vpn / ENTRIES / ENTRIES);
  }

  // ---- Other changes to memory ------------------------------------------------------------------

  /** Table pages hold the same entries, and user pages are still there. */
  ghost predicate Undisturbed(mem: Mem, mem2: Mem, kind: Kinds) {
    && (forall t, j :: t in kind && kind[t].Node? ==> Entry(mem2, t, j) == Entry(mem, t, j))
    && (forall t :: t in kind && kind[t].Node? && IsTable(mem, t) ==> IsTable(mem2, t))
    && (forall f :: f in kind && kind[f].Leaf? ==> f in mem2 && mem2[f].Data? && |mem2[f].bytes| == PGSIZE)
  }

  /** The pages that serve address spaces are the same in both. */
  predicate SameUse(kind: Kinds, kind2: Kinds) {
    && kind.Keys == kind2.Keys
    && (forall f :: f in kind && (kind[f].Node? || kind[f].Leaf?) ==> kind2[f] == kind[f])
    && (forall f :: f in kind2 && (kind2[f].Node? || kind2[f].Leaf?) ==> kind2[f] == kind[f])
  }

  lemma FrameKeeps(mem: Mem, mem2: Mem, kind: Kinds, kind2: Kinds, except: Option<nat>)
    requires TreeBut(mem, kind, except) && Undisturbed(mem, mem2, kind) && SameUse(kind, kind2)
    ensures TreeBut(mem2, kind2, except)
  {
    hide Width, Entry, IsTable;
    forall u | u in kind2 && kind2[u].Node? ensures Hung(mem2, kind2, u, kind2[u]) {
      assert Hung(mem, kind, u, kind[u]);
    }
    forall u, j | u in kind2 && 0 <= j < ENTRIES ensures SlotOk(mem2, kind2, u, kind2[u], j, except) {
      assert SlotOk(mem, kind, u, kind[u], j, except);
    }
    forall f | f in kind2 ensures LeafOk(mem2, kind2, f, kind2[f]) {
      assert LeafOk(mem, kind, f, kind[f]);
    }
  }

  /** An address space whose own table pages hold the same entries is mapped as before. */
  lemma FrameView(mem: Mem, mem2: Mem, kind: Kinds, r: nat, vpn: nat)
    requires TreeOk(mem, kind) && IsRoot(kind, r) && vpn < MAXPAGE
    requires forall t, j :: t in kind && kind[t].Node? && kind[t].r == r ==> Entry(mem2, t, j) == Entry(mem, t, j)
    ensures View(mem2, r, vpn) == View(mem, r, vpn)
  {
    hide TreeBut, Entry, IsTable;
    BottomIs(mem, kind, r, vpn / ENTRIES);
    MiddleIs(mem, kind, r, vpn / ENTRIES / ENTRIES);
  }

  function WithRoot(mem: Mem, c: nat): (r: Mem)
    ensures IsTable(r, c) && r.Keys == mem.Keys + {c}
    ensures forall u :: u != c && u in mem ==> r[u] == mem[u]
    ensures forall u, j :: Entry(r, u, j) == if u == c then None else Entry(mem, u, j)
  {
    mem[c := ZeroTable()]
  }

  /** A cleared page becomes the root of an empty address space. */
  lemma RootKeeps(mem: Mem, kind: Kinds, c: nat)
    requires TreeOk(mem, kind) && c in kind && kind[c] == Held
    ensures TreeOk(WithRoot(mem, c), kind[c := Node(c, 2, 0, c)])
  {
    hide WithRoot, TreeBut;
    RootTree(mem, WithRoot(mem, c), kind, kind[c := Node(c, 2, 0, c)], c);
  }

  lemma RootView(mem: Mem, kind: Kinds, c: nat, r: nat, vpn: nat)
    requires TreeOk(mem, kind) && c in kind && kind[c] == Held && vpn < MAXPAGE
    ensures r == c ==> View(WithRoot(mem, c), r, vpn) == None
    ensures r != c && IsRoot(kind, r) ==> View(WithRoot(mem, c), r, vpn) == View(mem, r, vpn)
  {
    hide WithRoot, TreeBut, Entry, IsTable;
    if r != c && IsRoot(kind, r) {
      BottomIs(mem, kind, r, vpn / ENTRIES);
      MiddleIs(mem, kind, r, vpn / ENTRIES / ENTRIES);
    }
  }

  lemma RootTree(mem: Mem, mem2: Mem, kind: Kinds, kind2: Kinds, c: nat)
    requires TreeOk(mem, kind) && c in kind && kind[c] == Held && kind2 == kind[c := Node(c, 2, 0, c)]
    requires forall u, j :: Entry(mem2, u, j) == if u == c then None else Entry(mem, u, j)
    requires IsTable(mem2, c) && (forall u :: u != c && u in mem ==> u in mem2 && mem2[u] == mem[u])
    ensures TreeOk(mem2, kind2)
  {
    hide Entry, TreeBut;
    forall u | u in kind2 && kind2[u].Node? ensures Hung(mem2, kind2, u, kind2[u]) {
      if u != c { HungAt(mem, kind, u, None); }
    }
    hide IsTable;
    forall u, j: nat | u in kind2 && j < ENTRIES ensures SlotOk(mem2, kind2, u, kind2[u], j, None) {
      SlotAt(mem, kind, u, j, None);
    }
    forall f | f in kind2 ensures LeafOk(mem2, kind2, f, kind2[f]) {
      LeafAt(mem, kind, f);
    }
    TreeIs(mem2, kind2);
  }

  // ---- Taking a tree apart ----------------------------------------------------------------------

  predicate Empty(mem: Mem, t: nat) {
    forall i :: 0 <= i < ENTRIES ==> Entry(mem, t, i).None?
  }

  /** A table page with no entries may go, before the pointer to it is cleared. */
  lemma DropKeeps(mem: Mem, kind: Kinds, t: nat)
    requires TreeOk(mem, kind) && t in kind && kind[t].Node? && Empty(mem, t)
    ensures TreeBut(mem, kind[t := Held], Some(t))
    ensures kind[t].level == 2 ==> TreeOk(mem, kind[t := Held])
  {
    hide Width, Entry, IsTable;
    var kind2 := kind[t := Held];
    forall u | u in kind2 && kind2[u].Node? ensures Hung(mem, kind2, u, kind2[u]) {
      assert Hung(mem, kind, u, kind[u]);
    }
    forall u, j | u in kind2 && 0 <= j < ENTRIES
      ensures SlotOk(mem, kind2, u, kind2[u], j, Some(t)) && (kind[t].level == 2 ==> SlotOk(mem, kind2, u, kind2[u], j, None))
    {
      assert SlotOk(mem, kind, u, kind[u], j, None);
      assert u != t && kind[u].Node? ==> Hung(mem, kind, u, kind[u]);
    }
    forall f | f in kind2 ensures LeafOk(mem, kind2, f, kind2[f]) {
      assert LeafOk(mem, kind, f, kind[f]);
    }
  }

  /** Only the slot above it points to table page t. */
  lemma OnlyPointer(mem: Mem, kind: Kinds, t: nat, u: nat, j: nat)
    requires TreeOk(mem, kind) && t in kind && kind[t].Node? && kind[t].level < 2
    requires u in kind && kind[u].Node? && kind[u].level > 0 && j < ENTRIES && Next(mem, Some(u), j) == Some(t)
    ensures u == kind[t].up && j == kind[t].pre % ENTRIES
  {
    hide TreeBut, Entry;
    SlotAt(mem, kind, u, j, None);
    Digits(kind[t].pre, kind[u].pre, j);
  }

  /** Clearing the one pointer to a dropped page makes the trees whole again. */
  lemma ClearKeeps(mem: Mem, kind: Kinds, u: nat, i: nat, t: nat)
    requires TreeBut(mem, kind, Some(t)) && u in kind && kind[u].Node? && kind[u].level > 0 && IsTable(mem, u) && i < ENTRIES
    requires Next(mem, Some(u), i) == Some(t) && (t in kind ==> !kind[t].Node?)
    requires forall v, j :: v in kind && kind[v].Node? && kind[v].level > 0 && 0 <= j < ENTRIES && Next(mem, Some(v), j) == Some(t) ==> v == u && j == i
    ensures TreeOk(WithPte(mem, u, i, NOPTE), kind)
  {
    hide Width, WithPte, Entry;
    var mem2 := WithPte(mem, u, i, NOPTE);
    forall v | v in kind && kind[v].Node? ensures Hung(mem2, kind, v, kind[v]) {
      assert Hung(mem, kind, v, kind[v]);
    }
    forall v, j | v in kind && 0 <= j < ENTRIES ensures SlotOk(mem2, kind, v, kind[v], j, None) {
      assert SlotOk(mem, kind, v, kind[v], j, Some(t));
      assert kind[v].Node? && kind[v].level > 0 && Next(mem, Some(v), j) == Some(t) ==> v == u && j == i;
    }
    forall f | f in kind ensures LeafOk(mem2, kind, f, kind[f]) {
      assert LeafOk(mem, kind, f, kind[f]);
    }
  }

  /** A table page's place in the tree determines it. */
  lemma OneNode(mem: Mem, kind: Kinds, x: nat, y: nat)
    requires TreeOk(mem, kind) && x in kind && y in kind && kind[x].Node? && kind[y].Node?
    requires kind[x].r == kind[y].r && kind[x].level == kind[y].level && kind[x].pre == kind[y].pre
    ensures x == y
  {
    hide TreeBut;
    HungAt(mem, kind, x, None);
    HungAt(mem, kind, y, None);
    if kind[x].level == 1 { MiddleOf(mem, kind, x); MiddleOf(mem, kind, y); }
    if kind[x].level == 0 { BottomOf(mem, kind, x); BottomOf(mem, kind, y); }
  }

  function Up(pre: nat, levels: nat): (p: nat) {
    if levels == 0 then pre else Up(pre / ENTRIES, levels - 1)
  }

  /** The subtree below slot i of table page t is empty unless the slot is valid. */
  lemma NothingBelow(mem: Mem, kind: Kinds, t: nat, i: nat, x: nat)
    requires TreeOk(mem, kind) && t in kind && kind[t].Node? && i < ENTRIES && Entry(mem, t, i).None?
    requires x in kind && kind[x].Node? && kind[x].r == kind[t].r && kind[x].level < kind[t].level
    ensures Up(kind[x].pre, kind[t].level - 1 - kind[x].level) != kind[t].pre * ENTRIES + i
  {
    hide TreeBut, Entry;
    HungAt(mem, kind, t, None);
    HungAt(mem, kind, x, None);
    var y := if kind[x].level + 1 == kind[t].level then x else kind[x].up;
    HungAt(mem, kind, y, None);
    if kind[y].pre == kind[t].pre * ENTRIES + i {
      Digits(kind[y].pre, kind[t].pre, i);
      OneNode(mem, kind, kind[y].up, t);
      assert false;
    }
  }
}
