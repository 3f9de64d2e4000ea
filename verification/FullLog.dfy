// The budget of filewrite is exact: there is a file system on which one transaction of a write logs
// MAXOPBLOCKS blocks. It is built here from an empty one.
module FullLog {
  import opened Bits
  import opened Blocks
  import opened Counting
  import opened FsState
  import opened FsSpace
  import opened Fs
  import opened File

  // ---- An empty file system -------------------------------------------------------------------

  lemma {:induction false} ZeroBit(k: nat)
    ensures !Bit(0, k)
  {
    if k > 0 {
      ZeroBit(k-1);
    }
  }

  lemma NoBits(view: seq<Block>, l: Layout)
    requires LayoutOk(l) && |view| == l.size && forall b :: 0 <= b < l.size ==> view[b] == ZeroBlock()
    ensures forall b :: 0 <= b < l.size ==> !BitSet(view, l, b)
  {
    forall b | 0 <= b < l.size
      ensures !BitSet(view, l, b)
    {
      ZeroBit(b % BPB % 8);
    }
  }

  /** All blocks zero but for the bits of the first k blocks. */
  lemma {:induction false} Marking(l: Layout, k: nat) returns (view: seq<Block>)
    requires LayoutOk(l) && k <= l.size
    ensures |view| == l.size && forall b :: 0 <= b < l.size ==> (BitSet(view, l, b) <==> b < k)
    ensures forall b :: 0 <= b < l.bmapstart || l.nmeta <= b < l.size ==> view[b] == ZeroBlock()
  {
    if k == 0 {
      view := seq(l.size, _ => ZeroBlock());
      NoBits(view, l);
    } else {
      var before := Marking(l, k-1);
      view := FlipBit(before, l, k-1);
      forall b | 0 <= b < l.size
        ensures BitSet(view, l, b) <==> b < k
      {
        FlipBitAt(before, l, k-1, b);
      }
      hide BitSet, Flipped;
      assert l.bmapstart <= BBlock(l, k-1) < l.nmeta;
    }
  }

  function NoInode(): Inode {
    Inode(0, seq(NDIRECT + 1, _ => 0), 0, 0, 0, 0)
  }

  lemma ZeroInode(i: nat)
    ensures Dinode(ZeroBlock(), i) == NoInode()
  {
    hide Word, ZeroBlock;
    var base := 16 * (i % IPB);
    WordOfZero(base);
    WordOfZero(base + 1);
    WordOfZero(base + 2);
    forall k | 0 <= k <= NDIRECT
      ensures StoredAddr(ZeroBlock(), base, k) == 0
    {
      WordOfZero(base + 3 + k);
    }
    assert StoredAddrs(ZeroBlock(), base) == NoInode().addrs;
  }

  /** An empty file system: the bits of the metadata set, no inode in use. */
  lemma Empty(l: Layout) returns (view: seq<Block>, inodes: seq<Inode>)
    requires LayoutOk(l)
    ensures |inodes| == l.ninodes && State(view, inodes, l, map[])
    ensures forall i :: 0 <= i < |inodes| ==> inodes[i].size == 0
  {
    view := Marking(l, l.nmeta);
    inodes := seq(l.ninodes, _ => NoInode());
    hide BitSet;
    forall i | 0 <= i < |inodes|
      ensures FileOk(view, inodes[i]) && Dinode(view[IBlock(l, i)], i) == inodes[i]
    {
      assert IBlock(l, i) < l.bmapstart;
      ZeroInode(i);
    }
    assert Mapped(view, inodes, map[], {});
  }

  // ---- Giving blocks to files -----------------------------------------------------------------

  /** The inode's place on disk brought up to date. */
  lemma Update(view: seq<Block>, inodes: seq<Inode>, l: Layout, owner: Owner, i: nat) returns (view': seq<Block>)
    requires Owns(view, inodes, l, owner, {}, {}) && FilesOk(view, inodes) && Synced(view, inodes, l, i) && i < |inodes|
    ensures State(view', inodes, l, owner)
  {
    hide Extends, Mapped, Marked, BitSet, Synced, WithInode, Addr;
    InodeFits(view, inodes, l, owner, i);
    UpdateSyncs(view, inodes, l, i);
    var ib := IBlock(l, i);
    view' := view[ib := WithInode(view[ib], i, inodes[i])];
    MetaWriteKeeps(view, inodes, l, owner, ib, view'[ib]);
    ExtendsFilesOk(view, inodes, owner, view', inodes, owner);
  }

  /** Block b goes to slot s of inode i. */
  lemma Give(view: seq<Block>, inodes: seq<Inode>, l: Layout, owner: Owner, i: nat, s: nat, b: nat) returns (view': seq<Block>, inodes': seq<Inode>)
    requires State(view, inodes, l, owner) && l.nmeta <= b < l.size && b !in owner
    requires i < |inodes| && s < NDIRECT && forall c :: c in owner ==> owner[c] != (i, s)
    ensures State(view', inodes', l, owner[b := (i, s)]) && |inodes'| == |inodes|
    ensures forall k :: 0 <= k < |inodes| ==> inodes'[k].size == inodes[k].size
  {
    FreeSlot(view, inodes, l, owner, i, s, b);
    hide Extends, Mapped, Marked, BitSet, Addr, Allocated, FileOk, Synced;
    AllocateKeeps(view, inodes, l, owner, {}, b);
    assert {} + {b} == {b} && {b} - {b} == {};
    var v1 := Allocated(view, l, b);
    AllocatedZero(view, l, b);
    AttachKeeps(v1, inodes, l, owner, {b}, i, s, b);
    inodes' := inodes[i := inodes[i].(addrs := inodes[i].addrs[s := b])];
    ExtendsTransitive(view, inodes, owner, v1, inodes, owner, v1, inodes', owner[b := (i, s)]);
    ExtendsFilesOk(view, inodes, owner, v1, inodes', owner[b := (i, s)]);
    SyncedSame(view, inodes, v1, inodes', l, i, -1);
    view' := Update(v1, inodes', l, owner[b := (i, s)], i);
  }

  lemma FreeSlot(view: seq<Block>, inodes: seq<Inode>, l: Layout, owner: Owner, i: nat, s: nat, b: nat)
    requires Owns(view, inodes, l, owner, {}, {}) && l.nmeta <= b < l.size && b !in owner
    requires i < |inodes| && s < NDIRECT && forall c :: c in owner ==> owner[c] != (i, s)
    ensures !BitSet(view, l, b) && inodes[i].addrs[s] == 0
  {
    hide BitSet, Word;
    assert inodes[i].addrs[s] == Addr(view, inodes[i], s);
  }

  // ---- A disk that is all but full ------------------------------------------------------------

  /** 2 * (c + 1) bitmap blocks' worth of disk. An inode for every block leaves the first half for data. */
  function Wide(c: nat): Layout {
    var size := 2 * (c + 1) * BPB;
    var bmapstart := 33 + size / IPB;
    Layout(size, bmapstart + 2 * (c + 1) + 1, size, 32, bmapstart)
  }

  /** The blocks left free: the first under each bitmap block of the second half. */
  predicate Hole(c: nat, b: nat) {
    b % BPB == 0 && c + 1 <= b / BPB
  }

  /** File 0 gets the first blocks, and every other block a file of its own. */
  function Place(l: Layout, first: nat, b: nat): (nat, nat)
    requires l.nmeta <= b
  {
    if b - l.nmeta <= first then (0, b - l.nmeta) else (b - l.nmeta, 0)
  }

  lemma WideOk(c: nat)
    requires c < MAXFILE
    ensures LayoutOk(Wide(c)) && Wide(c).nmeta + NDIRECT < (c + 1) * BPB < Wide(c).size
    ensures Wide(c).ninodes == Wide(c).size == (c + 1 + (c + 1)) * BPB
  {
  }

  ghost predicate FullTo(l: Layout, first: nat, c: nat, n: nat, owner: Owner) {
    && (forall b :: b in owner <==> l.nmeta <= b < n && !Hole(c, b))
    && (forall b :: b in owner && l.nmeta <= b ==> owner[b] == Place(l, first, b))
  }

  lemma {:induction false} Fill(l: Layout, first: nat, c: nat, n: nat) returns (view: seq<Block>, inodes: seq<Inode>, owner: Owner)
    requires LayoutOk(l) && l.ninodes == l.size && l.nmeta <= n <= l.size && first < NDIRECT
    ensures State(view, inodes, l, owner) && FullTo(l, first, c, n, owner) && |inodes| == l.ninodes
    ensures forall i :: 0 <= i < |inodes| ==> inodes[i].size == 0
    decreases n
  {
    hide State, Hole;
    if n == l.nmeta {
      view, inodes := Empty(l);
      owner := map[];
    } else {
      view, inodes, owner := Fill(l, first, c, n-1);
      if !Hole(c, n-1) {
        var p := Place(l, first, n-1);
        view, inodes := Give(view, inodes, l, owner, p.0, p.1, n-1);
        owner := owner[n-1 := p];
      }
    }
  }

  /** A write of c blocks at off needs exactly the blocks that are free, one under each of c + 1 bitmap
      blocks: off is inside the last block of file i, block `first`, and the write reaches past the
      direct blocks. */
  ghost predicate Tight(view: seq<Block>, inodes: seq<Inode>, l: Layout, owner: Owner, i: nat, off: nat, first: nat, c: nat) {
    && State(view, inodes, l, owner) && i < |inodes| && |inodes[i].addrs| == NDIRECT + 1
    && off / BSIZE == first && off % BSIZE != 0 && off <= inodes[i].size
    && first < NDIRECT <= first + c < MAXFILE
    && Filled(view, inodes[i]) == Below(first + 1)
    && |FreeBlocks(view, l)| == c + 1 == |BitmapOf(l, FreeBlocks(view, l))|
  }

  // ---- What the write logs --------------------------------------------------------------------

  lemma TightNeeds(first: nat, c: nat)
    requires first < NDIRECT <= first + c
    ensures Lacking(WantedRange(first, c + 1), Below(first + 1)) == c + 1
  {
    hide Below, WantedRange;
    var slots := WantedRange(first, c + 1);
    WantedSize(first, c + 1);
    forall s
      ensures s in slots - Below(first + 1) <==> s in slots - {first}
    {
      WantedIs(first, c + 1, s);
    }
    WantedIs(first, c + 1, first);
    assert slots - Below(first + 1) == slots - {first};
  }

  /** The new blocks are all the free ones. */
  lemma AllTaken(view: seq<Block>, inodes: seq<Inode>, l: Layout, owner: Owner, view': seq<Block>, inodes': seq<Inode>, owner': Owner)
    requires Owns(view, inodes, l, owner, {}, {}) && Owns(view', inodes', l, owner', {}, {})
    requires owner.Keys <= owner'.Keys && |owner'| - |owner| == |FreeBlocks(view, l)|
    ensures Added(owner, owner') == FreeBlocks(view, l)
  {
    hide FreeBlocks, Owns, DataBlocks, Added;
    OwnsSizes(view, inodes, l, owner);
    FreeCount(view, inodes, l, owner);
    OwnsRange(view', inodes', l, owner');
    AddedCount(owner, owner', DataBlocks(l));
    AllOf(Added(owner, owner'), FreeBlocks(view, l));
  }

  lemma AddedCount(owner: Owner, owner': Owner, data: set<nat>)
    requires owner.Keys <= owner'.Keys <= data
    ensures |Added(owner, owner')| == |owner'| - |owner| && Added(owner, owner') <= data - owner.Keys
  {
    assert |owner'.Keys| == |owner'| && |owner.Keys| == |owner|;
  }

  lemma AllOf(s: set<nat>, t: set<nat>)
    requires s <= t && |s| == |t|
    ensures s == t
  {
    if s != t {
      var b :| b in t && b !in s;
      SubsetSize(s, t - {b});
      assert false;
    }
  }

  lemma OwnsRange(view: seq<Block>, inodes: seq<Inode>, l: Layout, owner: Owner)
    requires Owns(view, inodes, l, owner, {}, {})
    ensures owner.Keys <= DataBlocks(l) && l.inodestart + l.ninodes / IPB < l.bmapstart && LayoutOk(l)
  {
    hide BitSet, Mapped, Below;
  }

  /** The file's blocks in the range written: an old one and the new data blocks. */
  lemma OldAndNew(i: nat, first: nat, c: nat, owner: Owner, owner': Owner, filled': set<nat>, x: nat, b0: nat)
    requires Grew(i, WantedRange(first, c + 1), owner, Below(first + 1), owner', filled', x) && first < NDIRECT <= first + c
    requires Injective(owner') && b0 in owner && owner[b0] == (i, first)
    requires forall b :: b in owner && owner[b].0 == i ==> owner[b].1 <= first
    requires x in owner' && owner'[x] == (i, NDIRECT)
    ensures FileBlocks(owner', i, first, c + 1) <= Added(owner, owner') + {b0} && x in Added(owner, owner')
    ensures b0 in FileBlocks(owner', i, first, c + 1) && b0 !in Added(owner, owner')
  {
    hide AddsEntry, Lacking, Below, WantedRange;
    WantedIs(first, c + 1, first);
    forall b | b in FileBlocks(owner', i, first, c + 1) && b in owner
      ensures b == b0
    {
      WantedIs(first, c + 1, owner[b].1);
    }
  }

  lemma FirstBlock(view: seq<Block>, inodes: seq<Inode>, l: Layout, owner: Owner, i: nat, first: nat) returns (b0: nat)
    requires Owns(view, inodes, l, owner, {}, {}) && i < |inodes| && |inodes[i].addrs| == NDIRECT + 1
    requires Filled(view, inodes[i]) == Below(first + 1) && first < NDIRECT
    ensures b0 in owner && owner[b0] == (i, first)
    ensures forall b :: b in owner && owner[b].0 == i ==> owner[b].1 <= first
  {
    hide BitSet, Addr, Below;
    SlotFilled(view, inodes[i], first);
    b0 := Addr(view, inodes[i], first);
    OwnedBlock(view, inodes, l, owner, i, first);
    forall b | b in owner && owner[b].0 == i
      ensures owner[b].1 <= first
    {
      SlotFilled(view, inodes[i], owner[b].1);
    }
  }

  lemma IndirectFilled(view: seq<Block>, inodes: seq<Inode>, l: Layout, owner: Owner, i: nat, first: nat, c: nat, filled0: set<nat>)
    requires Owns(view, inodes, l, owner, {}, {}) && i < |inodes| && |inodes[i].addrs| == NDIRECT + 1 && NDIRECT <= first + c
    requires Filled(view, inodes[i]) == filled0 + WantedRange(first, c + 1)
    ensures inodes[i].addrs[NDIRECT] in owner && owner[inodes[i].addrs[NDIRECT]] == (i, NDIRECT)
  {
    WantedIs(first, c + 1, NDIRECT);
    hide WantedRange;
    SlotFilled(view, inodes[i], NDIRECT);
    IndirectIsData(view, inodes, l, owner, i);
  }

  /** Data, bitmap and inode blocks are different blocks. */
  lemma Apart(l: Layout, i: nat, added: set<nat>, b0: nat)
    requires LayoutOk(l) && i < l.ninodes && added + {b0} <= DataBlocks(l)
    ensures IBlock(l, i) !in BitmapOf(l, added) && IBlock(l, i) !in added + {b0} && BitmapOf(l, added) !! added + {b0}
  {
    hide Below;
    assert IBlock(l, i) < l.bmapstart;
    assert forall b :: b in BitmapOf(l, added) ==> l.bmapstart <= b < l.nmeta;
  }

  lemma LogOf(added: set<nat>, maps: set<nat>, extra: set<nat>, files: set<nat>, b0: nat, ib: nat)
    requires extra <= added && files <= added + {b0} && b0 in files && b0 !in added
    requires ib !in maps && ib !in added + {b0} && maps !! added + {b0}
    ensures |added + maps + extra + files + {ib}| == |added| + |maps| + 2
  {
    assert added + maps + extra + files + {ib} == added + maps + {b0} + {ib};
    assert |added + maps| == |added| + |maps|;
    assert |added + maps + {b0}| == |added + maps| + 1;
  }

  lemma TightLog(view: seq<Block>, inodes: seq<Inode>, l: Layout, owner: Owner, i: nat, off: nat, first: nat, c: nat,
                 view': seq<Block>, inodes': seq<Inode>, owner': Owner, x: nat, logged: set<nat>)
    requires Tight(view, inodes, l, owner, i, off, first, c) && State(view', inodes', l, owner')
    requires |inodes'| == |inodes| && |inodes'[i].addrs| == NDIRECT + 1 && x == inodes'[i].addrs[NDIRECT]
    requires Grew(i, WantedRange(first, c + 1), owner, Filled(view, inodes[i]), owner', Filled(view', inodes'[i]), x)
    requires logged == AllocLog(l, owner, owner', x) + FileBlocks(owner', i, first, c + 1) + {IBlock(l, i)}
    ensures |logged| == 2 * c + 4
  {
    hide Owns, FilesOk, Filled, Below, FreeBlocks, BitmapOf, FileBlocks, WantedRange, Added, AddsEntry, IBlock, Lacking, DataBlocks;
    TightNeeds(first, c);
    AllTaken(view, inodes, l, owner, view', inodes', owner');
    var added := Added(owner, owner');
    var b0 := FirstBlock(view, inodes, l, owner, i, first);
    IndirectFilled(view', inodes', l, owner', i, first, c, Filled(view, inodes[i]));
    OwnerInjective(view', inodes', l, owner');
    OldAndNew(i, first, c, owner, owner', Filled(view', inodes'[i]), x, b0);
    OwnsRange(view', inodes', l, owner');
    AddedKeys(owner, owner');
    Apart(l, i, added, b0);
    LogOf(added, BitmapOf(l, added), if AddsEntry(owner, owner') then {x} else {}, FileBlocks(owner', i, first, c + 1), b0, IBlock(l, i));
  }

  lemma AddedKeys(owner: Owner, owner': Owner)
    ensures Added(owner, owner') <= owner'.Keys
  {
  }

  // ---- There is such a disk -------------------------------------------------------------------

  /** The first n blocks left free. */
  function Holes(c: nat, n: nat): set<nat> {
    if n == 0 then {} else Holes(c, n-1) + {(c + n) * BPB}
  }

  lemma {:induction false} HoleIs(c: nat, n: nat, b: nat)
    ensures b in Holes(c, n) <==> Hole(c, b) && b < (c + 1 + n) * BPB
  {
    if n > 0 {
      HoleIs(c, n-1, b);
    }
  }

  lemma {:induction false} HolesSize(c: nat, n: nat, l: Layout)
    ensures |Holes(c, n)| == n == |BitmapOf(l, Holes(c, n))|
    ensures forall x :: x in BitmapOf(l, Holes(c, n)) ==> x < c + 1 + n + l.bmapstart
  {
    hide BitmapOf, Hole;
    if n > 0 {
      HolesSize(c, n-1, l);
      HoleIs(c, n-1, (c + n) * BPB);
      OneBitmap(l, Holes(c, n-1), c + n);
    } else {
      NoBitmap(l);
    }
  }

  lemma NoBitmap(l: Layout)
    ensures BitmapOf(l, {}) == {}
  {
  }

  /** A block under a bitmap block of its own. */
  lemma OneBitmap(l: Layout, blocks: set<nat>, k: nat)
    requires k * BPB !in blocks && forall x :: x in BitmapOf(l, blocks) ==> x < k + l.bmapstart
    ensures |blocks + {k * BPB}| == |blocks| + 1
    ensures BitmapOf(l, blocks + {k * BPB}) == BitmapOf(l, blocks) + {k + l.bmapstart}
    ensures |BitmapOf(l, blocks + {k * BPB})| == |BitmapOf(l, blocks)| + 1
  {
    BitmapJoin(l, blocks, {k * BPB});
    assert BBlock(l, k * BPB) == k + l.bmapstart;
    assert BitmapOf(l, {k * BPB}) == {BBlock(l, k * BPB)};
    hide BitmapOf, BBlock;
  }

  lemma FreeHoles(view: seq<Block>, inodes: seq<Inode>, owner: Owner, first: nat, c: nat)
    requires c < MAXFILE && Owns(view, inodes, Wide(c), owner, {}, {}) && FullTo(Wide(c), first, c, Wide(c).size, owner)
    ensures FreeBlocks(view, Wide(c)) == Holes(c, c + 1)
  {
    hide Owns, FreeBlocks, DataBlocks, Wide, Holes, FullTo;
    WideOk(c);
    OwnsSizes(view, inodes, Wide(c), owner);
    FreeCount(view, inodes, Wide(c), owner);
    LeftFree(Wide(c), first, c, owner);
  }

  lemma LeftFree(l: Layout, first: nat, c: nat, owner: Owner)
    requires FullTo(l, first, c, l.size, owner) && l.nmeta < (c + 1) * BPB && l.size == (c + 1 + (c + 1)) * BPB
    ensures DataBlocks(l) - owner.Keys == Holes(c, c + 1)
  {
    hide Below, Hole, Holes;
    forall b
      ensures b in DataBlocks(l) - owner.Keys <==> b in Holes(c, c + 1)
    {
      HoleIs(c, c + 1, b);
      HoleHigh(c, b);
    }
  }

  lemma HoleHigh(c: nat, b: nat)
    ensures Hole(c, b) ==> b >= (c + 1) * BPB
  {
  }

  /** The slots of file 0 in use. */
  lemma FileFilled(view: seq<Block>, inodes: seq<Inode>, owner: Owner, first: nat, c: nat)
    requires c < MAXFILE && first < NDIRECT && Owns(view, inodes, Wide(c), owner, {}, {}) && |inodes| > 0
    requires FullTo(Wide(c), first, c, Wide(c).size, owner)
    ensures |inodes[0].addrs| == NDIRECT + 1 && Filled(view, inodes[0]) == Below(first + 1)
  {
    var l := Wide(c);
    WideOk(c);
    hide BitSet, Addr, Below, Wide, Hole, Marked;
    forall s: nat | s < SLOTS
      ensures Addr(view, inodes[0], s) != 0 <==> s <= first
    {
      if s <= first {
        HoleHigh(c, l.nmeta + s);
        assert l.nmeta + s in owner && owner[l.nmeta + s] == (0, s);
      }
      if Addr(view, inodes[0], s) != 0 {
        assert owner[Addr(view, inodes[0], s)] == (0, s);
      }
    }
  }

  /** For every chunk size that can be written across the end of the direct blocks. */
  lemma TightExists(first: nat, c: nat) returns (l: Layout, view: seq<Block>, inodes: seq<Inode>, owner: Owner)
    requires first < NDIRECT <= first + c < MAXFILE
    ensures Tight(view, inodes, l, owner, 0, first * BSIZE + 1, first, c)
  {
    hide State, Wide, FullTo, Filled, FreeBlocks, BitmapOf, Below, Holes;
    l := Wide(c);
    WideOk(c);
    var v1, n1, o1 := Fill(l, first, c, l.size);
    view, inodes, owner := Sized(v1, n1, l, o1, first, c);
    StateOwns(view, inodes, l, owner);
    FileFilled(view, inodes, owner, first, c);
    FreeHoles(view, inodes, owner, first, c);
    HolesSize(c, c + 1, l);
  }

  lemma StateOwns(view: seq<Block>, inodes: seq<Inode>, l: Layout, owner: Owner)
    requires State(view, inodes, l, owner)
    ensures Owns(view, inodes, l, owner, {}, {}) && LayoutOk(l) && |view| == l.size
  {
  }

  /** File 0 made to end in its last block. */
  lemma Sized(view: seq<Block>, inodes: seq<Inode>, l: Layout, owner: Owner, first: nat, c: nat) returns (view': seq<Block>, inodes': seq<Inode>, owner': Owner)
    requires c < MAXFILE && l == Wide(c) && State(view, inodes, l, owner) && |inodes| > 0 && first < NDIRECT
    requires FullTo(l, first, c, l.size, owner)
    ensures State(view', inodes', l, owner') && FullTo(l, first, c, l.size, owner')
    ensures |inodes'| == |inodes| && inodes'[0].size == first * BSIZE + 1
  {
    hide Owns, FullTo, Addr, Below, Wide, FilesOk;
    FileFilled(view, inodes, owner, first, c);
    var ino := inodes[0].(size := first * BSIZE + 1);
    forall n | 0 <= n < MAXFILE && n * BSIZE < ino.size
      ensures Addr(view, ino, FileSlot(n)) != 0
    {
      SlotFilled(view, inodes[0], n);
      AddrOfSized(view, inodes[0], ino.size, n);
    }
    owner' := owner;
    ResizeKeeps(view, inodes, l, owner, 0, ino.size);
    inodes' := inodes[0 := ino];
    hide Synced;
    OwnsSizes(view, inodes, l, owner);
    SyncedExcept(view, inodes, l, 0);
    SyncedResized(view, inodes, l, 0, ino);
    view' := Update(view, inodes', l, owner, 0);
  }

  lemma SyncedExcept(view: seq<Block>, inodes: seq<Inode>, l: Layout, i: nat)
    requires LayoutOk(l) && |view| == l.size && Synced(view, inodes, l, -1)
    ensures Synced(view, inodes, l, i)
  {
    hide Dinode;
  }

  /** On such a disk the write of a full chunk logs exactly MAXOPBLOCKS blocks. */
  method FullChunk(f: OpenFile, s: seq<byte>, readable: nat, ghost first: nat, ghost c: nat) returns (w: WriteResult)
    requires Tight(f.fs.view, f.fs.inodes, f.fs.l, f.fs.owner, f.inum, f.off, first, c)
    requires f.maxop == 2 * c + 4 && |s| == c * BSIZE <= readable
    modifies f`off, f.fs`view, f.fs`inodes, f.fs`owner, f.fs`logged
    ensures w == Wrote(|s|) && |f.fs.logged| == f.maxop
  {
    hide Tight, Owns, FilesOk, Synced, Filled, FreeBlocks, Grew, AllocLog, FileBlocks, Missing, Contents, SameFiles, Overlay, Touched, Visited,
         WantedRange;
    ghost var v0, n0, o0, off, got := f.fs.view, f.fs.inodes, f.fs.owner, f.off, 0;
    TightNow(v0, n0, f.fs.l, o0, f.inum, off, first, c, readable);
    w, got := f.WriteOnce(s, readable);
    TightLog(v0, n0, f.fs.l, o0, f.inum, off, first, c, f.fs.view, f.fs.inodes, f.fs.owner, f.fs.inodes[f.inum].addrs[NDIRECT], f.fs.logged);
  }

  lemma TightNow(view: seq<Block>, inodes: seq<Inode>, l: Layout, owner: Owner, i: nat, off: nat, first: nat, c: nat, readable: nat)
    requires Tight(view, inodes, l, owner, i, off, first, c) && c * BSIZE <= readable
    ensures State(view, inodes, l, owner) && LayoutOk(l) && |view| == l.size && i < |inodes| && |inodes[i].addrs| == NDIRECT + 1
    ensures c > 0 && off / BSIZE == first && off <= inodes[i].size && off + c * BSIZE <= MAXFILE * BSIZE
    ensures Missing(view, inodes[i], off, c * BSIZE, readable) == |FreeBlocks(view, l)|
    ensures Touched(off, c * BSIZE) == c + 1 == Visited(off, c * BSIZE, readable)
  {
    hide FilesOk, Synced, Filled, FreeBlocks, BitmapOf, Below, WantedRange, Touched, Lacking;
    TightTouches(off, first, c);
    TightNeeds(first, c);
  }

  lemma TightTouches(off: nat, first: nat, c: nat)
    requires off / BSIZE == first && off % BSIZE != 0 && c > 0
    ensures Touched(off, c * BSIZE) == c + 1 && off + c * BSIZE < (first + c + 1) * BSIZE
  {
  }
}
