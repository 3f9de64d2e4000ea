// File system state on the logical disk contents: the free-block bitmap, the block map of each
// inode, which slot owns each block, and the bytes of each file.
module FsState {
  import opened Bits
  import opened Blocks
  import opened Counting

  const BPB: nat := 8192        // bitmap bits per block
  const NDIRECT: nat := 12
  const NINDIRECT: nat := 256
  const MAXFILE: nat := NDIRECT + NINDIRECT
  const SLOTS: nat := NDIRECT + 1 + NINDIRECT
  const IPB: nat := 16          // inodes per block

  /** The parts of the superblock: blocks below nmeta are boot block, superblock, log, inodes and bitmap. */
  datatype Layout = Layout(size: nat, nmeta: nat, ninodes: nat, inodestart: nat, bmapstart: nat)

  predicate LayoutOk(l: Layout) {
    && 0 < l.nmeta <= l.size < 0x1_0000_0000
    && 0 < l.inodestart
    && l.inodestart + l.ninodes / IPB < l.bmapstart
    && l.bmapstart + l.size / BPB < l.nmeta
  }

  function BBlock(l: Layout, b: nat): nat { b / BPB + l.bmapstart }
  function IBlock(l: Layout, inum: nat): nat { inum / IPB + l.inodestart }

  // ---- The bitmap -----------------------------------------------------------------------------

  function Flipped(x: byte, k: nat): (r: byte)
    requires k < 8
    ensures forall j :: Bit(r, j) <==> (Bit(x, j) != (j == k))
  {
    MaskedFlip(x, k);
    if Bit(x, k) then x - Mask(k) else x + Mask(k)
  }

  lemma MaskedFlip(x: byte, k: nat)
    requires k < 8
    ensures Bit(x, k) ==> 0 <= x - Mask(k) && forall j: nat :: Bit(x - Mask(k), j) <==> (Bit(x, j) != (j == k))
    ensures !Bit(x, k) ==> x + Mask(k) < 256 && forall j: nat :: Bit(x + Mask(k), j) <==> (Bit(x, j) != (j == k))
  {
    assert Mask(8) == 256 by { assert Mask(4) == 16; }
    MaskedBit(x, k, k);
    if !Bit(x, k) {
      MaskedByte(x, k, 8);
    }
    forall j: nat
      ensures Bit(x, k) ==> (Bit(x - Mask(k), j) <==> (Bit(x, j) != (j == k)))
      ensures !Bit(x, k) ==> (Bit(x + Mask(k), j) <==> (Bit(x, j) != (j == k)))
    {
      MaskedBit(x, k, j);
    }
  }

  predicate BitSet(view: seq<Block>, l: Layout, b: nat)
    requires LayoutOk(l) && |view| == l.size && b < l.size
  {
    var bi := b % BPB;
    Bit(view[BBlock(l, b)][bi / 8], bi % 8)
  }

  /** The bitmap with block b's bit changed. */
  function FlipBit(view: seq<Block>, l: Layout, b: nat): (r: seq<Block>)
    requires LayoutOk(l) && |view| == l.size && b < l.size
  {
    var bi := b % BPB;
    var data := view[BBlock(l, b)];
    view[BBlock(l, b) := data[bi / 8 := Flipped(data[bi / 8], bi % 8)]]
  }

  lemma FlipBitAt(view: seq<Block>, l: Layout, b: nat, c: nat)
    requires LayoutOk(l) && |view| == l.size && b < l.size && c < l.size
    ensures BitSet(FlipBit(view, l, b), l, c) <==> (BitSet(view, l, c) != (b == c))
  {
    var bi, ci := b % BPB, c % BPB;
    hide Bit, Flipped;
    if BBlock(l, b) == BBlock(l, c) && bi / 8 == ci / 8 {
      assert b == c <==> bi % 8 == ci % 8;
    }
  }

  // ---- Block maps and ownership ---------------------------------------------------------------

  type ushort = x: int | 0 <= x < 0x1_0000

  /** The fields of an inode that are kept on disk. */
  datatype Inode = Inode(size: nat, addrs: seq<nat>, kind: ushort, major: ushort, minor: ushort, nlink: ushort)

  /** The block in a slot of an inode: slots up to NDIRECT are addrs[], the others are the entries
      of the indirect block. 0 is none. */
  function Addr(view: seq<Block>, ino: Inode, s: nat): nat
    requires |ino.addrs| == NDIRECT + 1 && s < SLOTS
  {
    if s <= NDIRECT then ino.addrs[s]
    else if 0 < ino.addrs[NDIRECT] < |view| then Word(view[ino.addrs[NDIRECT]], s - NDIRECT - 1)
    else 0
  }

  /** The slot of the n-th block of a file. */
  function FileSlot(n: nat): nat {
    if n < NDIRECT then n else n + 1
  }

  lemma FileSlotBound(n: nat)
    requires n < MAXFILE
    ensures FileSlot(n) < SLOTS
  {
  }

  type Owner = map<nat, (nat, nat)>

  ghost predicate InodesOk(inodes: seq<Inode>) {
    forall i :: 0 <= i < |inodes| ==> |inodes[i].addrs| == NDIRECT + 1
  }

  /** Every nonempty slot is recorded as its block's owner, and every owner's slot holds the block.
      `dead` slots are about to be cleared and do not count. */
  ghost predicate Mapped(view: seq<Block>, inodes: seq<Inode>, owner: Owner, dead: set<(nat, nat)>)
    requires InodesOk(inodes)
  {
    && (forall i, s :: 0 <= i < |inodes| && 0 <= s < SLOTS && (i, s) !in dead && Addr(view, inodes[i], s) != 0 ==>
          Addr(view, inodes[i], s) in owner && owner[Addr(view, inodes[i], s)] == (i, s))
    && (forall b :: b in owner ==>
          && owner[b].0 < |inodes| && owner[b].1 < SLOTS && owner[b] !in dead
          && b != 0 && Addr(view, inodes[owner[b].0], owner[b].1) == b)
  }

  /** A bit is set exactly for metadata, owned blocks, and blocks just allocated (`pend`). */
  ghost predicate Marked(view: seq<Block>, l: Layout, owner: Owner, pend: set<nat>)
    requires LayoutOk(l) && |view| == l.size
  {
    && (forall b :: b in owner ==> l.nmeta <= b < l.size && b !in pend)
    && (forall b :: b in pend ==> l.nmeta <= b < l.size)
    && (forall b :: 0 <= b < l.size ==> (BitSet(view, l, b) <==> b < l.nmeta || b in owner || b in pend))
  }

  ghost predicate Owns(view: seq<Block>, inodes: seq<Inode>, l: Layout, owner: Owner, pend: set<nat>, dead: set<(nat, nat)>) {
    && LayoutOk(l) && |view| == l.size
    && InodesOk(inodes)
    && Mapped(view, inodes, owner, dead)
    && Marked(view, l, owner, pend)
  }

  /** Indirect blocks are the only ones whose contents matter to the block maps. */
  lemma AddrsSame(view: seq<Block>, view': seq<Block>, inodes: seq<Inode>, owner: Owner, dead: set<(nat, nat)>)
    requires InodesOk(inodes) && Mapped(view, inodes, owner, dead) && |view'| == |view|
    requires forall i :: 0 <= i < |inodes| ==> (i, NDIRECT) !in dead
    requires forall b :: b in owner && b < |view| && owner[b].1 == NDIRECT ==> view'[b] == view[b]
    ensures forall i, s :: 0 <= i < |inodes| && 0 <= s < SLOTS ==> Addr(view', inodes[i], s) == Addr(view, inodes[i], s)
    ensures Mapped(view', inodes, owner, dead)
  {
    forall i, s | 0 <= i < |inodes| && 0 <= s < SLOTS
      ensures Addr(view', inodes[i], s) == Addr(view, inodes[i], s)
    {
      var x := inodes[i].addrs[NDIRECT];
      assert x == Addr(view, inodes[i], NDIRECT);
      if 0 < x < |view| {
        assert owner[x] == (i, NDIRECT);
      }
    }
  }

  /** Taking a free block: its bit is set and it is zeroed; no slot names it yet. */
  function Allocated(view: seq<Block>, l: Layout, b: nat): seq<Block>
    requires LayoutOk(l) && |view| == l.size && b < l.size
  {
    FlipBit(view, l, b)[b := ZeroBlock()]
  }

  lemma AllocatedZero(view: seq<Block>, l: Layout, b: nat)
    requires LayoutOk(l) && |view| == l.size && b < l.size
    ensures |Allocated(view, l, b)| == l.size && Allocated(view, l, b)[b] == ZeroBlock()
  {
  }

  lemma BitSetFrame(view: seq<Block>, view': seq<Block>, l: Layout)
    requires LayoutOk(l) && |view| == l.size == |view'|
    requires forall b :: l.bmapstart <= b < l.nmeta ==> view'[b] == view[b]
    ensures forall b :: 0 <= b < l.size ==> (BitSet(view', l, b) <==> BitSet(view, l, b))
  {
    forall b | 0 <= b < l.size
      ensures BitSet(view', l, b) <==> BitSet(view, l, b)
    {
      assert l.bmapstart <= BBlock(l, b) < l.nmeta;
    }
  }

  /** The marks depend on the metadata blocks only. */
  lemma MarkedSame(view: seq<Block>, view': seq<Block>, l: Layout, owner: Owner, pend: set<nat>)
    requires LayoutOk(l) && |view| == l.size == |view'| && Marked(view, l, owner, pend)
    requires forall b :: l.bmapstart <= b < l.nmeta ==> view'[b] == view[b]
    ensures Marked(view', l, owner, pend)
  {
    hide BitSet;
    BitSetFrame(view, view', l);
  }

  lemma AllocateMarks(view: seq<Block>, l: Layout, owner: Owner, pend: set<nat>, b: nat)
    requires LayoutOk(l) && |view| == l.size && Marked(view, l, owner, pend) && b < l.size && !BitSet(view, l, b)
    ensures Marked(Allocated(view, l, b), l, owner, pend + {b}) && l.nmeta <= b && b !in owner && b !in pend
    ensures forall x :: 0 <= x < l.size && x != b && x != BBlock(l, b) ==> Allocated(view, l, b)[x] == view[x]
    ensures l.bmapstart <= BBlock(l, b) < l.nmeta
  {
    hide BitSet, Flipped;
    BitSetFrame(FlipBit(view, l, b), Allocated(view, l, b), l);
    forall c | 0 <= c < l.size
      ensures BitSet(Allocated(view, l, b), l, c) <==> BitSet(view, l, c) || c == b
    {
      FlipBitAt(view, l, b, c);
    }
  }

  lemma AllocateKeeps(view: seq<Block>, inodes: seq<Inode>, l: Layout, owner: Owner, pend: set<nat>, b: nat)
    requires Owns(view, inodes, l, owner, pend, {}) && b < l.size && !BitSet(view, l, b)
    ensures Owns(Allocated(view, l, b), inodes, l, owner, pend + {b}, {}) && l.nmeta <= b && b !in owner
    ensures forall x :: 0 <= x < l.size && x != b && x != BBlock(l, b) ==> Allocated(view, l, b)[x] == view[x]
    ensures l.bmapstart <= BBlock(l, b) < l.nmeta
    ensures Extends(view, inodes, owner, Allocated(view, l, b), inodes, owner)
    ensures forall i, s :: 0 <= i < |inodes| && 0 <= s < SLOTS ==> Addr(Allocated(view, l, b), inodes[i], s) == Addr(view, inodes[i], s)
  {
    AllocateMarks(view, l, owner, pend, b);
    OwnedIsData(view, l, owner, pend);
    hide Marked, Mapped, BitSet, Allocated, Addr;
    AddrsSame(view, Allocated(view, l, b), inodes, owner, {});
  }

  lemma OwnedIsData(view: seq<Block>, l: Layout, owner: Owner, pend: set<nat>)
    requires LayoutOk(l) && |view| == l.size && Marked(view, l, owner, pend)
    ensures forall b :: b in owner ==> l.nmeta <= b < l.size
  {
  }

  lemma AttachMarks(view: seq<Block>, l: Layout, owner: Owner, pend: set<nat>, b: nat, p: (nat, nat))
    requires LayoutOk(l) && |view| == l.size && Marked(view, l, owner, pend) && b in pend
    ensures Marked(view, l, owner[b := p], pend - {b}) && b !in owner && l.nmeta <= b < l.size
  {
    hide BitSet;
  }

  lemma MappedAttach(view: seq<Block>, inodes: seq<Inode>, owner: Owner, view': seq<Block>, inodes': seq<Inode>, i: nat, s: nat, b: nat)
    requires InodesOk(inodes) && InodesOk(inodes') && Mapped(view, inodes, owner, {})
    requires |inodes'| == |inodes| && i < |inodes| && s < SLOTS && Addr(view, inodes[i], s) == 0 && b != 0 && b !in owner
    requires forall k, t :: 0 <= k < |inodes| && 0 <= t < SLOTS ==>
               Addr(view', inodes'[k], t) == if k == i && t == s then b else Addr(view, inodes[k], t)
    requires |view'| == |view| && forall k :: 0 <= k < |inodes| ==> inodes'[k].size == inodes[k].size
    requires forall x :: x in owner && x < |view| && owner[x].1 != NDIRECT ==> view'[x] == view[x]
    ensures Mapped(view', inodes', owner[b := (i, s)], {})
    ensures Extends(view, inodes, owner, view', inodes', owner[b := (i, s)])
  {
    hide Addr;
  }

  /** Storing a just allocated block in an empty slot of addrs[]. */
  lemma AttachKeeps(view: seq<Block>, inodes: seq<Inode>, l: Layout, owner: Owner, pend: set<nat>, i: nat, s: nat, b: nat)
    requires Owns(view, inodes, l, owner, pend, {}) && b in pend
    requires i < |inodes| && s <= NDIRECT && inodes[i].addrs[s] == 0
    requires s == NDIRECT ==> view[b] == ZeroBlock()
    ensures var inodes' := inodes[i := inodes[i].(addrs := inodes[i].addrs[s := b])];
            && Owns(view, inodes', l, owner[b := (i, s)], pend - {b}, {})
            && Extends(view, inodes, owner, view, inodes', owner[b := (i, s)])
  {
    AttachMarks(view, l, owner, pend, b, (i, s));
    var inodes' := inodes[i := inodes[i].(addrs := inodes[i].addrs[s := b])];
    hide BitSet, Word, Marked, Mapped, Extends;
    forall k, t | 0 <= k < |inodes| && 0 <= t < SLOTS
      ensures Addr(view, inodes'[k], t) == if k == i && t == s then b else Addr(view, inodes[k], t)
    {
      if k == i && s == NDIRECT && t > NDIRECT {
        WordOfZero(t - NDIRECT - 1);
      }
    }
    MappedAttach(view, inodes, owner, view, inodes', i, s, b);
  }

  lemma EntryAddr(view: seq<Block>, ino: Inode, j: nat, b: uint, t: nat)
    requires |ino.addrs| == NDIRECT + 1 && j < NINDIRECT && 0 < ino.addrs[NDIRECT] < |view| && t < SLOTS
    ensures var x := ino.addrs[NDIRECT];
            Addr(view[x := WithWord(view[x], j, b)], ino, t) == if t == NDIRECT + 1 + j then b else Addr(view, ino, t)
  {
    hide Word, WithWord;
    if t > NDIRECT {
      WordOfWithWord(view[ino.addrs[NDIRECT]], j, b, t - NDIRECT - 1);
    }
  }

  lemma OtherAddr(view: seq<Block>, ino: Inode, x: nat, data: Block, t: nat)
    requires |ino.addrs| == NDIRECT + 1 && x < |view| && ino.addrs[NDIRECT] != x && t < SLOTS
    ensures Addr(view[x := data], ino, t) == Addr(view, ino, t)
  {
  }

  /** Storing a just allocated block in an empty entry of the indirect block. */
  lemma AttachEntryKeeps(view: seq<Block>, inodes: seq<Inode>, l: Layout, owner: Owner, pend: set<nat>, i: nat, j: nat, b: nat, x: nat)
    requires Owns(view, inodes, l, owner, pend, {}) && b in pend
    requires i < |inodes| && j < NINDIRECT && x == inodes[i].addrs[NDIRECT] != 0
    requires Addr(view, inodes[i], NDIRECT + 1 + j) == 0
    ensures x < l.size && b < l.size
    ensures Owns(view[x := WithWord(view[x], j, b)], inodes, l, owner[b := (i, NDIRECT + 1 + j)], pend - {b}, {})
    ensures Extends(view, inodes, owner, view[x := WithWord(view[x], j, b)], inodes, owner[b := (i, NDIRECT + 1 + j)])
  {
    AttachMarks(view, l, owner, pend, b, (i, NDIRECT + 1 + j));
    OwnedIsData(view, l, owner, pend);
    IndirectOwned(view, inodes, owner);
    var view' := view[x := WithWord(view[x], j, b)];
    hide BitSet, WithWord, Marked, Mapped, Extends, Addr;
    MarkedSame(view, view', l, owner[b := (i, NDIRECT + 1 + j)], pend - {b});
    forall k, t | 0 <= k < |inodes| && 0 <= t < SLOTS
      ensures Addr(view', inodes[k], t) == if k == i && t == NDIRECT + 1 + j then b else Addr(view, inodes[k], t)
    {
      if k == i {
        EntryAddr(view, inodes[i], j, b, t);
      } else {
        OtherAddr(view, inodes[k], x, view'[x], t);
      }
    }
    MappedAttach(view, inodes, owner, view', inodes, i, NDIRECT + 1 + j, b);
  }

  lemma IndirectOwned(view: seq<Block>, inodes: seq<Inode>, owner: Owner)
    requires InodesOk(inodes) && Mapped(view, inodes, owner, {})
    ensures forall i :: 0 <= i < |inodes| && inodes[i].addrs[NDIRECT] != 0 ==>
              inodes[i].addrs[NDIRECT] in owner && owner[inodes[i].addrs[NDIRECT]] == (i, NDIRECT)
  {
    forall i | 0 <= i < |inodes|
      ensures inodes[i].addrs[NDIRECT] == Addr(view, inodes[i], NDIRECT)
    {
    }
  }

  lemma MappedDrop(view: seq<Block>, inodes: seq<Inode>, owner: Owner, dead: set<(nat, nat)>, b: nat)
    requires InodesOk(inodes) && Mapped(view, inodes, owner, dead) && b in owner
    ensures Mapped(view, inodes, owner - {b}, dead + {owner[b]})
  {
    hide Addr;
  }

  /** Clearing a block's bit leaves its slot dangling. */
  lemma FreeKeeps(view: seq<Block>, inodes: seq<Inode>, l: Layout, owner: Owner, dead: set<(nat, nat)>, b: nat)
    requires Owns(view, inodes, l, owner, {}, dead) && b in owner
    requires forall i :: 0 <= i < |inodes| ==> (i, NDIRECT) !in dead
    ensures b < l.size && BitSet(view, l, b)
    ensures Owns(FlipBit(view, l, b), inodes, l, owner - {b}, {}, dead + {owner[b]})
    ensures forall x :: l.nmeta <= x < l.size ==> FlipBit(view, l, b)[x] == view[x]
  {
    FreeMarks(view, l, owner, b);
    OwnedIsData(view, l, owner, {});
    hide Marked, Mapped, BitSet, FlipBit, Addr;
    AddrsSame(view, FlipBit(view, l, b), inodes, owner, dead);
    MappedDrop(FlipBit(view, l, b), inodes, owner, dead, b);
  }

  lemma FreeMarks(view: seq<Block>, l: Layout, owner: Owner, b: nat)
    requires LayoutOk(l) && |view| == l.size && Marked(view, l, owner, {}) && b in owner
    ensures b < l.size && BitSet(view, l, b) && |FlipBit(view, l, b)| == l.size
    ensures Marked(FlipBit(view, l, b), l, owner - {b}, {})
    ensures forall x :: l.nmeta <= x < l.size ==> FlipBit(view, l, b)[x] == view[x]
  {
    hide BitSet, Flipped;
    forall c | 0 <= c < l.size
      ensures BitSet(FlipBit(view, l, b), l, c) <==> (BitSet(view, l, c) && c != b)
    {
      FlipBitAt(view, l, b, c);
    }
  }

  lemma ClearSlotKeeps(view: seq<Block>, inodes: seq<Inode>, l: Layout, owner: Owner, i: nat, s: nat)
    requires i < |inodes| && s < NDIRECT && Owns(view, inodes, l, owner, {}, {(i, s)})
    ensures Owns(view, inodes[i := inodes[i].(addrs := inodes[i].addrs[s := 0])], l, owner, {}, {})
  {
    hide BitSet, Word;
    var inodes' := inodes[i := inodes[i].(addrs := inodes[i].addrs[s := 0])];
    forall k, t | 0 <= k < |inodes| && 0 <= t < SLOTS
      ensures Addr(view, inodes'[k], t) == if k == i && t == s then 0 else Addr(view, inodes[k], t)
    {
    }
  }

  /** Every slot of inode i from `from` on is dangling or empty. */
  ghost predicate DeadFrom(view: seq<Block>, ino: Inode, i: nat, from: nat, dead: set<(nat, nat)>)
    requires |ino.addrs| == NDIRECT + 1
  {
    && (forall t :: from <= t < SLOTS ==> (i, t) in dead || Addr(view, ino, t) == 0)
    && (forall p :: p in dead ==> p.0 == i && p.1 >= from)
  }

  lemma ClearIndirectKeeps(view: seq<Block>, inodes: seq<Inode>, l: Layout, owner: Owner, dead: set<(nat, nat)>, i: nat)
    requires Owns(view, inodes, l, owner, {}, dead) && i < |inodes| && DeadFrom(view, inodes[i], i, NDIRECT, dead)
    ensures Owns(view, inodes[i := inodes[i].(addrs := inodes[i].addrs[NDIRECT := 0])], l, owner, {}, {})
  {
    hide BitSet, Word;
    var inodes' := inodes[i := inodes[i].(addrs := inodes[i].addrs[NDIRECT := 0])];
    forall k, t | 0 <= k < |inodes| && 0 <= t < SLOTS
      ensures Addr(view, inodes'[k], t) == if k == i && t >= NDIRECT then 0 else Addr(view, inodes[k], t)
    {
    }
  }

  // ---- File contents --------------------------------------------------------------------------

  function FileByte(view: seq<Block>, ino: Inode, o: nat): byte
    requires |ino.addrs| == NDIRECT + 1 && o < MAXFILE * BSIZE
  {
    var b := Addr(view, ino, FileSlot(o / BSIZE));
    if 0 < b < |view| then view[b][o % BSIZE] else 0
  }

  ghost predicate FileOk(view: seq<Block>, ino: Inode) {
    && |ino.addrs| == NDIRECT + 1
    && ino.size <= MAXFILE * BSIZE
    && (forall n :: 0 <= n < MAXFILE && n * BSIZE < ino.size ==> Addr(view, ino, FileSlot(n)) != 0)
  }

  /** The bytes of a file. */
  function Contents(view: seq<Block>, ino: Inode): (c: seq<byte>)
    requires |ino.addrs| == NDIRECT + 1 && ino.size <= MAXFILE * BSIZE
    ensures |c| == ino.size
  {
    seq(ino.size, o requires 0 <= o < ino.size => FileByte(view, ino, o))
  }

  /** A change that spares a file's blocks spares its contents. */
  lemma ContentsSame(view: seq<Block>, view': seq<Block>, inodes: seq<Inode>, owner: Owner, i: nat, ino: Inode)
    requires InodesOk(inodes) && Mapped(view, inodes, owner, {}) && |view'| == |view| && i < |inodes|
    requires ino.addrs == inodes[i].addrs && ino.size <= MAXFILE * BSIZE
    requires forall b :: b in owner && b < |view| && owner[b].0 == i ==> view'[b] == view[b]
    ensures Contents(view', ino) == Contents(view, ino)
    ensures FileOk(view, ino) ==> FileOk(view', ino)
  {
    hide Word;
    forall s | 0 <= s < SLOTS
      ensures Addr(view', ino, s) == Addr(view, ino, s)
      ensures var b := Addr(view, ino, s); 0 < b < |view| ==> view'[b] == view[b]
    {
      var x := inodes[i].addrs[NDIRECT];
      assert x == Addr(view, inodes[i], NDIRECT);
      assert Addr(view, inodes[i], s) == Addr(view, ino, s);
    }
    forall o | 0 <= o < ino.size
      ensures FileByte(view', ino, o) == FileByte(view, ino, o)
    {
      assert FileSlot(o / BSIZE) < SLOTS;
    }
  }

  /** c with s laid over it at off, which may be at the end or reach past it. */
  function Overlay(c: seq<byte>, off: nat, s: seq<byte>): (r: seq<byte>)
    requires off <= |c|
    ensures |r| == if off + |s| < |c| then |c| else off + |s|
  {
    c[..off] + s + if off + |s| < |c| then c[off + |s|..] else []
  }

  /** New bytes in a data block change no block map. */
  lemma WriteKeeps(view: seq<Block>, inodes: seq<Inode>, l: Layout, owner: Owner, b: nat, data: Block)
    requires Owns(view, inodes, l, owner, {}, {}) && b in owner && owner[b].1 != NDIRECT
    ensures l.nmeta <= b < l.size && Owns(view[b := data], inodes, l, owner, {}, {})
    ensures forall i, s :: 0 <= i < |inodes| && 0 <= s < SLOTS ==> Addr(view[b := data], inodes[i], s) == Addr(view, inodes[i], s)
  {
    OwnedIsData(view, l, owner, {});
    hide BitSet, Word, Addr, Marked, Mapped;
    AddrsSame(view, view[b := data], inodes, owner, {});
    MarkedSame(view, view[b := data], l, owner, {});
  }

  function Extended(ino: Inode, size: nat): Inode {
    if size > ino.size then ino.(size := size) else ino
  }

  /** Overwriting part of one block of a file, possibly making the file longer. */
  lemma WriteContents(view: seq<Block>, inodes: seq<Inode>, l: Layout, owner: Owner, i: nat, ino: Inode, b: nat, off: nat, s: seq<byte>)
    requires Owns(view, inodes, l, owner, {}, {}) && i < |inodes|
    requires ino.addrs == inodes[i].addrs && ino.size <= MAXFILE * BSIZE
    requires off <= ino.size && off < MAXFILE * BSIZE && off % BSIZE + |s| <= BSIZE
    requires b == Addr(view, ino, FileSlot(off / BSIZE)) != 0
    ensures b in owner && owner[b] == (i, FileSlot(off / BSIZE)) && b < l.size && off + |s| <= MAXFILE * BSIZE
    ensures Contents(view[b := Patched(view[b], off % BSIZE, s)], Extended(ino, off + |s|)) == Overlay(Contents(view, ino), off, s)
  {
    assert b == Addr(view, inodes[i], FileSlot(off / BSIZE));
    OwnedIsData(view, l, owner, {});
    var view' := view[b := Patched(view[b], off % BSIZE, s)];
    WriteKeeps(view, inodes, l, owner, b, Patched(view[b], off % BSIZE, s));
    var ino' := Extended(ino, off + |s|);
    var c, c' := Overlay(Contents(view, ino), off, s), Contents(view', ino');
    forall o | 0 <= o < ino'.size
      ensures c'[o] == c[o]
    {
      WriteByte(view, view', inodes, l, owner, i, ino, ino', b, off, s, o);
      if off <= o < off + |s| {
        assert c[o] == s[o - off];
      } else {
        assert c[o] == Contents(view, ino)[o];
      }
    }
  }

  lemma WriteByte(view: seq<Block>, view': seq<Block>, inodes: seq<Inode>, l: Layout, owner: Owner, i: nat, ino: Inode, ino': Inode,
                  b: nat, off: nat, s: seq<byte>, o: nat)
    requires Owns(view, inodes, l, owner, {}, {}) && i < |inodes|
    requires ino.addrs == ino'.addrs == inodes[i].addrs
    requires off < MAXFILE * BSIZE && off % BSIZE + |s| <= BSIZE && o < MAXFILE * BSIZE
    requires b == Addr(view, ino, FileSlot(off / BSIZE)) != 0 && b < |view|
    requires view' == view[b := Patched(view[b], off % BSIZE, s)]
    requires forall t :: 0 <= t < SLOTS ==> Addr(view', inodes[i], t) == Addr(view, inodes[i], t)
    ensures FileByte(view', ino', o) == if off <= o < off + |s| then s[o - off] else FileByte(view, ino, o)
  {
    hide BitSet, Word, Marked;
    var t := FileSlot(o / BSIZE);
    assert Addr(view', ino', t) == Addr(view', inodes[i], t) && Addr(view, ino, t) == Addr(view, inodes[i], t);
    assert Addr(view, ino, FileSlot(off / BSIZE)) == Addr(view, inodes[i], FileSlot(off / BSIZE));
    if o / BSIZE == off / BSIZE {
      assert o - off == o % BSIZE - off % BSIZE;
    } else {
      assert t != FileSlot(off / BSIZE);
      assert !(off <= o < off + |s|);
    }
  }

  function Patched(b: Block, at: nat, s: seq<byte>): (r: Block)
    requires at + |s| <= BSIZE
  {
    b[..at] + s + b[at + |s|..]
  }

  // ---- On-disk inodes -------------------------------------------------------------------------

  /** Inode inum as stored in its block: two words of four shorts, then size, then addrs[]. */
  function Dinode(data: Block, inum: nat): Inode {
    var base := 16 * (inum % IPB);
    var w0, w1 := Word(data, base), Word(data, base + 1);
    Inode(Word(data, base + 2), StoredAddrs(data, base), w0 % 0x1_0000, w0 / 0x1_0000, w1 % 0x1_0000, w1 / 0x1_0000)
  }

  function StoredAddrs(data: Block, base: nat): seq<nat>
    requires base + 16 <= WORDS
  {
    seq(NDIRECT + 1, k requires 0 <= k < NDIRECT + 1 => StoredAddr(data, base, k))
  }

  function StoredAddr(data: Block, base: nat, k: nat): nat
    requires base + 16 <= WORDS && k <= NDIRECT
  {
    Word(data, base + 3 + k)
  }

  function WithAddrs(data: Block, base: nat, addrs: seq<nat>, k: nat): (r: Block)
    requires base + 16 <= WORDS && |addrs| == NDIRECT + 1 && k <= |addrs|
    requires forall k :: 0 <= k < |addrs| ==> addrs[k] < 0x1_0000_0000
  {
    if k == 0 then data else WithWord(WithAddrs(data, base, addrs, k-1), base + 2 + k, addrs[k-1])
  }

  function WithInode(data: Block, inum: nat, ino: Inode): (r: Block)
    requires |ino.addrs| == NDIRECT + 1 && ino.size < 0x1_0000_0000
    requires forall k :: 0 <= k < |ino.addrs| ==> ino.addrs[k] < 0x1_0000_0000
  {
    var base := 16 * (inum % IPB);
    var head := WithWord(WithWord(data, base, ino.kind + 0x1_0000 * ino.major), base + 1, ino.minor + 0x1_0000 * ino.nlink);
    WithAddrs(WithWord(head, base + 2, ino.size), base, ino.addrs, NDIRECT + 1)
  }

  lemma {:induction false} WordOfWithAddrs(data: Block, base: nat, addrs: seq<nat>, k: nat, j: nat)
    requires base + 16 <= WORDS && |addrs| == NDIRECT + 1 && k <= |addrs| && j < WORDS
    requires forall k :: 0 <= k < |addrs| ==> addrs[k] < 0x1_0000_0000
    ensures Word(WithAddrs(data, base, addrs, k), j) == if base + 3 <= j < base + 3 + k then addrs[j - base - 3] else Word(data, j)
  {
    hide Word, WithWord;
    if k > 0 {
      WordOfWithAddrs(data, base, addrs, k-1, j);
      WordOfWithWord(WithAddrs(data, base, addrs, k-1), base + 2 + k, addrs[k-1], j);
    }
  }

  /** The 32-bit number stored in bytes o to o+3. */
  function NumberAt(b: Block, o: nat): nat
    requires o + 4 <= BSIZE
  {
    ShortAt(b, o) + 0x1_0000 * ShortAt(b, o + 2)
  }

  function ShortAt(b: Block, o: nat): nat
    requires o + 2 <= BSIZE
  {
    var lo: int, hi: int := b[o], b[o + 1];
    lo + 0x100 * hi
  }

  lemma WordBytes(b: Block, i: nat)
    requires i < WORDS
    ensures Word(b, i) == NumberAt(b, 4 * i)
  {
  }

  lemma WordShorts(b: Block, i: nat, lo: nat, hi: nat)
    requires i < WORDS && lo < 0x1_0000 && hi < 0x1_0000 && Word(b, i) == lo + 0x1_0000 * hi
    ensures ShortAt(b, 4 * i) == lo && ShortAt(b, 4 * i + 2) == hi
  {
    WordBytes(b, i);
  }

  /** Where iupdate stores what: inodes of 64 bytes, with four shorts, the size and the addresses. */
  lemma DinodeBytes(data: Block, inum: nat, ino: Inode)
    requires |ino.addrs| == NDIRECT + 1 && ino.size < 0x1_0000_0000
    requires forall k :: 0 <= k < |ino.addrs| ==> ino.addrs[k] < 0x1_0000_0000
    ensures var o, r := 64 * (inum % IPB), WithInode(data, inum, ino);
            && ShortAt(r, o) == ino.kind && ShortAt(r, o + 2) == ino.major && ShortAt(r, o + 4) == ino.minor && ShortAt(r, o + 6) == ino.nlink
            && NumberAt(r, o + 8) == ino.size
            && (forall k :: 0 <= k <= NDIRECT ==> NumberAt(r, o + 12 + 4 * k) == ino.addrs[k])
  {
    hide WithInode, Word, NumberAt, ShortAt;
    var base, r := 16 * (inum % IPB), WithInode(data, inum, ino);
    InodeWords(data, inum, ino);
    WordShorts(r, base, ino.kind, ino.major);
    WordShorts(r, base + 1, ino.minor, ino.nlink);
    WordBytes(r, base + 2);
    forall k | 0 <= k <= NDIRECT
      ensures NumberAt(r, 64 * (inum % IPB) + 12 + 4 * k) == ino.addrs[k]
    {
      WordBytes(r, base + 3 + k);
      assert Word(r, base + 3 + k) == ino.addrs[k];
    }
  }

  lemma InodeWords(data: Block, inum: nat, ino: Inode)
    requires |ino.addrs| == NDIRECT + 1 && ino.size < 0x1_0000_0000
    requires forall k :: 0 <= k < |ino.addrs| ==> ino.addrs[k] < 0x1_0000_0000
    ensures var base := 16 * (inum % IPB);
            forall j :: 0 <= j < WORDS ==>
              Word(WithInode(data, inum, ino), j) ==
              if j == base then ino.kind + 0x1_0000 * ino.major else if j == base + 1 then ino.minor + 0x1_0000 * ino.nlink
              else if j == base + 2 then ino.size else if base + 3 <= j < base + 16 then ino.addrs[j - base - 3] else Word(data, j)
  {
    hide Word, WithWord;
    var base := 16 * (inum % IPB);
    var w0, w1 := ino.kind + 0x1_0000 * ino.major, ino.minor + 0x1_0000 * ino.nlink;
    var typed := WithWord(data, base, w0);
    var head := WithWord(typed, base + 1, w1);
    var sized := WithWord(head, base + 2, ino.size);
    forall j | 0 <= j < WORDS
      ensures Word(WithInode(data, inum, ino), j) ==
              if j == base then w0 else if j == base + 1 then w1 else if j == base + 2 then ino.size
              else if base + 3 <= j < base + 16 then ino.addrs[j - base - 3] else Word(data, j)
    {
      WordOfWithAddrs(sized, base, ino.addrs, NDIRECT + 1, j);
      WordOfWithWord(head, base + 2, ino.size, j);
      WordOfWithWord(typed, base + 1, w1, j);
      WordOfWithWord(data, base, w0, j);
    }
  }

  /** What iupdate stores, ilock reads back, and the other inodes of the block stay as they were. */
  lemma DinodeRoundTrip(data: Block, inum: nat, ino: Inode, k: nat)
    requires |ino.addrs| == NDIRECT + 1 && ino.size < 0x1_0000_0000
    requires forall k :: 0 <= k < |ino.addrs| ==> ino.addrs[k] < 0x1_0000_0000
    requires k / IPB == inum / IPB
    ensures Dinode(WithInode(data, inum, ino), k) == if k == inum then ino else Dinode(data, k)
  {
    hide Word, WithWord, WithInode;
    InodeWords(data, inum, ino);
  }

  /** Every inode but `except` is on disk as it is in memory. */
  ghost predicate Synced(view: seq<Block>, inodes: seq<Inode>, l: Layout, except: int)
    requires LayoutOk(l) && |view| == l.size
  {
    && |inodes| <= l.ninodes
    && (forall i :: 0 <= i < |inodes| && i != except ==> Dinode(view[IBlock(l, i)], i) == inodes[i])
  }

  /** A file system between operations. */
  ghost predicate State(view: seq<Block>, inodes: seq<Inode>, l: Layout, owner: Owner) {
    Owns(view, inodes, l, owner, {}, {}) && FilesOk(view, inodes) && Synced(view, inodes, l, -1)
  }

  // ---- What is written is logged ----------------------------------------------------------------

  /** Only logged blocks have changed. */
  ghost predicate OnlyLogged(view: seq<Block>, view': seq<Block>, logged: set<nat>) {
    |view'| == |view| && forall b :: 0 <= b < |view| && b !in logged ==> view'[b] == view[b]
  }

  lemma OnlyLoggedSame(view: seq<Block>, logged: set<nat>)
    ensures OnlyLogged(view, view, logged)
  {
  }

  lemma OnlyLoggedJoin(v0: seq<Block>, v1: seq<Block>, v2: seq<Block>, g1: set<nat>, g2: set<nat>)
    requires OnlyLogged(v0, v1, g1) && OnlyLogged(v1, v2, g2) && g1 <= g2
    ensures OnlyLogged(v0, v2, g2)
  {
  }

  lemma OnlyLoggedOne(view: seq<Block>, b: nat, data: Block, logged: set<nat>)
    requires b < |view| && b in logged
    ensures OnlyLogged(view, view[b := data], logged)
  {
  }

  lemma AllocatedLogged(view: seq<Block>, l: Layout, b: nat, logged: set<nat>)
    requires LayoutOk(l) && |view| == l.size && b < l.size && b in logged && BBlock(l, b) in logged
    ensures OnlyLogged(view, Allocated(view, l, b), logged)
  {
  }

  // ---- Allocation never disturbs what is there ------------------------------------------------

  /** Owned blocks keep their owners, filled slots their blocks, data blocks their bytes. */
  ghost predicate Extends(view: seq<Block>, inodes: seq<Inode>, owner: Owner, view': seq<Block>, inodes': seq<Inode>, owner': Owner) {
    && |view'| == |view| && |inodes'| == |inodes|
    && InodesOk(inodes) && InodesOk(inodes')
    && (forall b :: b in owner ==> b in owner' && owner'[b] == owner[b])
    && (forall b :: b in owner && b < |view| && owner[b].1 != NDIRECT ==> view'[b] == view[b])
    && (forall i :: 0 <= i < |inodes| ==> inodes'[i].size == inodes[i].size)
    && (forall i, s :: 0 <= i < |inodes| && 0 <= s < SLOTS && Addr(view, inodes[i], s) != 0 ==>
          Addr(view', inodes'[i], s) == Addr(view, inodes[i], s))
  }

  lemma ExtendsTransitive(v: seq<Block>, n: seq<Inode>, o: Owner, v1: seq<Block>, n1: seq<Inode>, o1: Owner, v2: seq<Block>, n2: seq<Inode>, o2: Owner)
    requires Extends(v, n, o, v1, n1, o1) && Extends(v1, n1, o1, v2, n2, o2)
    ensures Extends(v, n, o, v2, n2, o2)
  {
    hide Addr;
  }

  /** Only allocation metadata and data blocks have changed, for inode i's sake. */
  ghost predicate AllocOnly(view: seq<Block>, inodes: seq<Inode>, owner: Owner, view': seq<Block>, inodes': seq<Inode>, owner': Owner, l: Layout, i: nat) {
    && Extends(view, inodes, owner, view', inodes', owner')
    && |inodes'| == |inodes| && |view'| == |view|
    && (i < |inodes| ==> inodes'[i] == inodes[i].(addrs := inodes'[i].addrs))
    && (forall k :: 0 <= k < |inodes| && k != i ==> inodes'[k] == inodes[k])
    && (forall b :: 0 <= b < l.bmapstart && b < |view| ==> view'[b] == view[b])
  }

  lemma AllocOnlySizes(v: seq<Block>, n: seq<Inode>, o: Owner, v1: seq<Block>, n1: seq<Inode>, o1: Owner, l: Layout, i: nat)
    requires AllocOnly(v, n, o, v1, n1, o1, l, i) && i < |n|
    ensures |n1| == |n| && |v1| == |v| && |n1[i].addrs| == NDIRECT + 1
  {
  }

  lemma AllocOnlyJoin(v: seq<Block>, n: seq<Inode>, o: Owner, v1: seq<Block>, n1: seq<Inode>, o1: Owner,
                      v2: seq<Block>, n2: seq<Inode>, o2: Owner, l: Layout, i: nat)
    requires AllocOnly(v, n, o, v1, n1, o1, l, i) && AllocOnly(v1, n1, o1, v2, n2, o2, l, i)
    ensures AllocOnly(v, n, o, v2, n2, o2, l, i) && |n1| == |n| && |n2| == |n| && |v2| == |v|
    ensures i < |n| ==> |n1[i].addrs| == |n2[i].addrs| == NDIRECT + 1 && (n1[i].addrs[NDIRECT] != 0 ==> n2[i].addrs[NDIRECT] == n1[i].addrs[NDIRECT])
  {
    hide Extends;
    ExtendsTransitive(v, n, o, v1, n1, o1, v2, n2, o2);
    if i < |n| {
      IndirectStays(v1, n1, o1, v2, n2, o2, i);
    }
  }

  /** A file read at any size its block map covers is the same before and after. */
  lemma ExtendsContents(view: seq<Block>, inodes: seq<Inode>, l: Layout, owner: Owner, view': seq<Block>, inodes': seq<Inode>, owner': Owner, i: nat, size: nat)
    requires Owns(view, inodes, l, owner, {}, {}) && Extends(view, inodes, owner, view', inodes', owner') && i < |inodes|
    requires FileOk(view, inodes[i].(size := size))
    ensures FileOk(view', inodes'[i].(size := size))
    ensures Contents(view', inodes'[i].(size := size)) == Contents(view, inodes[i].(size := size))
  {
    hide BitSet, Word;
    var ino, ino' := inodes[i].(size := size), inodes'[i].(size := size);
    forall s | 0 <= s < SLOTS && Addr(view, ino, s) != 0
      ensures Addr(view', ino', s) == Addr(view, ino, s)
      ensures s != NDIRECT ==> Addr(view, ino, s) < |view| && view'[Addr(view, ino, s)] == view[Addr(view, ino, s)]
    {
      assert Addr(view, ino, s) == Addr(view, inodes[i], s) && Addr(view', ino', s) == Addr(view', inodes'[i], s);
    }
    forall o | 0 <= o < size
      ensures FileByte(view', ino', o) == FileByte(view, ino, o)
    {
      var s := FileSlot(o / BSIZE);
      assert Addr(view, ino, s) != 0 && s != NDIRECT;
    }
  }

  lemma ExtendsFilesOk(view: seq<Block>, inodes: seq<Inode>, owner: Owner, view': seq<Block>, inodes': seq<Inode>, owner': Owner)
    requires Extends(view, inodes, owner, view', inodes', owner')
    requires forall i :: 0 <= i < |inodes| ==> FileOk(view, inodes[i])
    ensures forall i :: 0 <= i < |inodes| ==> FileOk(view', inodes'[i])
  {
    hide Addr;
    forall i | 0 <= i < |inodes|
      ensures FileOk(view', inodes'[i])
    {
      forall n | 0 <= n < MAXFILE && n * BSIZE < inodes'[i].size
        ensures Addr(view', inodes'[i], FileSlot(n)) != 0
      {
        assert Addr(view, inodes[i], FileSlot(n)) != 0;
      }
    }
  }

  lemma ExtendsReflexive(view: seq<Block>, inodes: seq<Inode>, owner: Owner)
    requires InodesOk(inodes)
    ensures Extends(view, inodes, owner, view, inodes, owner)
  {
  }

  lemma IndirectIsData(view: seq<Block>, inodes: seq<Inode>, l: Layout, owner: Owner, i: nat)
    requires Owns(view, inodes, l, owner, {}, {}) && i < |inodes| && inodes[i].addrs[NDIRECT] != 0
    ensures l.nmeta <= inodes[i].addrs[NDIRECT] < l.size && inodes[i].addrs[NDIRECT] in owner
    ensures owner[inodes[i].addrs[NDIRECT]] == (i, NDIRECT)
  {
    IndirectOwned(view, inodes, owner);
  }

  lemma OwnedBlock(view: seq<Block>, inodes: seq<Inode>, l: Layout, owner: Owner, i: nat, s: nat)
    requires Owns(view, inodes, l, owner, {}, {}) && i < |inodes| && s < SLOTS && Addr(view, inodes[i], s) != 0
    ensures l.nmeta <= Addr(view, inodes[i], s) < l.size && Addr(view, inodes[i], s) in owner
    ensures owner[Addr(view, inodes[i], s)] == (i, s)
  {
  }

  lemma EntryStored(view: seq<Block>, ino: Inode, j: nat, b: uint)
    requires |ino.addrs| == NDIRECT + 1 && j < NINDIRECT && 0 < ino.addrs[NDIRECT] < |view|
    ensures var x := ino.addrs[NDIRECT]; Addr(view[x := WithWord(view[x], j, b)], ino, NDIRECT + 1 + j) == b
  {
    hide Word, WithWord;
    WordOfWithWord(view[ino.addrs[NDIRECT]], j, b, j);
  }

  /** A block below the bitmap holds no block map, no bit and no file data. */
  lemma MetaWriteKeeps(view: seq<Block>, inodes: seq<Inode>, l: Layout, owner: Owner, b: nat, data: Block)
    requires Owns(view, inodes, l, owner, {}, {}) && b < l.bmapstart
    ensures b < l.nmeta <= l.size && Owns(view[b := data], inodes, l, owner, {}, {})
    ensures Extends(view, inodes, owner, view[b := data], inodes, owner)
  {
    assert l.bmapstart < l.nmeta;
    OwnedIsData(view, l, owner, {});
    hide BitSet, Word, Addr, Marked, Mapped;
    AddrsSame(view, view[b := data], inodes, owner, {});
    MarkedSame(view, view[b := data], l, owner, {});
  }

  /** Block numbers and sizes fit the 32-bit fields of an on-disk inode. */
  lemma InodeFits(view: seq<Block>, inodes: seq<Inode>, l: Layout, owner: Owner, i: nat)
    requires Owns(view, inodes, l, owner, {}, {}) && i < |inodes|
    ensures forall k :: 0 <= k <= NDIRECT ==> inodes[i].addrs[k] < 0x1_0000_0000
  {
    forall k | 0 <= k <= NDIRECT
      ensures inodes[i].addrs[k] < 0x1_0000_0000
    {
      assert inodes[i].addrs[k] == Addr(view, inodes[i], k);
    }
  }

  lemma UpdateSyncs(view: seq<Block>, inodes: seq<Inode>, l: Layout, i: nat)
    requires LayoutOk(l) && |view| == l.size && i < |inodes| && Synced(view, inodes, l, i)
    requires |inodes[i].addrs| == NDIRECT + 1 && inodes[i].size < 0x1_0000_0000
    requires forall k :: 0 <= k <= NDIRECT ==> inodes[i].addrs[k] < 0x1_0000_0000
    ensures IBlock(l, i) < l.bmapstart < l.size
    ensures Synced(view[IBlock(l, i) := WithInode(view[IBlock(l, i)], i, inodes[i])], inodes, l, -1)
  {
    hide Dinode, WithInode;
    var ib := IBlock(l, i);
    var view' := view[ib := WithInode(view[ib], i, inodes[i])];
    forall k | 0 <= k < |inodes|
      ensures Dinode(view'[IBlock(l, k)], k) == inodes[k]
    {
      if IBlock(l, k) == ib {
        DinodeRoundTrip(view[ib], i, inodes[i], k);
      }
    }
  }

  lemma SyncedSame(view: seq<Block>, inodes: seq<Inode>, view': seq<Block>, inodes': seq<Inode>, l: Layout, i: nat, except: int)
    requires LayoutOk(l) && |view| == l.size == |view'| && Synced(view, inodes, l, except) && (except == -1 || except == i)
    requires |inodes'| == |inodes| && forall k :: 0 <= k < |inodes| && k != i ==> inodes'[k] == inodes[k]
    requires forall b :: 0 <= b < l.bmapstart && b < |view| ==> view'[b] == view[b]
    ensures Synced(view', inodes', l, i)
  {
    hide Dinode;
    forall k | 0 <= k < |inodes| && k != i
      ensures Dinode(view'[IBlock(l, k)], k) == inodes'[k]
    {
      assert IBlock(l, k) < l.bmapstart;
    }
  }

  lemma SameBlock(off: nat, k: nat)
    requires off % BSIZE + k < BSIZE
    ensures (off + k) / BSIZE == off / BSIZE && (off + k) % BSIZE == off % BSIZE + k
  {
  }

  lemma SliceJoin(c: seq<byte>, a: nat, b: nat, d: nat)
    requires a <= b <= d <= |c|
    ensures c[a..b] + c[b..d] == c[a..d]
  {
  }

  lemma MappedBlock(view: seq<Block>, ino: Inode, off: nat)
    requires FileOk(view, ino) && off < ino.size
    ensures off / BSIZE < MAXFILE && Addr(view, ino, FileSlot(off / BSIZE)) != 0
    ensures |ino.addrs| == NDIRECT + 1 && ino.size <= MAXFILE * BSIZE
  {
    hide Addr;
    assert (off / BSIZE) * BSIZE < ino.size;
  }

  /** The part of block off/BSIZE of a file that starts at off. */
  lemma ReadChunk(view: seq<Block>, inodes: seq<Inode>, l: Layout, owner: Owner, i: nat, off: nat, m: nat)
    requires Owns(view, inodes, l, owner, {}, {}) && i < |inodes| && FileOk(view, inodes[i])
    requires off + m <= inodes[i].size && off % BSIZE + m <= BSIZE && m > 0
    ensures off / BSIZE < MAXFILE && Addr(view, inodes[i], FileSlot(off / BSIZE)) != 0
    ensures var b := Addr(view, inodes[i], FileSlot(off / BSIZE));
            b < l.size == |view| && view[b][off % BSIZE..off % BSIZE + m] == Contents(view, inodes[i])[off..off + m]
  {
    hide Addr, Owns, FileOk;
    MappedBlock(view, inodes[i], off);
    OwnsSizes(view, inodes, l, owner);
    OwnedBlock(view, inodes, l, owner, i, FileSlot(off / BSIZE));
    var b := Addr(view, inodes[i], FileSlot(off / BSIZE));
    var d, c := view[b][off % BSIZE..off % BSIZE + m], Contents(view, inodes[i])[off..off + m];
    forall k | 0 <= k < m
      ensures d[k] == c[k]
    {
      assert c[k] == FileByte(view, inodes[i], off + k);
      SameBlock(off, k);
    }
  }

  /** A file whose map has a block at off/BSIZE is covered up to the end of that block. */
  lemma FileGrows(view: seq<Block>, ino: Inode, off: nat, m: nat)
    requires FileOk(view, ino) && off <= ino.size && 0 < m && off % BSIZE + m <= BSIZE && off + m <= MAXFILE * BSIZE
    requires Addr(view, ino, FileSlot(off / BSIZE)) != 0
    ensures FileOk(view, Extended(ino, off + m))
  {
    hide Word;
    var ino' := Extended(ino, off + m);
    forall n | 0 <= n < MAXFILE && n * BSIZE < ino'.size
      ensures Addr(view, ino', FileSlot(n)) != 0
    {
      assert Addr(view, ino', FileSlot(n)) == Addr(view, ino, FileSlot(n));
      if n * BSIZE >= ino.size {
        SameBlock(off, m - 1);
        assert n == off / BSIZE;
      }
    }
  }

  /** The block of an unaligned offset within a file, or of one before its end, is already mapped. */
  lemma AlreadyMapped(view: seq<Block>, ino: Inode, off: nat)
    requires FileOk(view, ino) && off <= ino.size && off % BSIZE != 0
    ensures off / BSIZE < MAXFILE && Addr(view, ino, FileSlot(off / BSIZE)) != 0
  {
    assert (off / BSIZE) * BSIZE < ino.size;
  }

  lemma WriteFileOk(view: seq<Block>, inodes: seq<Inode>, l: Layout, owner: Owner, b: nat, data: Block, i: nat, ino: Inode)
    requires Owns(view, inodes, l, owner, {}, {}) && b in owner && owner[b].1 != NDIRECT && i < |inodes|
    requires ino.addrs == inodes[i].addrs && FileOk(view, ino)
    ensures b < l.size && FileOk(view[b := data], ino)
  {
    WriteKeeps(view, inodes, l, owner, b, data);
    hide Owns, Word;
    forall s | 0 <= s < SLOTS
      ensures Addr(view[b := data], ino, s) == Addr(view, ino, s)
    {
      assert Addr(view[b := data], ino, s) == Addr(view[b := data], inodes[i], s);
      assert Addr(view, ino, s) == Addr(view, inodes[i], s);
    }
  }

  ghost predicate FilesOk(view: seq<Block>, inodes: seq<Inode>) {
    forall k :: 0 <= k < |inodes| ==> FileOk(view, inodes[k])
  }

  /** Every file but i reads the same. */
  ghost predicate SameFiles(view: seq<Block>, inodes: seq<Inode>, view': seq<Block>, inodes': seq<Inode>, i: int) {
    && |inodes'| == |inodes|
    && (forall k :: 0 <= k < |inodes| && k != i ==>
          && inodes'[k] == inodes[k]
          && |inodes[k].addrs| == NDIRECT + 1 && inodes[k].size <= MAXFILE * BSIZE
          && Contents(view', inodes'[k]) == Contents(view, inodes[k]))
  }

  lemma SameFilesTransitive(v: seq<Block>, n: seq<Inode>, v1: seq<Block>, n1: seq<Inode>, v2: seq<Block>, n2: seq<Inode>, i: int)
    requires SameFiles(v, n, v1, n1, i) && SameFiles(v1, n1, v2, n2, i)
    ensures SameFiles(v, n, v2, n2, i)
  {
    hide Contents;
  }

  /** Writing within blocks owned by file i leaves every other file alone. */
  lemma WriteSpares(view: seq<Block>, inodes: seq<Inode>, l: Layout, owner: Owner, i: nat, b: nat, data: Block)
    requires Owns(view, inodes, l, owner, {}, {}) && b in owner && owner[b].0 == i && owner[b].1 != NDIRECT
    requires FilesOk(view, inodes)
    ensures b < l.size && FilesOk(view[b := data], inodes) && SameFiles(view, inodes, view[b := data], inodes, i)
  {
    WriteKeeps(view, inodes, l, owner, b, data);
    hide BitSet, Word, Marked, Contents, Addr;
    forall k | 0 <= k < |inodes|
      ensures FileOk(view[b := data], inodes[k])
      ensures k != i ==> Contents(view[b := data], inodes[k]) == Contents(view, inodes[k])
    {
      WriteFileOk(view, inodes, l, owner, b, data, k, inodes[k]);
      if k != i {
        ContentsSame(view, view[b := data], inodes, owner, k, inodes[k]);
      }
    }
  }

  /** Allocation for file i leaves every file alone. */
  lemma ExtendsSpares(view: seq<Block>, inodes: seq<Inode>, l: Layout, owner: Owner, view': seq<Block>, inodes': seq<Inode>, owner': Owner, i: int)
    requires Owns(view, inodes, l, owner, {}, {}) && Extends(view, inodes, owner, view', inodes', owner')
    requires FilesOk(view, inodes) && forall k :: 0 <= k < |inodes| && k != i ==> inodes'[k] == inodes[k]
    ensures SameFiles(view, inodes, view', inodes', i)
  {
    assert |inodes'| == |inodes|;
    hide BitSet, Word, Marked, Contents, Addr, Extends;
    forall k | 0 <= k < |inodes| && k != i
      ensures Contents(view', inodes'[k]) == Contents(view, inodes[k])
    {
      assert inodes[k].(size := inodes[k].size) == inodes[k];
      ExtendsContents(view, inodes, l, owner, view', inodes', owner', k, inodes[k].size);
    }
  }

  /** The indirect block of a file does not change, and is recorded as such. */
  lemma IndirectStays(view: seq<Block>, inodes: seq<Inode>, owner: Owner, view': seq<Block>, inodes': seq<Inode>, owner': Owner, i: nat)
    requires Extends(view, inodes, owner, view', inodes', owner') && i < |inodes|
    ensures |inodes'| == |inodes| && |inodes[i].addrs| == |inodes'[i].addrs| == NDIRECT + 1
    ensures inodes[i].addrs[NDIRECT] != 0 ==> inodes'[i].addrs[NDIRECT] == inodes[i].addrs[NDIRECT]
  {
    assert Addr(view, inodes[i], NDIRECT) == inodes[i].addrs[NDIRECT];
    assert Addr(view', inodes'[i], NDIRECT) == inodes'[i].addrs[NDIRECT];
  }

  lemma AddrOfSized(view: seq<Block>, ino: Inode, size: nat, s: nat)
    requires |ino.addrs| == NDIRECT + 1 && s < SLOTS
    ensures Addr(view, ino.(size := size), s) == Addr(view, ino, s)
  {
  }

  lemma FileShrinks(view: seq<Block>, ino: Inode, ino': Inode)
    requires FileOk(view, ino) && ino'.addrs == ino.addrs && ino'.size <= ino.size
    ensures FileOk(view, ino')
  {
    hide Word;
    forall n | 0 <= n < MAXFILE && n * BSIZE < ino'.size
      ensures Addr(view, ino', FileSlot(n)) != 0
    {
      assert Addr(view, ino', FileSlot(n)) == Addr(view, ino, FileSlot(n));
    }
  }

  lemma FileSizes(view: seq<Block>, ino: Inode)
    requires FileOk(view, ino)
    ensures |ino.addrs| == NDIRECT + 1 && ino.size <= MAXFILE * BSIZE
  {
  }

  lemma OwnsSizes(view: seq<Block>, inodes: seq<Inode>, l: Layout, owner: Owner)
    requires Owns(view, inodes, l, owner, {}, {})
    ensures LayoutOk(l) && |view| == l.size && InodesOk(inodes)
  {
  }

  lemma ResizeKeeps(view: seq<Block>, inodes: seq<Inode>, l: Layout, owner: Owner, i: nat, size: nat)
    requires Owns(view, inodes, l, owner, {}, {}) && FilesOk(view, inodes) && i < |inodes|
    requires FileOk(view, inodes[i].(size := size))
    ensures Owns(view, inodes[i := inodes[i].(size := size)], l, owner, {}, {})
    ensures FilesOk(view, inodes[i := inodes[i].(size := size)])
    ensures SameFiles(view, inodes, view, inodes[i := inodes[i].(size := size)], i)
  {
    hide Word, Marked, BitSet, Contents;
    var inodes' := inodes[i := inodes[i].(size := size)];
    forall k, t | 0 <= k < |inodes| && 0 <= t < SLOTS
      ensures Addr(view, inodes'[k], t) == Addr(view, inodes[k], t)
    {
    }
  }

  lemma OverlayTwice(c: seq<byte>, off: nat, s: seq<byte>, t: seq<byte>)
    requires off <= |c|
    ensures off + |s| <= |Overlay(c, off, s)|
    ensures Overlay(Overlay(c, off, s), off + |s|, t) == Overlay(c, off, s + t)
  {
    var once, twice := Overlay(c, off, s), Overlay(c, off, s + t);
    assert once[..off + |s|] == c[..off] + s;
    if off + |s| + |t| < |c| {
      assert once[off + |s| + |t|..] == c[off + |s| + |t|..];
    }
  }

  lemma OverlayNothing(c: seq<byte>, off: nat)
    requires off <= |c|
    ensures Overlay(c, off, []) == c
  {
  }

  /** A file read at a smaller size is a prefix. */
  lemma ContentsPrefix(view: seq<Block>, ino: Inode, size: nat)
    requires |ino.addrs| == NDIRECT + 1 && size <= ino.size <= MAXFILE * BSIZE
    ensures Contents(view, ino.(size := size)) == Contents(view, ino)[..size]
  {
    hide Word;
    var short := ino.(size := size);
    forall o | 0 <= o < size
      ensures FileByte(view, short, o) == FileByte(view, ino, o)
    {
      assert Addr(view, short, FileSlot(o / BSIZE)) == Addr(view, ino, FileSlot(o / BSIZE));
    }
  }

  function Max(a: nat, b: nat): nat { if a < b then b else a }

  /** The number of blocks a write of n bytes at off touches. */
  function Touched(off: nat, n: nat): nat {
    if n == 0 then 0 else (off + n - 1) / BSIZE - off / BSIZE + 1
  }

  function Unaligned(off: nat): nat { if off % BSIZE == 0 then 0 else 1 }

  /** Where the turns of writei's loop are: each but the first starts at a block boundary. */
  ghost predicate AtTurn(off: nat, n: nat, tot: nat, turns: nat) {
    && tot <= n
    && (turns == 0 <==> tot == 0)
    && (turns > 0 ==> (off + tot - 1) / BSIZE == off / BSIZE + turns - 1)
    && (0 < tot < n ==> (off + tot) % BSIZE == 0)
  }

  lemma NextTurn(off: nat, n: nat, tot: nat, turns: nat, m: nat)
    requires AtTurn(off, n, tot, turns) && tot < n
    requires m == if n - tot < BSIZE - (off + tot) % BSIZE then n - tot else BSIZE - (off + tot) % BSIZE
    ensures 0 < m <= BSIZE && AtTurn(off, n, tot + m, turns + 1) && turns + 1 <= Touched(off, n)
  {
    var o := off + tot;
    SameBlock(o, m - 1);
    assert (off + n - 1) / BSIZE >= (o + m - 1) / BSIZE;
  }

  // ---- The state of writei's loop -------------------------------------------------------------

  /** The first tot bytes of src are in the file, as far as it has grown. */
  ghost predicate Writing(c0: seq<byte>, off: nat, src: seq<byte>, tot: nat, view: seq<Block>, ino: Inode) {
    && off <= |c0| == ino.size && tot <= |src|
    && FileOk(view, ino.(size := Max(|c0|, off + tot)))
    && Contents(view, ino.(size := Max(|c0|, off + tot))) == Overlay(c0, off, src[..tot])
  }

  lemma WritingStart(off: nat, src: seq<byte>, view: seq<Block>, ino: Inode)
    requires FileOk(view, ino) && off <= ino.size
    ensures Writing(Contents(view, ino), off, src, 0, view, ino)
  {
    assert ino.(size := ino.size) == ino;
  }

  /** How many of the bytes from tot on, m of them, the copy in manages. */
  function Got(tot: nat, m: nat, readable: nat): (got: nat)
    ensures got <= m && (got == m <==> tot + m <= readable || m == 0)
  {
    if tot + m <= readable then m else if readable > tot then readable - tot else 0
  }

  /** What writei reports of n bytes at off of which `readable` can be read: all, or what lies in blocks of
      the file that are complete before the first byte that cannot. */
  function Reported(off: nat, n: nat, readable: nat): (tot: nat)
    ensures tot <= n && tot <= readable && (tot == n <==> n <= readable)
  {
    var whole := (off + readable) / BSIZE * BSIZE;
    if n <= readable then n else if off < whole then whole - off else 0
  }

  /** What writei's loop achieves. `tot` is what it reports: all of src, or what was copied before the
      chunk that ran into unreadable memory. `got` also counts that chunk's readable bytes. */
  ghost predicate Written(c0: seq<byte>, off: nat, src: seq<byte>, readable: nat, tot: nat, got: nat, view: seq<Block>, ino: Inode) {
    && off <= |c0| == ino.size && tot <= got <= |src|
    && (tot == |src| <==> |src| <= readable)
    && got == (if tot == |src| then tot else Max(tot, readable))
    && FileOk(view, ino.(size := Max(|c0|, off + tot)))
    && Contents(view, ino.(size := Max(|c0|, off + tot))) == Overlay(c0, off, src[..got])[..Max(|c0|, off + tot)]
  }

  /** A chunk of m bytes goes into the file, or as many of them as are readable. */
  lemma WritingStep(c0: seq<byte>, off: nat, src: seq<byte>, tot: nat, m: nat, readable: nat, view: seq<Block>, ino: Inode, view': seq<Block>, ino': Inode)
    requires Writing(c0, off, src, tot, view, ino) && tot + m <= |src| && ino'.size == ino.size
    requires var got := Got(tot, m, readable);
             var vino := Extended(ino'.(size := Max(|c0|, off + tot)), off + tot + got);
             && FileOk(view', vino)
             && Contents(view', vino) == Overlay(Contents(view, ino.(size := Max(|c0|, off + tot))), off + tot, src[tot..tot + m][..got])
    ensures Got(tot, m, readable) == m ==> Writing(c0, off, src, tot + m, view', ino')
    ensures Got(tot, m, readable) < m && tot <= readable ==>
              Written(c0, off, src, readable, tot, tot + Got(tot, m, readable), view', ino')
  {
    hide Addr, Contents, Overlay, FileByte;
    var got := Got(tot, m, readable);
    var vs := Max(|c0|, off + tot);
    var vino := Extended(ino'.(size := vs), off + tot + got);
    OverlayTwice(c0, off, src[..tot], src[tot..tot + m][..got]);
    assert src[..tot] + src[tot..tot + m][..got] == src[..tot + got];
    FileShrinks(view', vino, ino'.(size := vs));
    ContentsPrefix(view', vino, vs);
    assert vino.(size := vs) == ino'.(size := vs);
    assert vino == ino'.(size := Max(|c0|, off + tot + got));
  }

  lemma WritingDone(c0: seq<byte>, off: nat, src: seq<byte>, tot: nat, readable: nat, view: seq<Block>, ino: Inode)
    requires Writing(c0, off, src, tot, view, ino) && tot == |src| <= readable
    ensures Written(c0, off, src, readable, tot, tot, view, ino)
  {
  }

  /** How many bitmap blocks the disk has. */
  function BitmapBlocks(l: Layout): nat {
    if l.size == 0 then 0 else (l.size - 1) / BPB + 1
  }

  /** How many blocks writei logs besides the inode's: a data block a turn and the indirect block, and
      bitmap blocks for those that are new, of which the disk may have fewer. */
  function LogBound(l: Layout, off: nat, n: nat): nat {
    if n == 0 then 0 else Touched(off, n) + 1 + Least(Touched(off, n) + 1 - Unaligned(off), BitmapBlocks(l))
  }

  function Least(a: nat, b: nat): nat { if a < b then a else b }

  lemma WritingNow(c0: seq<byte>, off: nat, src: seq<byte>, tot: nat, view: seq<Block>, ino: Inode)
    requires Writing(c0, off, src, tot, view, ino)
    ensures off <= |c0| == ino.size && FileOk(view, ino.(size := Max(|c0|, off + tot)))
  {
  }

  lemma SameFilesStart(view: seq<Block>, inodes: seq<Inode>, i: int)
    requires FilesOk(view, inodes)
    ensures SameFiles(view, inodes, view, inodes, i)
  {
    hide Addr;
  }

  lemma TurnStart(off: nat, n: nat)
    ensures AtTurn(off, n, 0, 0) && 0 <= Touched(off, n)
  {
  }

  /** Only file i's contents and blocks have changed, not yet its size, and no block below the bitmap. */
  ghost predicate OnlyFile(view: seq<Block>, inodes: seq<Inode>, view': seq<Block>, inodes': seq<Inode>, l: Layout, i: nat) {
    && SameFiles(view, inodes, view', inodes', i)
    && |view'| == |view| && |inodes'| == |inodes|
    && (i < |inodes| ==> inodes'[i] == inodes[i].(addrs := inodes'[i].addrs))
    && (forall b :: 0 <= b < l.bmapstart && b < |view| ==> view'[b] == view[b])
  }

  lemma OnlyFileStart(view: seq<Block>, inodes: seq<Inode>, l: Layout, i: nat)
    requires FilesOk(view, inodes)
    ensures OnlyFile(view, inodes, view, inodes, l, i)
  {
    hide Addr;
  }

  lemma OnlyFileTransitive(v: seq<Block>, n: seq<Inode>, v1: seq<Block>, n1: seq<Inode>, v2: seq<Block>, n2: seq<Inode>, l: Layout, i: nat)
    requires OnlyFile(v, n, v1, n1, l, i) && OnlyFile(v1, n1, v2, n2, l, i)
    ensures OnlyFile(v, n, v2, n2, l, i) && |v2| == |v| && |n2| == |n| && (i < |n| ==> n2[i] == n[i].(addrs := n2[i].addrs))
  {
    SameFilesTransitive(v, n, v1, n1, v2, n2, i);
    hide SameFiles;
  }

  /** Allocation for file i, then new bytes in one of its blocks. */
  lemma OnlyFileStep(v: seq<Block>, n: seq<Inode>, v1: seq<Block>, n1: seq<Inode>, b: nat, data: Block, l: Layout, i: nat)
    requires SameFiles(v, n, v1, n1, i) && |v1| == |v| && i < |n| && n1[i] == n[i].(addrs := n1[i].addrs)
    requires forall b :: 0 <= b < l.bmapstart && b < |v| ==> v1[b] == v[b]
    requires l.bmapstart <= b < |v1| && SameFiles(v1, n1, v1[b := data], n1, i)
    ensures OnlyFile(v, n, v1[b := data], n1, l, i)
  {
    SameFilesTransitive(v, n, v1, n1, v1[b := data], n1, i);
    hide SameFiles;
  }

  /** The end of writei: the size is brought up to date. */
  lemma WrittenResize(c0: seq<byte>, off: nat, src: seq<byte>, readable: nat, tot: nat, got: nat, view: seq<Block>, ino: Inode)
    requires Written(c0, off, src, readable, tot, got, view, ino)
    ensures tot <= got <= |src| && (tot == |src| <==> |src| <= readable) && got == (if tot == |src| then tot else Max(tot, readable))
    ensures off <= |c0| == ino.size && FileOk(view, ino.(size := Max(|c0|, off + tot)))
    ensures Contents(view, ino.(size := Max(|c0|, off + tot))) == Overlay(c0, off, src[..got])[..Max(|c0|, off + tot)]
  {
  }

  lemma SyncedOnly(view: seq<Block>, inodes: seq<Inode>, view': seq<Block>, inodes': seq<Inode>, l: Layout, i: nat)
    requires LayoutOk(l) && |view| == l.size && Synced(view, inodes, l, -1) && OnlyFile(view, inodes, view', inodes', l, i)
    ensures Synced(view', inodes', l, i)
  {
    hide Contents;
    SyncedSame(view, inodes, view', inodes', l, i, -1);
  }

  lemma SyncedResized(view: seq<Block>, inodes: seq<Inode>, l: Layout, i: nat, ino: Inode)
    requires LayoutOk(l) && |view| == l.size && Synced(view, inodes, l, i) && i < |inodes|
    ensures Synced(view, inodes[i := ino], l, i)
  {
    hide Dinode;
  }

  lemma OnlyFileSame(view: seq<Block>, inodes: seq<Inode>, view': seq<Block>, inodes': seq<Inode>, l: Layout, i: nat)
    requires OnlyFile(view, inodes, view', inodes', l, i) && i < |inodes|
    ensures SameFiles(view, inodes, view', inodes', i) && |inodes'| == |inodes| && inodes'[i] == inodes[i].(addrs := inodes'[i].addrs)
  {
  }

  lemma SameFilesAt(view: seq<Block>, inodes: seq<Inode>, view': seq<Block>, inodes': seq<Inode>, i: nat)
    requires SameFiles(view, inodes, view', inodes', -1) && i < |inodes|
    ensures |inodes'| == |inodes| && inodes'[i] == inodes[i] && |inodes[i].addrs| == NDIRECT + 1 && inodes[i].size <= MAXFILE * BSIZE
    ensures Contents(view', inodes'[i]) == Contents(view, inodes[i])
  {
  }

  lemma SameFilesMore(view: seq<Block>, inodes: seq<Inode>, view': seq<Block>, inodes': seq<Inode>, i: int)
    requires SameFiles(view, inodes, view', inodes', -1)
    ensures SameFiles(view, inodes, view', inodes', i)
  {
  }

  /** Other files read the same through a write and the update of the inode. */
  lemma WriteiSame(v: seq<Block>, n: seq<Inode>, v1: seq<Block>, n1: seq<Inode>, v2: seq<Block>, n2: seq<Inode>, v3: seq<Block>, i: nat)
    requires SameFiles(v, n, v1, n1, i) && SameFiles(v1, n1, v2, n2, i) && SameFiles(v2, n2, v3, n2, -1) && i < |n2|
    ensures SameFiles(v, n, v3, n2, i) && |n2[i].addrs| == NDIRECT + 1 && n2[i].size <= MAXFILE * BSIZE
    ensures Contents(v3, n2[i]) == Contents(v2, n2[i])
  {
    hide SameFiles;
    SameFilesAt(v2, n2, v3, n2, i);
    SameFilesTransitive(v, n, v1, n1, v2, n2, i);
    SameFilesMore(v2, n2, v3, n2, i);
    SameFilesTransitive(v, n, v2, n2, v3, n2, i);
  }

  lemma LoggedSize(before: set<nat>, now: set<nat>, b: nat)
    ensures |now + {b} - before - {b}| <= |now - before|
  {
    SubsetSize(now + {b} - before - {b}, now - before);
  }

  // ---- Truncation -----------------------------------------------------------------------------

  /** `owner` is owner0 without the blocks in slots `gone` of inode i. */
  ghost predicate OwnerLess(owner0: Owner, owner: Owner, i: nat, gone: set<nat>) {
    && (forall b :: b in owner <==> b in owner0 && !(owner0[b].0 == i && owner0[b].1 in gone))
    && (forall b :: b in owner ==> owner[b] == owner0[b])
  }

  lemma DropOne(owner0: Owner, owner: Owner, i: nat, gone: set<nat>, b: nat, s: nat)
    requires OwnerLess(owner0, owner, i, gone) && b in owner && owner[b] == (i, s)
    requires forall c :: c in owner && owner[c] == (i, s) ==> c == b
    ensures OwnerLess(owner0, owner - {b}, i, gone + {s})
  {
  }

  lemma DropNone(owner0: Owner, owner: Owner, i: nat, gone: set<nat>, s: nat)
    requires OwnerLess(owner0, owner, i, gone)
    requires forall c :: c in owner ==> owner[c] != (i, s)
    ensures OwnerLess(owner0, owner, i, gone + {s})
  {
  }

  lemma SlotOwner(view: seq<Block>, inodes: seq<Inode>, owner: Owner, dead: set<(nat, nat)>, i: nat, s: nat)
    requires InodesOk(inodes) && Mapped(view, inodes, owner, dead) && i < |inodes| && s < SLOTS
    ensures forall c :: c in owner && owner[c] == (i, s) ==> c == Addr(view, inodes[i], s) != 0
  {
  }

  ghost predicate OthersOk(view: seq<Block>, inodes: seq<Inode>, i: nat) {
    forall k :: 0 <= k < |inodes| && k != i ==> FileOk(view, inodes[k])
  }

  /** The state of itrunc: only file i has lost blocks, those in slots `gone`, and only bitmap blocks
      have been written. */
  ghost predicate Truncating(view0: seq<Block>, inodes0: seq<Inode>, owner0: Owner, l: Layout, i: nat,
                             view: seq<Block>, inodes: seq<Inode>, owner: Owner, gone: set<nat>, dead: set<(nat, nat)>)
  {
    && Owns(view, inodes, l, owner, {}, dead)
    && OwnerLess(owner0, owner, i, gone)
    && SameFiles(view0, inodes0, view, inodes, i) && OthersOk(view, inodes, i)
    && |view| == |view0| && |inodes| == |inodes0|
    && (forall b :: 0 <= b < |view| && !(l.bmapstart <= b < l.nmeta) ==> view[b] == view0[b])
  }

  lemma TruncatingStart(view: seq<Block>, inodes: seq<Inode>, owner: Owner, l: Layout, i: nat)
    requires Owns(view, inodes, l, owner, {}, {}) && FilesOk(view, inodes)
    ensures Truncating(view, inodes, owner, l, i, view, inodes, owner, {}, {})
  {
    hide Addr, Marked, Mapped;
  }

  /** Clearing bits spares the files that keep their blocks. */
  lemma FreeSpares(view: seq<Block>, inodes: seq<Inode>, l: Layout, owner: Owner, dead: set<(nat, nat)>, i: nat, view': seq<Block>)
    requires Owns(view, inodes, l, owner, {}, dead) && (forall p :: p in dead ==> p.0 == i) && OthersOk(view, inodes, i)
    requires |view'| == |view| && forall x :: l.nmeta <= x < l.size ==> view'[x] == view[x]
    ensures SameFiles(view, inodes, view', inodes, i) && OthersOk(view', inodes, i)
  {
    OwnedIsData(view, l, owner, {});
    hide BitSet, Marked, Word;
    forall k | 0 <= k < |inodes| && k != i
      ensures Contents(view', inodes[k]) == Contents(view, inodes[k]) && FileOk(view', inodes[k])
    {
      FileSizes(view, inodes[k]);
      forall s | 0 <= s < SLOTS
        ensures Addr(view', inodes[k], s) == Addr(view, inodes[k], s)
        ensures var b := Addr(view, inodes[k], s); 0 < b < |view| ==> view'[b] == view[b]
      {
        assert inodes[k].addrs[NDIRECT] == Addr(view, inodes[k], NDIRECT);
      }
    }
  }

  /** bfree of the block in slot s. */
  lemma TruncatingFree(view0: seq<Block>, inodes0: seq<Inode>, owner0: Owner, l: Layout, i: nat,
                       view: seq<Block>, inodes: seq<Inode>, owner: Owner, gone: set<nat>, dead: set<(nat, nat)>, s: nat, b: nat)
    requires Truncating(view0, inodes0, owner0, l, i, view, inodes, owner, gone, dead) && i < |inodes| && s < SLOTS
    requires (forall p :: p in dead ==> p.0 == i && p.1 > NDIRECT) && (i, s) !in dead && b == Addr(view, inodes[i], s) != 0
    ensures b < l.size && BitSet(view, l, b) && b in owner && b in owner0
    ensures Truncating(view0, inodes0, owner0, l, i, FlipBit(view, l, b), inodes, owner - {b}, gone + {s}, dead + {(i, s)})
  {
    assert b in owner && owner[b] == (i, s);
    FreeKeeps(view, inodes, l, owner, dead, b);
    SlotOwner(view, inodes, owner, dead, i, s);
    DropOne(owner0, owner, i, gone, b, s);
    hide Marked, Mapped, BitSet, Addr, SameFiles, OthersOk, OwnerLess, Flipped;
    FreeSpares(view, inodes, l, owner, dead, i, FlipBit(view, l, b));
    SameFilesTransitive(view0, inodes0, view, inodes, FlipBit(view, l, b), inodes, i);
  }

  /** A slot that was empty. */
  lemma TruncatingSkip(view0: seq<Block>, inodes0: seq<Inode>, owner0: Owner, l: Layout, i: nat,
                       view: seq<Block>, inodes: seq<Inode>, owner: Owner, gone: set<nat>, dead: set<(nat, nat)>, s: nat)
    requires Truncating(view0, inodes0, owner0, l, i, view, inodes, owner, gone, dead) && i < |inodes| && s < SLOTS
    requires Addr(view, inodes[i], s) == 0
    ensures Truncating(view0, inodes0, owner0, l, i, view, inodes, owner, gone + {s}, dead)
  {
    SlotOwner(view, inodes, owner, dead, i, s);
    DropNone(owner0, owner, i, gone, s);
  }

  lemma ChangeSelf(view: seq<Block>, inodes: seq<Inode>, i: nat, ino: Inode)
    requires OthersOk(view, inodes, i) && i < |inodes|
    ensures SameFiles(view, inodes, view, inodes[i := ino], i) && OthersOk(view, inodes[i := ino], i)
  {
    hide Addr;
  }

  /** ip->addrs[s] = 0 after its block is freed. */
  lemma TruncatingClear(view0: seq<Block>, inodes0: seq<Inode>, owner0: Owner, l: Layout, i: nat,
                        view: seq<Block>, inodes: seq<Inode>, owner: Owner, gone: set<nat>, dead: set<(nat, nat)>, s: nat)
    requires Truncating(view0, inodes0, owner0, l, i, view, inodes, owner, gone, dead) && i < |inodes| && s <= NDIRECT
    requires s < NDIRECT ==> dead == {(i, s)}
    requires s == NDIRECT ==> DeadFrom(view, inodes[i], i, NDIRECT, dead)
    ensures Truncating(view0, inodes0, owner0, l, i, view, inodes[i := inodes[i].(addrs := inodes[i].addrs[s := 0])], owner, gone, {})
  {
    var ino := inodes[i].(addrs := inodes[i].addrs[s := 0]);
    if s < NDIRECT {
      ClearSlotKeeps(view, inodes, l, owner, i, s);
    } else {
      ClearIndirectKeeps(view, inodes, l, owner, dead, i);
    }
    hide Owns, OwnerLess;
    ChangeSelf(view, inodes, i, ino);
    SameFilesTransitive(view0, inodes0, view, inodes, view, inodes[i := ino], i);
  }

  lemma TruncatingFacts(view0: seq<Block>, inodes0: seq<Inode>, owner0: Owner, l: Layout, i: nat,
                        view: seq<Block>, inodes: seq<Inode>, owner: Owner, gone: set<nat>, dead: set<(nat, nat)>)
    requires Truncating(view0, inodes0, owner0, l, i, view, inodes, owner, gone, dead) && i < |inodes|
    ensures LayoutOk(l) && |view| == l.size && |inodes| == |inodes0| && |inodes[i].addrs| == NDIRECT + 1
    ensures OwnerLess(owner0, owner, i, gone) && SameFiles(view0, inodes0, view, inodes, i) && OthersOk(view, inodes, i)
    ensures Owns(view, inodes, l, owner, {}, dead)
    ensures forall b :: 0 <= b < |view| && !(l.bmapstart <= b < l.nmeta) ==> view[b] == view0[b]
    ensures |view0| == l.size
  {
  }

  /** The first j entries of the indirect block are freed or empty. */
  ghost predicate DeadEntries(view: seq<Block>, ino: Inode, i: nat, j: nat, dead: set<(nat, nat)>)
    requires |ino.addrs| == NDIRECT + 1 && j <= NINDIRECT
  {
    && (forall t :: NDIRECT < t < NDIRECT + 1 + j ==> (i, t) in dead || Addr(view, ino, t) == 0)
    && (forall p :: p in dead ==> p.0 == i && NDIRECT < p.1 < NDIRECT + 1 + j)
  }

  lemma DeadEntriesNext(view: seq<Block>, ino: Inode, i: nat, j: nat, dead: set<(nat, nat)>, view': seq<Block>, dead': set<(nat, nat)>)
    requires |ino.addrs| == NDIRECT + 1 && j < NINDIRECT && DeadEntries(view, ino, i, j, dead)
    requires forall t :: 0 <= t < SLOTS ==> Addr(view', ino, t) == Addr(view, ino, t)
    requires if Addr(view, ino, NDIRECT + 1 + j) == 0 then dead' == dead else dead' == dead + {(i, NDIRECT + 1 + j)}
    ensures DeadEntries(view', ino, i, j + 1, dead')
  {
    hide Addr;
  }

  lemma DeadEntriesAll(view: seq<Block>, ino: Inode, i: nat, dead: set<(nat, nat)>, view': seq<Block>)
    requires |ino.addrs| == NDIRECT + 1 && DeadEntries(view, ino, i, NINDIRECT, dead)
    requires forall t :: 0 <= t < SLOTS ==> Addr(view', ino, t) == Addr(view, ino, t)
    ensures DeadFrom(view', ino, i, NDIRECT, dead + {(i, NDIRECT)})
  {
    hide Addr;
  }

  lemma FlipKeepsAddrs(view: seq<Block>, inodes: seq<Inode>, l: Layout, owner: Owner, dead: set<(nat, nat)>, i: nat, b: nat)
    requires Owns(view, inodes, l, owner, {}, dead) && i < |inodes| && (i, NDIRECT) !in dead && b < l.size
    ensures |FlipBit(view, l, b)| == l.size
    ensures forall t :: 0 <= t < SLOTS ==> Addr(FlipBit(view, l, b), inodes[i], t) == Addr(view, inodes[i], t)
  {
    hide BitSet, Word, Flipped, Marked;
    OwnedIsData(view, l, owner, {});
    assert inodes[i].addrs[NDIRECT] == Addr(view, inodes[i], NDIRECT);
  }

  /** Once every slot is gone nothing is left of the file. */
  lemma TruncatingEnd(view0: seq<Block>, inodes0: seq<Inode>, owner0: Owner, l: Layout, i: nat,
                      view: seq<Block>, inodes: seq<Inode>, owner: Owner, gone: set<nat>)
    requires Truncating(view0, inodes0, owner0, l, i, view, inodes, owner, gone, {}) && i < |inodes|
    requires forall s :: 0 <= s < SLOTS ==> s in gone
    requires forall b :: b in owner0 ==> owner0[b].1 < SLOTS
    ensures forall b :: b in owner <==> b in owner0 && owner0[b].0 != i
    ensures FileOk(view, inodes[i].(size := 0))
  {
  }

  lemma NoneDead(view: seq<Block>, ino: Inode, i: nat)
    requires |ino.addrs| == NDIRECT + 1
    ensures DeadEntries(view, ino, i, 0, {})
  {
  }

  lemma DeadEntriesBound(view: seq<Block>, ino: Inode, i: nat, j: nat, dead: set<(nat, nat)>)
    requires |ino.addrs| == NDIRECT + 1 && j <= NINDIRECT && DeadEntries(view, ino, i, j, dead)
    ensures forall p :: p in dead ==> p.0 == i && NDIRECT < p.1 < NDIRECT + 1 + j
    ensures (i, NDIRECT) !in dead && (i, NDIRECT + 1 + j) !in dead
  {
  }

  lemma FlipKeepsData(view: seq<Block>, l: Layout, b: nat)
    requires LayoutOk(l) && |view| == l.size && b < l.size
    ensures |FlipBit(view, l, b)| == l.size && forall x :: l.nmeta <= x < l.size ==> FlipBit(view, l, b)[x] == view[x]
  {
    hide Flipped;
  }

  lemma OwnerSlots(view: seq<Block>, inodes: seq<Inode>, l: Layout, owner: Owner)
    requires Owns(view, inodes, l, owner, {}, {})
    ensures forall b :: b in owner ==> owner[b].1 < SLOTS
  {
  }

  /** A file with no block in any slot may have size 0. */
  lemma EmptyFile(view: seq<Block>, inodes: seq<Inode>, l: Layout, owner: Owner, i: nat)
    requires Owns(view, inodes, l, owner, {}, {}) && OthersOk(view, inodes, i) && i < |inodes|
    ensures Owns(view, inodes[i := inodes[i].(size := 0)], l, owner, {}, {})
    ensures FilesOk(view, inodes[i := inodes[i].(size := 0)])
    ensures SameFiles(view, inodes, view, inodes[i := inodes[i].(size := 0)], i)
  {
    hide Word, Marked, BitSet, Contents;
    var inodes' := inodes[i := inodes[i].(size := 0)];
    forall k, t | 0 <= k < |inodes| && 0 <= t < SLOTS
      ensures Addr(view, inodes'[k], t) == Addr(view, inodes[k], t)
    {
    }
    ChangeSelf(view, inodes, i, inodes[i].(size := 0));
  }

  lemma NoAddrs(view: seq<Block>, ino: Inode)
    requires |ino.addrs| == NDIRECT + 1 && forall s :: 0 <= s <= NDIRECT ==> ino.addrs[s] == 0
    ensures forall s :: 0 <= s < SLOTS ==> Addr(view, ino, s) == 0
  {
  }

  // ---- What ownership means -------------------------------------------------------------------

  /** A data block's bit is set exactly when some slot of some inode holds the block, and then just one
      does; metadata blocks are always marked and never in a slot. */
  lemma OwnershipExact(view: seq<Block>, inodes: seq<Inode>, l: Layout, owner: Owner)
    requires Owns(view, inodes, l, owner, {}, {})
    ensures forall b :: l.nmeta <= b < l.size ==>
              (BitSet(view, l, b) <==> exists i, s :: 0 <= i < |inodes| && 0 <= s < SLOTS && Addr(view, inodes[i], s) == b)
    ensures forall b :: 0 <= b < l.nmeta ==> BitSet(view, l, b)
    ensures forall i, s :: 0 <= i < |inodes| && 0 <= s < SLOTS && Addr(view, inodes[i], s) != 0 ==>
              l.nmeta <= Addr(view, inodes[i], s) < l.size
    ensures forall i, s, k, t ::
              (0 <= i < |inodes| && 0 <= s < SLOTS && 0 <= k < |inodes| && 0 <= t < SLOTS &&
               Addr(view, inodes[i], s) == Addr(view, inodes[k], t) != 0) ==> i == k && s == t
  {
    hide BitSet, Addr;
    forall b | l.nmeta <= b < l.size
      ensures BitSet(view, l, b) <==> exists i, s :: 0 <= i < |inodes| && 0 <= s < SLOTS && Addr(view, inodes[i], s) == b
    {
      if BitSet(view, l, b) {
        assert Addr(view, inodes[owner[b].0], owner[b].1) == b;
      }
    }
  }

  /** What was laid over is what is read there. */
  lemma OverlayRead(c: seq<byte>, off: nat, s: seq<byte>)
    requires off <= |c|
    ensures Overlay(c, off, s)[off..off + |s|] == s
    ensures Overlay(c, off, s)[..off] == c[..off]
    ensures off + |s| < |c| ==> Overlay(c, off, s)[off + |s|..] == c[off + |s|..]
  {
  }

  /** A write of at most m blocks' worth of bytes touches m blocks, or one more if it is unaligned. */
  lemma LogBoundFits(l: Layout, off: nat, n: nat, m: nat)
    requires n <= m * BSIZE
    ensures LogBound(l, off, n) + 1 <= 2 * m + 4
    ensures LogBound(l, off, n) + 1 <= m + 3 + BitmapBlocks(l)
  {
    if n > 0 {
      var q, r := off / BSIZE, off % BSIZE;
      assert off == q * BSIZE + r;
      assert (off + n - 1) / BSIZE <= q + m - 1 + Unaligned(off);
    }
  }
}
