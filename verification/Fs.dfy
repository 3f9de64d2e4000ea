// Block allocation, block maps, truncation, and reading and writing files. `view` is the logical
// contents of the disk, which the buffer cache shows to every caller of bread; `logged` collects the
// blocks passed to log_write since the operation began.
module Fs {
  import opened Options
  import opened Bits
  import opened Blocks
  import opened Counting
  import opened FsState
  import opened FsSpace

  datatype WriteResult = Wrote(tot: nat) | Refused | OutOfBlocks

  class FileSystem {
    const l: Layout
    var view: seq<Block>
    var inodes: seq<Inode>      // the in-memory inodes, by number
    ghost var owner: Owner
    ghost var logged: set<nat>

    /** Bitmap, block maps and file sizes agree. */
    ghost predicate Consistent()
      reads this`view, this`inodes, this`owner
    {
      && Owns(view, inodes, l, owner, {}, {})
      && FilesOk(view, inodes)
    }

    /** Between operations the on-disk inodes are up to date too. */
    ghost predicate Valid()
      reads this`view, this`inodes, this`owner
    {
      Consistent() && Synced(view, inodes, l, -1)
    }

    constructor (l: Layout, view: seq<Block>, inodes: seq<Inode>, ghost owner: Owner)
      requires Owns(view, inodes, l, owner, {}, {}) && Synced(view, inodes, l, -1)
      requires forall i :: 0 <= i < |inodes| ==> FileOk(view, inodes[i])
      ensures Valid() && this.l == l && this.view == view && this.inodes == inodes && logged == {}
    {
      this.l, this.view, this.inodes, this.owner, this.logged := l, view, inodes, owner, {};
    }

    /** Allocate a zeroed disk block: the first free one. None is the "out of blocks" panic. */
    method Balloc() returns (r: Option<nat>)
      requires LayoutOk(l) && |view| == l.size
      modifies this`view, this`logged
      ensures r.None? ==> view == old(view) && logged == old(logged) && forall c :: 0 <= c < l.size ==> BitSet(view, l, c)
      ensures r.Some? ==>
                && r.value < l.size && !BitSet(old(view), l, r.value)
                && (forall c :: 0 <= c < r.value ==> BitSet(old(view), l, c))
                && view == Allocated(old(view), l, r.value)
                && logged == old(logged) + {BBlock(l, r.value), r.value}
    {
      hide Bit, Flipped, BitSet, Allocated;
      var b := 0;
      while b < l.size
        invariant b % BPB == 0 && view == old(view) && logged == old(logged)
        invariant forall c :: 0 <= c < b && c < l.size ==> BitSet(view, l, c)
      {
        var bb := b / BPB + l.bmapstart;
        var bi := 0;
        while bi < BPB && b + bi < l.size
          invariant 0 <= bi <= BPB && view == old(view) && logged == old(logged)
          invariant forall c :: 0 <= c < b + bi && c < l.size ==> BitSet(view, l, c)
        {
          BitOf(b, bi);
          var data := view[bb];
          if !Bit(data[bi / 8], bi % 8) {
            view := view[bb := data[bi / 8 := Flipped(data[bi / 8], bi % 8)]];
            logged := logged + {bb};
            Bzero(b + bi);
            return Some(b + bi);
          }
          bi := bi + 1;
        }
        b := b + BPB;
      }
      return None;
    }

    /** Bit bi of the bitmap block for the blocks from b on is that of block b + bi. */
    lemma BitOf(b: nat, bi: nat)
      requires LayoutOk(l) && |view| == l.size && b % BPB == 0 && bi < BPB && b + bi < l.size
      ensures b / BPB + l.bmapstart < l.size
      ensures var bb := b / BPB + l.bmapstart;
              && bb == BBlock(l, b + bi) && bi / 8 < BSIZE
              && (BitSet(view, l, b + bi) <==> Bit(view[bb][bi / 8], bi % 8))
              && Allocated(view, l, b + bi) == view[bb := view[bb][bi / 8 := Flipped(view[bb][bi / 8], bi % 8)]][b + bi := ZeroBlock()]
    {
      hide Bit, Flipped;
      assert (b + bi) / BPB == b / BPB && (b + bi) % BPB == bi;
    }

    method Bzero(b: nat)
      requires b < |view|
      modifies this`view, this`logged
      ensures view == old(view)[b := ZeroBlock()] && logged == old(logged) + {b}
    {
      view := view[b := ZeroBlock()];
      logged := logged + {b};
    }

    /** Free a block. False is the "freeing free block" panic. */
    method Bfree(b: nat) returns (ok: bool)
      requires LayoutOk(l) && |view| == l.size && b < l.size
      modifies this`view, this`logged
      ensures ok <==> BitSet(old(view), l, b)
      ensures ok ==> view == FlipBit(old(view), l, b) && logged == old(logged) + {BBlock(l, b)}
    {
      hide Bit, Flipped;
      var bb := b / BPB + l.bmapstart;
      var bi := b % BPB;
      var data := view[bb];
      if !Bit(data[bi / 8], bi % 8) {
        return false;
      }
      view := view[bb := data[bi / 8 := Flipped(data[bi / 8], bi % 8)]];
      logged := logged + {bb};
      return true;
    }

    twostate predicate AllocatedFor(i: nat)
      reads this
    {
      AllocOnly(old(view), old(inodes), old(owner), view, inodes, owner, l, i)
    }

    /** The data blocks of the disk that no slot owns. */
    ghost function Room(): int
      reads this`owner
    {
      l.size - l.nmeta - |owner|
    }

    /** Inode i has been given blocks for the empty ones of `slots`; what that logs, and `also`, is logged. */
    twostate predicate GrewBy(i: nat, slots: set<nat>, also: set<nat>)
      requires i < |old(inodes)| && i < |inodes| && |old(inodes)[i].addrs| == NDIRECT + 1 && |inodes[i].addrs| == NDIRECT + 1
      reads this
    {
      Given(l, i, slots, also, old(owner), Filled(old(view), old(inodes)[i]), old(logged),
            owner, Filled(view, inodes[i]), inodes[i].addrs[NDIRECT], logged)
    }

    /** ip->addrs[s] = balloc(). Finds a block unless every data block has an owner. */
    method AllocSlot(i: nat, s: nat) returns (r: Option<nat>)
      requires Consistent() && i < |inodes| && s <= NDIRECT && inodes[i].addrs[s] == 0
      modifies this`view, this`inodes, this`owner, this`logged
      ensures r.None? <==> old(Room()) == 0
      ensures r.Some? ==>
                && Consistent() && AllocatedFor(i) && OnlyLogged(old(view), view, logged) && GrewBy(i, {s}, {})
                && 0 < r.value < l.size && r.value !in old(owner)
                && inodes[i] == old(inodes)[i].(addrs := old(inodes)[i].addrs[s := r.value])
    {
      hide OnlyLogged, Extends, Mapped, Marked, BitSet, Addr, Allocated, FileOk, Given, Lacking, Filled, FreeBlocks;
      RoomIs();
      r := Balloc();
      if r.None? {
        NoneFree(view, l);
        return;
      }
      ghost var b := r.value;
      OneFree(old(view), l, b);
      AllocatedLogged(old(view), l, b, logged);
      AllocateKeeps(old(view), inodes, l, owner, {}, b);
      AllocatedZero(old(view), l, b);
      assert {} + {b} == {b} && {b} - {b} == {};
      AttachKeeps(view, inodes, l, owner, {b}, i, s, b);
      ghost var v1 := view;
      EmptySlot(old(view), old(inodes)[i], s);
      GivenOne(l, i, s, owner, Filled(old(view), old(inodes)[i]), old(logged), b, inodes[i].addrs[s := r.value][NDIRECT], logged);
      inodes := inodes[i := inodes[i].(addrs := inodes[i].addrs[s := r.value])];
      owner := owner[b := (i, s)];
      FilledOne(old(view), old(inodes), l, old(owner), view, inodes, i, s, b);
      ExtendsTransitive(old(view), old(inodes), old(owner), v1, old(inodes), old(owner), view, inodes, owner);
      ExtendsFilesOk(old(view), old(inodes), old(owner), view, inodes, owner);
    }

    /** a[j] = balloc(), in the indirect block. */
    method AllocEntry(i: nat, j: nat) returns (r: Option<nat>)
      requires Consistent() && i < |inodes| && j < NINDIRECT && inodes[i].addrs[NDIRECT] != 0
      requires Addr(view, inodes[i], NDIRECT + 1 + j) == 0
      modifies this`view, this`owner, this`logged
      ensures r.None? <==> old(Room()) == 0
      ensures r.Some? ==>
                && Consistent() && AllocatedFor(i) && OnlyLogged(old(view), view, logged) && GrewBy(i, {NDIRECT + 1 + j}, {})
                && 0 < r.value < l.size && r.value == Addr(view, inodes[i], NDIRECT + 1 + j)
    {
      hide OnlyLogged, Extends, Mapped, Marked, BitSet, Addr, Allocated, FileOk, WithWord, Given, Lacking, Filled, FreeBlocks;
      ghost var x, s := inodes[i].addrs[NDIRECT], NDIRECT + 1 + j;
      IndirectIsData(view, inodes, l, owner, i);
      RoomIs();
      r := Balloc();
      if r.None? {
        NoneFree(view, l);
        return;
      }
      ghost var b := r.value;
      OneFree(old(view), l, b);
      AllocatedLogged(old(view), l, b, logged);
      AllocateKeeps(old(view), inodes, l, owner, {}, b);
      assert {} + {b} == {b} && {b} - {b} == {};
      ghost var v1 := view;
      AttachEntryKeeps(view, inodes, l, owner, {b}, i, j, b, x);
      EmptySlot(old(view), inodes[i], s);
      var bp := inodes[i].addrs[NDIRECT];
      OnlyLoggedOne(v1, bp, WithWord(v1[bp], j, r.value), logged + {bp});
      OnlyLoggedJoin(old(view), v1, v1[bp := WithWord(v1[bp], j, r.value)], logged, logged + {bp});
      view := view[bp := WithWord(view[bp], j, r.value)];
      logged := logged + {bp};
      GivenOne(l, i, s, owner, Filled(old(view), inodes[i]), old(logged), b, x, logged);
      owner := owner[b := (i, s)];
      FilledOne(old(view), old(inodes), l, old(owner), view, inodes, i, s, b);
      EntryStored(v1, inodes[i], j, b);
      ExtendsTransitive(old(view), old(inodes), old(owner), v1, old(inodes), old(owner), view, inodes, owner);
      ExtendsFilesOk(old(view), old(inodes), old(owner), view, inodes, owner);
    }

    lemma RoomIs()
      requires Consistent()
      ensures LayoutOk(l) && |view| == l.size && Room() == |FreeBlocks(view, l)|
    {
      FreeCount(view, inodes, l, owner);
    }

    /** The disk block of block bn of the file, allocated if there is none. A block that is there is
        returned and nothing changes. There is no block only if fewer are free than slots to fill. */
    method Bmap(i: nat, bn: nat) returns (r: Option<nat>)
      requires Consistent() && i < |inodes| && bn < MAXFILE
      modifies this`view, this`inodes, this`owner, this`logged
      ensures Addr(old(view), old(inodes)[i], FileSlot(bn)) != 0 ==>
                r.Some? && view == old(view) && inodes == old(inodes) && owner == old(owner) && logged == old(logged)
      ensures r.None? <==> old(Room()) < Lacking(Wanted(bn), Filled(old(view), old(inodes)[i]))
      ensures r.Some? ==>
                && Consistent() && AllocatedFor(i) && OnlyLogged(old(view), view, logged) && GrewBy(i, Wanted(bn), {})
                && 0 < r.value < l.size && r.value == Addr(view, inodes[i], FileSlot(bn))
    {
      hide OnlyLogged, Extends, Mapped, Marked, BitSet, Allocated, FileOk, Word, Given, Lacking, Filled;
      ExtendsReflexive(view, inodes, owner);
      OnlyLoggedSame(view, logged);
      RoomIs();
      if bn < NDIRECT {
        var addr := inodes[i].addrs[bn];
        SlotFilled(view, inodes[i], bn);
        if addr == 0 {
          r := AllocSlot(i, bn);
          return;
        }
        OwnedBlock(view, inodes, l, owner, i, bn);
        GivenNothing(l, i, {bn}, owner, Filled(view, inodes[i]), inodes[i].addrs[NDIRECT], logged);
        return Some(addr);
      }
      r := BmapIndirect(i, bn - NDIRECT);
    }

    /** The first part of bmap for an entry of the indirect block: there is such a block. */
    method BmapBlock(i: nat) returns (ok: bool)
      requires Consistent() && i < |inodes|
      modifies this`view, this`inodes, this`owner, this`logged
      ensures old(inodes)[i].addrs[NDIRECT] != 0 ==>
                view == old(view) && inodes == old(inodes) && owner == old(owner) && logged == old(logged)
      ensures ok <==> old(inodes)[i].addrs[NDIRECT] != 0 || old(Room()) > 0
      ensures ok ==>
                && Consistent() && AllocatedFor(i) && OnlyLogged(old(view), view, logged) && GrewBy(i, {NDIRECT}, {}) && inodes[i].addrs[NDIRECT] != 0
                && Filled(view, inodes[i]) == Filled(old(view), old(inodes)[i]) + {NDIRECT}
                && Room() == old(Room()) - if old(inodes)[i].addrs[NDIRECT] != 0 then 0 else 1
    {
      hide OnlyLogged, Extends, Mapped, Marked, BitSet, Allocated, FileOk, Given, Lacking, Filled;
      ghost var f0, o0, g0 := Filled(view, inodes[i]), owner, logged;
      RoomIs();
      SlotFilled(view, inodes[i], NDIRECT);
      if inodes[i].addrs[NDIRECT] == 0 {
        var r := AllocSlot(i, NDIRECT);
        if r.Some? {
          GivenFilled(l, i, {NDIRECT}, {}, o0, f0, g0, owner, Filled(view, inodes[i]), inodes[i].addrs[NDIRECT], logged);
        }
        return r.Some?;
      }
      ExtendsReflexive(view, inodes, owner);
      OnlyLoggedSame(view, logged);
      GivenNothing(l, i, {NDIRECT}, owner, Filled(view, inodes[i]), inodes[i].addrs[NDIRECT], logged);
      return true;
    }

    /** The second part: there is a block in the entry. */
    method BmapEntry(i: nat, j: nat) returns (r: Option<nat>)
      requires Consistent() && i < |inodes| && j < NINDIRECT && inodes[i].addrs[NDIRECT] != 0
      modifies this`view, this`owner, this`logged
      ensures Addr(old(view), inodes[i], NDIRECT + 1 + j) != 0 ==>
                r.Some? && view == old(view) && owner == old(owner) && logged == old(logged)
      ensures r.None? <==> old(Room()) == 0 && Addr(old(view), inodes[i], NDIRECT + 1 + j) == 0
      ensures r.Some? ==>
                && Consistent() && AllocatedFor(i) && OnlyLogged(old(view), view, logged) && GrewBy(i, {NDIRECT + 1 + j}, {})
                && 0 < r.value < l.size && r.value == Addr(view, inodes[i], NDIRECT + 1 + j)
    {
      hide OnlyLogged, Extends, Mapped, Marked, BitSet, Allocated, FileOk, Word, Given, Lacking, Filled;
      ghost var s := NDIRECT + 1 + j;
      IndirectIsData(view, inodes, l, owner, i);
      var bp := view[inodes[i].addrs[NDIRECT]];
      var addr := Word(bp, j);
      if addr == 0 {
        r := AllocEntry(i, j);
        return;
      }
      ExtendsReflexive(view, inodes, owner);
      OnlyLoggedSame(view, logged);
      OwnedBlock(view, inodes, l, owner, i, s);
      SlotFilled(view, inodes[i], s);
      GivenNothing(l, i, {s}, owner, Filled(view, inodes[i]), inodes[i].addrs[NDIRECT], logged);
      r := Some(addr);
    }

    /** The part of bmap for entries of the indirect block, which is allocated if there is none. */
    method BmapIndirect(i: nat, j: nat) returns (r: Option<nat>)
      requires Consistent() && i < |inodes| && j < NINDIRECT
      modifies this`view, this`inodes, this`owner, this`logged
      ensures Addr(old(view), old(inodes)[i], NDIRECT + 1 + j) != 0 ==>
                r.Some? && view == old(view) && inodes == old(inodes) && owner == old(owner) && logged == old(logged)
      ensures r.None? <==> old(Room()) < Lacking(Wanted(NDIRECT + j), Filled(old(view), old(inodes)[i]))
      ensures r.Some? ==>
                && Consistent() && AllocatedFor(i) && OnlyLogged(old(view), view, logged) && GrewBy(i, Wanted(NDIRECT + j), {})
                && 0 < r.value < l.size && r.value == Addr(view, inodes[i], NDIRECT + 1 + j)
    {
      hide OnlyLogged, AllocOnly, FileOk, FilesOk, Owns, Word, Addr, Given, Lacking, Filled, Wanted, FileSystem.Consistent;
      ConsistentFile(i);
      ghost var s, f0, o0, g0 := NDIRECT + 1 + j, Filled(view, inodes[i]), owner, logged;
      RoomIs();
      EntrySlots(view, inodes[i], s);
      var ok := BmapBlock(i);
      if !ok {
        return None;
      }
      AllocOnlySizes(old(view), old(inodes), o0, view, inodes, owner, l, i);
      ghost var v1, n1, o1, f1, g1 := view, inodes, owner, Filled(view, inodes[i]), logged;
      EntryEmpty(view, inodes[i], s, f0);
      r := BmapEntry(i, j);
      if r.None? {
        return;
      }
      AllocOnlyJoin(old(view), old(inodes), o0, v1, n1, o1, view, inodes, owner, l, i);
      GivenLogs(l, i, {s}, {}, o1, f1, g1, owner, Filled(view, inodes[i]), inodes[i].addrs[NDIRECT], logged);
      OnlyLoggedJoin(old(view), v1, view, g1, logged);
      GivenJoin(l, i, {NDIRECT}, {s}, {}, o0, f0, g0, o1, f1, n1[i].addrs[NDIRECT], g1,
                owner, Filled(view, inodes[i]), inodes[i].addrs[NDIRECT], logged);
      EntryWants(j);
    }

    /** Copy the in-memory inode to its place on disk. */
    method Iupdate(i: nat)
      requires Consistent() && i < |inodes| && Synced(view, inodes, l, i)
      modifies this`view, this`logged
      ensures Valid() && Extends(old(view), inodes, owner, view, inodes, owner)
      ensures logged == old(logged) + {IBlock(l, i)} && OnlyLogged(old(view), view, logged)
    {
      hide Extends, Mapped, Marked, BitSet, Synced, WithInode, Addr, OnlyLogged;
      InodeFits(view, inodes, l, owner, i);
      UpdateSyncs(view, inodes, l, i);
      var ib := IBlock(l, i);
      MetaWriteKeeps(view, inodes, l, owner, ib, WithInode(view[ib], i, inodes[i]));
      ExtendsFilesOk(view, inodes, owner, view[ib := WithInode(view[ib], i, inodes[i])], inodes, owner);
      OnlyLoggedOne(view, ib, WithInode(view[ib], i, inodes[i]), logged + {ib});
      view := view[ib := WithInode(view[ib], i, inodes[i])];
      logged := logged + {ib};
    }

    /** Read n bytes of file i from off into a user buffer whose first `room` bytes are writable.
        -1 when the copy out fails. Reading allocates, changes and logs nothing. */
    method Readi(i: nat, off: uint, n: uint, room: nat) returns (r: int, dst: seq<byte>)
      requires Consistent() && i < |inodes|
      modifies this
      ensures view == old(view) && inodes == old(inodes) && owner == old(owner) && logged == old(logged)
      ensures off > inodes[i].size || off + n >= 0x1_0000_0000 ==> r == 0 && dst == []
      ensures off <= inodes[i].size && off + n < 0x1_0000_0000 ==>
                var m := if off + n > inodes[i].size then inodes[i].size - off else n;
                && (r == if m <= room then m else -1)
                && (r >= 0 ==> dst == Contents(view, inodes[i])[off..off + m])
    {
      hide Extends, Owns, FileOk, FilesOk, BitSet, Addr, Contents, Filled, Lacking, Wanted, Given, FileSystem.Consistent;
      ConsistentFile(i);
      ConsistentOwns();
      dst := [];
      if off > inodes[i].size || off + n >= 0x1_0000_0000 {
        return 0, [];
      }
      var n := n;
      if off + n > inodes[i].size {
        n := inodes[i].size - off;
      }
      var tot, off' := 0, off;
      while tot < n
        invariant view == old(view) && inodes == old(inodes) && owner == old(owner) && logged == old(logged)
        invariant 0 <= tot <= n && off' == off + tot && off + n <= inodes[i].size
        invariant tot <= room && dst == Contents(view, inodes[i])[off..off + tot]
      {
        var m := if n - tot < BSIZE - off' % BSIZE then n - tot else BSIZE - off' % BSIZE;
        var b := ReadBlock(i, off', m);
        if tot + m > room {
          return -1, dst;
        }
        SliceJoin(Contents(view, inodes[i]), off, off', off' + m);
        dst := dst + view[b][off' % BSIZE..off' % BSIZE + m];
        tot, off' := tot + m, off' + m;
      }
      return tot, dst;
    }

    /** The block that m bytes of the file at off are read from. */
    method ReadBlock(i: nat, off: nat, m: nat) returns (b: nat)
      requires Consistent() && i < |inodes| && |inodes[i].addrs| == NDIRECT + 1 && inodes[i].size <= MAXFILE * BSIZE
      requires 0 < m && off % BSIZE + m <= BSIZE && off + m <= inodes[i].size
      modifies this
      ensures view == old(view) && inodes == old(inodes) && owner == old(owner) && logged == old(logged)
      ensures b < |view| && view[b][off % BSIZE..off % BSIZE + m] == Contents(view, inodes[i])[off..off + m]
    {
      hide Extends, Owns, FileOk, FilesOk, BitSet, Addr, Contents, Filled, Lacking, Wanted, Given, FileSystem.Consistent;
      ConsistentFile(i);
      ConsistentOwns();
      ReadChunk(view, inodes, l, owner, i, off, m);
      var r := Bmap(i, off / BSIZE);
      b := r.value;
    }

    /** One turn of writei's loop: s goes into a single block at off, and the copy in manages `got`
        of its bytes; the block is logged if that is all of them. `vsize` is how far the file has
        been written so far. */
    method WriteChunk(i: nat, off: nat, s: seq<byte>, got: nat, ghost vsize: nat) returns (r: Option<nat>)
      requires Consistent() && i < |inodes| && FileOk(view, inodes[i].(size := vsize))
      requires s != [] && off % BSIZE + |s| <= BSIZE && off <= vsize && off + |s| <= MAXFILE * BSIZE && got <= |s|
      modifies this`view, this`inodes, this`owner, this`logged
      ensures r.None? <==> old(Room()) < Lacking(Wanted(off / BSIZE), Filled(old(view), old(inodes)[i]))
      ensures r.Some? ==>
                && Consistent() && |inodes| == |old(inodes)| && OnlyFile(old(view), old(inodes), view, inodes, l, i)
                && FileOk(view, Extended(inodes[i].(size := vsize), off + |s|))
                && FileOk(view, Extended(inodes[i].(size := vsize), off + got))
                && Contents(view, Extended(inodes[i].(size := vsize), off + got)) ==
                   Overlay(Contents(old(view), old(inodes)[i].(size := vsize)), off, s[..got])
      ensures r.Some? ==>
                && GrewBy(i, Wanted(off / BSIZE), if got == |s| then {r.value} else {})
                && (got == |s| ==> OnlyLogged(old(view), view, logged))
                && r.value in owner && owner[r.value] == (i, FileSlot(off / BSIZE))
                && (old(inodes)[i].addrs[NDIRECT] != 0 ==> inodes[i].addrs[NDIRECT] == old(inodes)[i].addrs[NDIRECT])
    {
      hide Extends, Owns, Addr, BitSet, FileOk, Contents, Overlay, Patched, SameFiles, OnlyFile, OnlyLogged, Given, Lacking, Filled, Wanted;
      ghost var slot := FileSlot(off / BSIZE);
      r := Bmap(i, off / BSIZE);
      if r.None? {
        return;
      }
      ghost var v1, ino := view, inodes[i].(size := vsize);
      var b := r.value;
      ExtendsContents(old(view), old(inodes), l, old(owner), view, inodes, owner, i, vsize);
      ExtendsSpares(old(view), old(inodes), l, old(owner), view, inodes, owner, i);
      IndirectStays(old(view), old(inodes), old(owner), view, inodes, owner, i);
      FileSizes(view, ino);
      OwnsSizes(view, inodes, l, owner);
      AddrOfSized(view, inodes[i], vsize, slot);
      FileGrows(view, ino, off, |s|);
      WriteContents(view, inodes, l, owner, i, ino, b, off, s[..got]);
      ghost var data := Patched(view[b], off % BSIZE, s[..got]);
      WriteKeeps(view, inodes, l, owner, b, data);
      WriteSpares(view, inodes, l, owner, i, b, data);
      WriteFileOk(view, inodes, l, owner, b, data, i, Extended(ino, off + |s|));
      FileShrinks(view[b := data], Extended(ino, off + |s|), Extended(ino, off + got));
      OnlyFileStep(old(view), old(inodes), v1, inodes, b, data, l, i);
      FilledSame(view, view[b := data], inodes[i]);
      GivenAlso(l, i, Wanted(off / BSIZE), {b}, old(owner), Filled(old(view), old(inodes)[i]), old(logged),
                owner, Filled(view, inodes[i]), inodes[i].addrs[NDIRECT], logged);
      OnlyLoggedOne(view, b, data, logged + {b});
      OnlyLoggedJoin(old(view), view, view[b := data], logged, logged + {b});
      view := view[b := Patched(view[b], off % BSIZE, s[..got])];
      if got == |s| {
        logged := logged + {b};
      }
    }

    lemma ConsistentOwns()
      requires Consistent()
      ensures Owns(view, inodes, l, owner, {}, {}) && FilesOk(view, inodes) && LayoutOk(l) && |view| == l.size
    {
    }

    lemma ConsistentIs()
      requires Owns(view, inodes, l, owner, {}, {}) && FilesOk(view, inodes)
      ensures Consistent()
    {
    }

    lemma ConsistentFile(i: nat)
      requires Consistent() && i < |inodes|
      ensures FilesOk(view, inodes) && FileOk(view, inodes[i])
      ensures |inodes[i].addrs| == NDIRECT + 1 && inodes[i].size <= MAXFILE * BSIZE
    {
    }

    /** writei's loop. Ends early, short of |src|, when a copy in fails; the failed chunk's bytes may
        be in the cached block all the same. */
    method WriteLoop(i: nat, off: nat, src: seq<byte>, readable: nat) returns (ok: bool, tot: nat, ghost got: nat)
      requires Consistent() && i < |inodes| && off <= inodes[i].size && off + |src| <= MAXFILE * BSIZE
      modifies this`view, this`inodes, this`owner, this`logged
      ensures ok <==> old(Room()) >= Missing(old(view), old(inodes)[i], off, |src|, readable)
      ensures ok ==>
                && Consistent() && |inodes| == |old(inodes)| && OnlyFile(old(view), old(inodes), view, inodes, l, i)
                && Written(Contents(old(view), old(inodes)[i]), off, src, readable, tot, got, view, inodes[i])
                && |inodes[i].addrs| == NDIRECT + 1 && tot == Reported(off, |src|, readable) && (tot == |src| ==> OnlyLogged(old(view), view, logged))
                && Spending(l, i, off / BSIZE, Visited(off, |src|, readable), Touched(off, tot),
                            old(owner), Filled(old(view), old(inodes)[i]), old(logged),
                            owner, Filled(view, inodes[i]), inodes[i].addrs[NDIRECT], logged)
    {
      hide Owns, FileOk, Contents, Overlay, OnlyFile, Filled, Lacking, Wanted, WantedRange, Visited, Touched,
           FileSystem.Consistent, Written, Spending, Given, FileSlot, Turning, OnlyLogged, Reported;
      ConsistentFile(i);
      ConsistentOwns();
      ghost var c0, f0, turns := Contents(view, inodes[i]), Filled(view, inodes[i]), 0;
      TurningStart(l, i, off, src, view, inodes, owner, logged);
      OnlyLoggedSame(view, logged);
      tot, got := 0, 0;
      var o := off;
      while tot < |src|
        invariant Consistent() && i < |inodes| == |old(inodes)| && |inodes[i].addrs| == NDIRECT + 1
        invariant o == off + tot && got == tot <= |src| && tot <= readable && OnlyLogged(old(view), view, logged)
        invariant Turning(l, i, off, src, tot, turns, old(view), old(inodes), old(owner), old(logged), view, inodes, owner, logged)
      {
        var m := if |src| - tot < BSIZE - o % BSIZE then |src| - tot else BSIZE - o % BSIZE;
        TurningNow(l, i, off, src, tot, turns, old(view), old(inodes), old(owner), old(logged), view, inodes, owner, logged, m, readable);
        ghost var v1, n1, o1, g1 := view, inodes, owner, logged;
        var chunk := Got(tot, m, readable);
        var b := WriteChunk(i, o, src[tot..tot + m], chunk, Max(|c0|, o));
        if b.None? {
          return false, tot, got;
        }
        ConsistentFile(i);
        ConsistentOwns();
        OwnerInjective(view, inodes, l, owner);
        TurningStep(l, i, off, src, tot, turns, old(view), old(inodes), old(owner), old(logged), v1, n1, o1, g1,
                    view, inodes, owner, logged, m, readable, b.value);
        if chunk == m {
          GivenLogs(l, i, Wanted(o / BSIZE), {b.value}, o1, Filled(v1, n1[i]), g1, owner, Filled(view, inodes[i]), inodes[i].addrs[NDIRECT], logged);
          OnlyLoggedJoin(old(view), v1, view, g1, logged);
        }
        if chunk < m {
          got := tot + chunk;
          RoomLeft(i, off, turns + 1, tot, f0, old(owner), old(logged));
          return true, tot, got;
        }
        tot, o, got, turns := tot + m, o + m, tot + m, turns + 1;
      }
      TurningEnd(l, i, off, src, turns, old(view), old(inodes), old(owner), old(logged), view, inodes, owner, logged, readable);
      RoomLeft(i, off, turns, tot, f0, old(owner), old(logged));
      return true, tot, got;
    }

    /** What was given out was there. */
    lemma RoomLeft(i: nat, off: nat, turns: nat, tot: nat, f0: set<nat>, o0: Owner, g0: set<nat>)
      requires Consistent() && i < |inodes| && |inodes[i].addrs| == NDIRECT + 1
      requires Spending(l, i, off / BSIZE, turns, Touched(off, tot), o0, f0, g0, owner, Filled(view, inodes[i]), inodes[i].addrs[NDIRECT], logged)
      ensures l.size - l.nmeta - |o0| >= Lacking(WantedRange(off / BSIZE, turns), f0)
    {
      hide Filled, Lacking, WantedRange, AllocLog, FileSystem.Consistent;
      RoomIs();
    }

    /** Write src at off. Refuses a start past the end of the file, a wrap-around, and a file that would
        get too big; fails if fewer blocks are free than it would have to add. Otherwise exactly the
        bytes from off on are replaced, or appended, and no other file changes. The blocks logged are
        those added, with their bitmap blocks, those completely written, the indirect block if it gets
        an entry, and the inode's. */
    method Writei(i: nat, off: uint, src: seq<byte>, readable: nat) returns (r: WriteResult, ghost got: nat)
      requires Valid() && i < |inodes| && |src| < 0x1_0000_0000
      modifies this`view, this`inodes, this`owner, this`logged
      ensures r.Refused? <==>
                (off > old(inodes)[i].size || off + |src| >= 0x1_0000_0000 || off + |src| > MAXFILE * BSIZE)
      ensures r.Refused? ==> view == old(view) && inodes == old(inodes) && owner == old(owner) && logged == old(logged)
      ensures r.OutOfBlocks? <==>
                !r.Refused? && |FreeBlocks(old(view), l)| < Missing(old(view), old(inodes)[i], off, |src|, readable)
      ensures r.Wrote? ==>
                && Valid() && |inodes| == |old(inodes)| && SameFiles(old(view), old(inodes), view, inodes, i)
                && |inodes[i].addrs| == NDIRECT + 1 && inodes[i].size <= MAXFILE * BSIZE
                && r.tot == Reported(off, |src|, readable) && got == (if |src| <= readable then |src| else readable)
                && inodes[i] == old(inodes)[i].(addrs := inodes[i].addrs, size := Max(old(inodes)[i].size, off + r.tot))
                && Contents(view, inodes[i]) == Overlay(Contents(old(view), old(inodes)[i]), off, src[..got])[..inodes[i].size]
      ensures r.Wrote? ==>
                && Grew(i, WantedRange(off / BSIZE, Visited(off, |src|, readable)), old(owner), Filled(old(view), old(inodes)[i]),
                        owner, Filled(view, inodes[i]), inodes[i].addrs[NDIRECT])
                && logged == old(logged) + AllocLog(l, old(owner), owner, inodes[i].addrs[NDIRECT])
                             + FileBlocks(owner, i, off / BSIZE, Touched(off, r.tot)) + {IBlock(l, i)}
                && |logged - old(logged) - {IBlock(l, i)}| <= LogBound(l, off, |src|)
                && (r.tot == |src| ==> OnlyLogged(old(view), view, logged))
    {
      hide Extends, Owns, Addr, BitSet, FileOk, Contents, Overlay, OnlyFile, LogBound, Written, FileSystem.Consistent, Synced, SameFiles, FilesOk,
           Filled, Lacking, WantedRange, Visited, Grew, AllocLog, FileBlocks, FreeBlocks, Touched, FileSlot, Spending, OnlyLogged,
           Reported;
      ConsistentFile(i);
      RoomIs();
      if off > inodes[i].size || off + |src| >= 0x1_0000_0000 {
        return Refused, 0;
      }
      if off + |src| > MAXFILE * BSIZE {
        return Refused, 0;
      }
      ConsistentOwns();
      var ok, tot;
      ok, tot, got := WriteLoop(i, off, src, readable);
      if !ok {
        return OutOfBlocks, 0;
      }
      ghost var c0, v1, n1 := Contents(old(view), old(inodes)[i]), view, inodes;
      WrittenResize(c0, off, src, readable, tot, got, view, inodes[i]);
      SyncedOnly(old(view), old(inodes), view, inodes, l, i);
      OnlyFileSame(old(view), old(inodes), view, inodes, l, i);
      ConsistentOwns();
      LoopBound(i, off, |src|, readable, tot, old(view), old(inodes)[i], old(owner), old(logged));
      ResizeKeeps(view, inodes, l, owner, i, Max(|c0|, off + tot));
      SyncedResized(view, inodes, l, i, inodes[i].(size := Max(|c0|, off + tot)));
      if off + tot > inodes[i].size {
        inodes := inodes[i := inodes[i].(size := off + tot)];
      }
      assert inodes == n1[i := n1[i].(size := Max(|c0|, off + tot))];
      ConsistentIs();
      ghost var v2, g2 := view, logged;
      FilledSized(v2, n1[i], inodes[i].size);
      Iupdate(i);
      ConsistentOwns();
      LoggedSize(old(logged), g2, IBlock(l, i));
      if tot == |src| {
        OnlyLoggedJoin(old(view), v2, view, g2, logged);
      }
      FilledExtends(v2, inodes, l, owner, view, i);
      ExtendsSpares(v2, inodes, l, owner, view, inodes, owner, -1);
      WriteiSame(old(view), old(inodes), v1, n1, v2, inodes, view, i);
      return Wrote(tot), got;
    }

    /** The log of writei's loop is bounded. */
    lemma LoopBound(i: nat, off: nat, n: nat, readable: nat, tot: nat, v0: seq<Block>, ino0: Inode, o0: Owner, g0: set<nat>)
      requires Consistent() && i < |inodes| && |inodes[i].addrs| == NDIRECT + 1
      requires FileOk(v0, ino0) && off <= ino0.size && tot <= n && tot <= readable
      requires Spending(l, i, off / BSIZE, Visited(off, n, readable), Touched(off, tot), o0, Filled(v0, ino0), g0,
                        owner, Filled(view, inodes[i]), inodes[i].addrs[NDIRECT], logged)
      ensures |logged - g0| <= LogBound(l, off, n)
      ensures Grew(i, WantedRange(off / BSIZE, Visited(off, n, readable)), o0, Filled(v0, ino0), owner, Filled(view, inodes[i]), inodes[i].addrs[NDIRECT])
      ensures logged == g0 + AllocLog(l, o0, owner, inodes[i].addrs[NDIRECT]) + FileBlocks(owner, i, off / BSIZE, Touched(off, tot))
    {
      hide Owns, FileOk, Addr, FilesOk, Grew, AllocLog, FileBlocks, WantedRange, LogBound, FileSlot;
      ConsistentOwns();
      FileSizes(v0, ino0);
      OwnerInjective(view, inodes, l, owner);
      OwnedIsData(view, l, owner, {});
      if inodes[i].addrs[NDIRECT] != 0 {
        IndirectIsData(view, inodes, l, owner, i);
      }
      if off % BSIZE != 0 {
        AlreadyMapped(v0, ino0, off);
        FileSlotBound(off / BSIZE);
        SlotFilled(v0, ino0, FileSlot(off / BSIZE));
      }
      hide Filled, Spending;
      VisitedBound(off, n, readable, tot);
      SpendingBound(l, i, off, Visited(off, n, readable), Touched(off, tot), o0, Filled(v0, ino0), g0,
                    owner, Filled(view, inodes[i]), inodes[i].addrs[NDIRECT], logged, n);
    }

    /** itrunc's first loop: free the direct blocks. */
    method TruncDirect(i: nat) returns (ok: bool, ghost gone: set<nat>)
      requires Consistent() && i < |inodes|
      modifies this`view, this`inodes, this`owner, this`logged
      ensures ok && Truncating(old(view), old(inodes), old(owner), l, i, view, inodes, owner, gone, {})
      ensures |inodes| == |old(inodes)| && forall s :: 0 <= s < NDIRECT ==> s in gone
      ensures |inodes[i].addrs| == NDIRECT + 1 && forall s :: 0 <= s < NDIRECT ==> inodes[i].addrs[s] == 0
      ensures inodes[i] == old(inodes)[i].(addrs := inodes[i].addrs) && FreeLogged(l, old(owner), owner, old(logged), logged)
    {
      hide Truncating, Owns, FilesOk, BitSet, FlipBit, FreeLogged, BBlock;
      ghost var v0, n0, o0, g0 := view, inodes, owner, logged;
      FreeLoggedStart(l, o0, g0);
      TruncatingStart(v0, n0, o0, l, i);
      TruncatingFacts(v0, n0, o0, l, i, view, inodes, owner, {}, {});
      gone := {};
      var k := 0;
      while k < NDIRECT
        invariant 0 <= k <= NDIRECT && |inodes| == |n0|
        invariant Truncating(v0, n0, o0, l, i, view, inodes, owner, gone, {})
        invariant |inodes[i].addrs| == NDIRECT + 1 && inodes[i] == n0[i].(addrs := inodes[i].addrs)
        invariant FreeLogged(l, o0, owner, g0, logged)
        invariant forall s :: 0 <= s < k ==> s in gone && inodes[i].addrs[s] == 0
      {
        TruncatingFacts(v0, n0, o0, l, i, view, inodes, owner, gone, {});
        assert inodes[i].addrs[k] == Addr(view, inodes[i], k);
        if inodes[i].addrs[k] != 0 {
          ghost var b := inodes[i].addrs[k];
          TruncatingFree(v0, n0, o0, l, i, view, inodes, owner, gone, {}, k, b);
          FreeLoggedStep(l, o0, owner, g0, logged, b);
          ok := Bfree(inodes[i].addrs[k]);
          owner := owner - {b};
          gone := gone + {k};
          assert {} + {(i, k)} == {(i, k)};
          TruncatingClear(v0, n0, o0, l, i, view, inodes, owner, gone, {(i, k)}, k);
          inodes := inodes[i := inodes[i].(addrs := inodes[i].addrs[k := 0])];
        } else {
          TruncatingSkip(v0, n0, o0, l, i, view, inodes, owner, gone, {}, k);
          gone := gone + {k};
        }
        k := k + 1;
      }
      ok := true;
    }

    /** itrunc's second part: free the entries of the indirect block, then the block itself. */
    method TruncIndirect(i: nat, ghost v0: seq<Block>, ghost n0: seq<Inode>, ghost o0: Owner, ghost g0: set<nat>, ghost gone0: set<nat>)
        returns (ok: bool, ghost gone: set<nat>)
      requires i < |inodes| && Truncating(v0, n0, o0, l, i, view, inodes, owner, gone0, {})
      requires |inodes[i].addrs| == NDIRECT + 1 && FreeLogged(l, o0, owner, g0, logged)
      modifies this`view, this`inodes, this`owner, this`logged
      ensures ok && |inodes| == |old(inodes)| && Truncating(v0, n0, o0, l, i, view, inodes, owner, gone, {})
      ensures gone0 <= gone && forall s :: NDIRECT <= s < SLOTS ==> s in gone
      ensures inodes[i] == old(inodes)[i].(addrs := old(inodes)[i].addrs[NDIRECT := 0]) && FreeLogged(l, o0, owner, g0, logged)
    {
      hide Truncating, Owns, FilesOk, BitSet, FlipBit, DeadEntries, DeadFrom, Word, FreeLogged, BBlock;
      TruncatingFacts(v0, n0, o0, l, i, view, inodes, owner, gone0, {});
      gone := gone0;
      ghost var x := inodes[i].addrs[NDIRECT];
      assert x == Addr(view, inodes[i], NDIRECT);
      if inodes[i].addrs[NDIRECT] == 0 {
        gone := SkipAll(v0, n0, o0, gone, i);
        assert inodes[i].addrs[NDIRECT := 0] == inodes[i].addrs;
        assert inodes[i].(addrs := inodes[i].addrs[NDIRECT := 0]) == inodes[i];
        return true, gone;
      }
      IndirectIsData(view, inodes, l, owner, i);
      ghost var dead: set<(nat, nat)> := {};
      NoneDead(view, inodes[i], i);
      var a := view[inodes[i].addrs[NDIRECT]];
      var j := 0;
      while j < NINDIRECT
        invariant 0 <= j <= NINDIRECT && inodes == old(inodes) && |view| == l.size && view[x] == a
        invariant Truncating(v0, n0, o0, l, i, view, inodes, owner, gone, dead)
        invariant DeadEntries(view, inodes[i], i, j, dead) && FreeLogged(l, o0, owner, g0, logged)
        invariant gone0 <= gone && forall s :: NDIRECT < s < NDIRECT + 1 + j ==> s in gone
      {
        ghost var s := NDIRECT + 1 + j;
        TruncatingFacts(v0, n0, o0, l, i, view, inodes, owner, gone, dead);
        DeadEntriesBound(view, inodes[i], i, j, dead);
        ghost var v1, d1 := view, dead;
        assert Word(a, j) == Addr(view, inodes[i], s);
        if Word(a, j) != 0 {
          ghost var b := Word(a, j);
          TruncatingFree(v0, n0, o0, l, i, view, inodes, owner, gone, dead, s, b);
          FreeLoggedStep(l, o0, owner, g0, logged, b);
          FlipKeepsAddrs(view, inodes, l, owner, dead, i, b);
          FlipKeepsData(view, l, b);
          ok := Bfree(Word(a, j));
          owner := owner - {b};
          dead := dead + {(i, s)};
        } else {
          TruncatingSkip(v0, n0, o0, l, i, view, inodes, owner, gone, dead, s);
        }
        gone := gone + {s};
        DeadEntriesNext(v1, inodes[i], i, j, d1, view, dead);
        j := j + 1;
      }
      TruncatingFacts(v0, n0, o0, l, i, view, inodes, owner, gone, dead);
      DeadEntriesBound(view, inodes[i], i, NINDIRECT, dead);
      assert x == Addr(view, inodes[i], NDIRECT);
      TruncatingFree(v0, n0, o0, l, i, view, inodes, owner, gone, dead, NDIRECT, x);
      FreeLoggedStep(l, o0, owner, g0, logged, x);
      FlipKeepsAddrs(view, inodes, l, owner, dead, i, x);
      DeadEntriesAll(view, inodes[i], i, dead, FlipBit(view, l, x));
      ok := Bfree(inodes[i].addrs[NDIRECT]);
      owner := owner - {x};
      gone := gone + {NDIRECT};
      TruncatingClear(v0, n0, o0, l, i, view, inodes, owner, gone, dead + {(i, NDIRECT)}, NDIRECT);
      inodes := inodes[i := inodes[i].(addrs := inodes[i].addrs[NDIRECT := 0])];
      ok := true;
    }

    /** With no indirect block all its entries are empty. */
    lemma SkipAll(v0: seq<Block>, n0: seq<Inode>, o0: Owner, gone0: set<nat>, i: nat) returns (gone: set<nat>)
      requires i < |inodes| && Truncating(v0, n0, o0, l, i, view, inodes, owner, gone0, {})
      requires |inodes[i].addrs| == NDIRECT + 1 && inodes[i].addrs[NDIRECT] == 0
      ensures Truncating(v0, n0, o0, l, i, view, inodes, owner, gone, {})
      ensures gone0 <= gone && forall s :: NDIRECT <= s < SLOTS ==> s in gone
    {
      hide Truncating;
      gone := gone0;
      var s := NDIRECT;
      while s < SLOTS
        invariant NDIRECT <= s <= SLOTS && gone0 <= gone && forall t :: NDIRECT <= t < s ==> t in gone
        invariant Truncating(v0, n0, o0, l, i, view, inodes, owner, gone, {})
      {
        TruncatingSkip(v0, n0, o0, l, i, view, inodes, owner, gone, {}, s);
        gone := gone + {s};
        s := s + 1;
      }
    }

    /** Discard a file's contents. Exactly its blocks are freed, the "freeing free block" panic never
        happens, and no other file changes. The bitmap blocks of its blocks and the inode's block are
        logged: within MAXOPBLOCKS if the bitmap has fewer blocks than that. */
    method Itrunc(i: nat) returns (ok: bool)
      requires Valid() && i < |inodes|
      modifies this`view, this`inodes, this`owner, this`logged
      ensures ok && Valid() && SameFiles(old(view), old(inodes), view, inodes, i)
      ensures |inodes| == |old(inodes)| && inodes[i] == old(inodes)[i].(size := 0, addrs := inodes[i].addrs)
      ensures forall s :: 0 <= s < SLOTS ==> Addr(view, inodes[i], s) == 0
      ensures forall b :: b in owner <==> b in old(owner) && old(owner)[b].0 != i
      ensures logged == old(logged) + BitmapOf(l, BlocksOf(old(owner), i)) + {IBlock(l, i)}
      ensures |logged - old(logged)| <= BitmapBlocks(l) + 1
    {
      hide FreeLogged, BitmapOf, BlocksOf, Truncating, Owns, FilesOk, BitSet, Addr, Synced, SameFiles, OwnerLess, OthersOk, FileOk, FileSystem.Consistent;
      ghost var v0, n0, o0, g0, gone := view, inodes, owner, logged, {};
      ConsistentOwns();
      OwnsBlocks(v0, n0, l, o0);
      OwnerSlots(v0, n0, l, o0);
      ok, gone := TruncDirect(i);
      ok, gone := TruncIndirect(i, v0, n0, o0, g0, gone);
      TruncatingFacts(v0, n0, o0, l, i, view, inodes, owner, gone, {});
      TruncatingEnd(v0, n0, o0, l, i, view, inodes, owner, gone);
      FreeLoggedEnd(l, o0, owner, g0, logged, i);
      ghost var n1 := inodes;
      EmptyFile(view, inodes, l, owner, i);
      SyncedSame(v0, n0, view, inodes, l, i, -1);
      SyncedResized(view, inodes, l, i, inodes[i].(size := 0));
      SameFilesTransitive(v0, n0, view, n1, view, n1[i := n1[i].(size := 0)], i);
      inodes := inodes[i := inodes[i].(size := 0)];
      ConsistentIs();
      ghost var v1 := view;
      Iupdate(i);
      FreedSize(g0, BitmapOf(l, BlocksOf(o0, i)), IBlock(l, i));
      ConsistentOwns();
      ExtendsSpares(v1, inodes, l, owner, view, inodes, owner, -1);
      SameFilesMore(v1, inodes, view, inodes, i);
      SameFilesTransitive(v0, n0, v1, inodes, view, inodes, i);
      NoAddrs(view, inodes[i]);
    }
  }
}
