// Reading and writing an open file through its offset. A write is cut into transactions small enough
// for the log.
module File {
  import opened Blocks
  import Counting
  import opened FsState
  import opened FsSpace
  import opened Fs

  class OpenFile {
    const fs: FileSystem
    const inum: nat
    const canRead: bool
    const canWrite: bool
    const maxop: nat       // MAXOPBLOCKS
    var off: uint

    constructor (fs: FileSystem, inum: nat, canRead: bool, canWrite: bool, maxop: nat)
      ensures this.fs == fs && this.inum == inum && this.canRead == canRead && this.canWrite == canWrite
      ensures this.maxop == maxop && off == 0
    {
      this.fs, this.inum, this.canRead, this.canWrite, this.maxop := fs, inum, canRead, canWrite, maxop;
      off := 0;
    }

    /** Read up to n bytes at the offset and advance it by what was read: what there is of them before the
        end of the file, none if the offset is past it or the sum wraps around; -1 if the file may not be
        read or the memory, of which `room` bytes can be written, is too small. */
    method FileRead(n: uint, room: nat) returns (r: int, dst: seq<byte>)
      requires fs.Valid() && inum < |fs.inodes|
      modifies this`off, fs
      ensures fs.Valid() && fs.view == old(fs.view) && fs.inodes == old(fs.inodes) && fs.logged == old(fs.logged)
      ensures r == if canRead then ReadAmount(fs.inodes[inum].size, old(off), n, room) else -1
      ensures off == if r > 0 then old(off) + r else old(off)
      ensures r >= 0 ==> |dst| == r && (r > 0 ==> dst == Contents(fs.view, fs.inodes[inum])[old(off)..off])
    {
      hide Owns, Synced, Contents;
      if !canRead {
        return -1, [];
      }
      assert fs.Consistent();
      fs.ConsistentFile(inum);
      r, dst := fs.Readi(inum, off, n, room);
      if r > 0 {
        off := off + r;
      }
    }

    /** Reads of n bytes at a time until one gives nothing, as cat does it: joined, they are the file from
        the offset on. */
    method ReadAll(n: uint, room: nat) returns (all: seq<byte>)
      requires fs.Valid() && inum < |fs.inodes| && canRead && 0 < n <= room && n + MAXFILE * BSIZE < 0x1_0000_0000
      modifies this`off, fs
      ensures fs.Valid() && fs.view == old(fs.view) && fs.inodes == old(fs.inodes) && fs.logged == old(fs.logged)
      ensures old(off) <= fs.inodes[inum].size ==>
                all == Contents(fs.view, fs.inodes[inum])[old(off)..] && off == fs.inodes[inum].size
      ensures old(off) > fs.inodes[inum].size ==> all == [] && off == old(off)
    {
      hide Owns, Synced, Contents, FileSystem.Valid;
      ValidFacts(fs, inum);
      ghost var c, off0 := Contents(fs.view, fs.inodes[inum]), off;
      all := [];
      var r, dst := FileRead(n, room);
      while r > 0
        invariant fs.Valid() && inum < |fs.inodes|
        invariant fs.view == old(fs.view) && fs.inodes == old(fs.inodes) && fs.logged == old(fs.logged)
        invariant r >= 0 && |dst| == r
        invariant off0 <= |c| ==> off0 <= off - r && off <= |c| && all == c[off0..off - r] && dst == c[off - r..off]
        invariant off0 <= |c| && r == 0 ==> off == |c|
        invariant off0 > |c| ==> r == 0 && all == [] && off == off0
        decreases |c| - off, r
      {
        ReadJoin(c, off0, off - r, off);
        all := all + dst;
        r, dst := FileRead(n, room);
      }
      assert off0 <= |c| ==> c[off0..|c|] == c[off0..];
    }

    /** The largest write that is sure to fit in one transaction. */
    function MaxChunk(): nat
      requires maxop >= 6
    {
      ChunkSize(maxop)
    }

    /** One transaction of a write: begin_op, writei, end_op. It logs at most MAXOPBLOCKS blocks, the last
        of them the inode's; fewer if the disk has few bitmap blocks. */
    method WriteOnce(s: seq<byte>, readable: nat) returns (w: WriteResult, ghost got: nat)
      requires fs.Valid() && inum < |fs.inodes| && maxop >= 6 && |s| <= MaxChunk() && |s| < 0x8000_0000
      modifies this`off, fs`view, fs`inodes, fs`owner, fs`logged
      ensures |fs.logged| <= maxop || w.OutOfBlocks?
      ensures w.Wrote? ==>
                && |fs.logged - {IBlock(fs.l, inum)}| < maxop
                && |fs.logged - {IBlock(fs.l, inum)}| <= MaxChunk() / BSIZE + 2 + BitmapBlocks(fs.l)
      ensures off == if w.Wrote? then old(off) + w.tot else old(off)
      ensures w.Refused? <==>
                (old(off) > old(fs.inodes)[inum].size || old(off) + |s| >= 0x1_0000_0000 || old(off) + |s| > MAXFILE * BSIZE)
      ensures w.Refused? ==> fs.Valid() && fs.view == old(fs.view) && fs.inodes == old(fs.inodes)
      ensures w.OutOfBlocks? <==>
                !w.Refused? && |FreeBlocks(old(fs.view), fs.l)| < Missing(old(fs.view), old(fs.inodes)[inum], old(off), |s|, readable)
      ensures w.Wrote? ==>
                && fs.Valid() && w.tot == Reported(old(off), |s|, readable)
                && Landed(old(fs.view), old(fs.inodes), fs.view, fs.inodes, inum, old(off), s, w.tot, got)
      ensures w.Wrote? ==>
                && Gained(inum, old(off), Visited(old(off), |s|, readable), old(fs.view), old(fs.inodes), old(fs.owner), fs.view, fs.inodes, fs.owner)
                && fs.logged == AllocLog(fs.l, old(fs.owner), fs.owner, fs.inodes[inum].addrs[NDIRECT])
                                + FileBlocks(fs.owner, inum, old(off) / BSIZE, Touched(old(off), w.tot)) + {IBlock(fs.l, inum)}
                && HomeOnly(fs.l, fs.logged) && (w.tot == |s| ==> OnlyLogged(old(fs.view), fs.view, fs.logged))
    {
      hide Owns, Contents, FilesOk, FileOk, SameFiles, FileSystem.Valid, LogBound, FreeBlocks, Missing, Grew, AllocLog, FileBlocks, WantedRange,
           Visited, Touched, Filled, OnlyLogged, HomeOnly, Reported, IBlock, BitmapBlocks, ChunkSize, Landed, Overlay, AddsEntry;
      ValidFacts(fs, inum);
      fs.logged := {};
      w, got := fs.Writei(inum, off, s, readable);
      if w.Wrote? {
        ChunkBound(fs.l, off, |s|, maxop);
        GrewEntry(inum, WantedRange(off / BSIZE, Visited(off, |s|, readable)), old(fs.owner), Filled(old(fs.view), old(fs.inodes)[inum]),
                  fs.owner, Filled(fs.view, fs.inodes[inum]), fs.inodes[inum].addrs[NDIRECT]);
        LoggedHome(old(fs.owner), off, w.tot);
        HasLanded(old(fs.view), old(fs.inodes), fs.view, fs.inodes, inum, off, s, w.tot, got);
        if w.tot > 0 {
          off := off + w.tot;
        }
      }
    }

    /** Every block of a transaction is an inode, bitmap or data block. */
    lemma LoggedHome(o0: Owner, off: nat, tot: nat)
      requires fs.Valid() && inum < |fs.inodes| && |fs.inodes[inum].addrs| == NDIRECT + 1
      requires AddsEntry(o0, fs.owner) ==> fs.inodes[inum].addrs[NDIRECT] != 0
      requires fs.logged == {} + AllocLog(fs.l, o0, fs.owner, fs.inodes[inum].addrs[NDIRECT])
                            + FileBlocks(fs.owner, inum, off / BSIZE, Touched(off, tot)) + {IBlock(fs.l, inum)}
      ensures HomeOnly(fs.l, fs.logged)
      ensures fs.logged == AllocLog(fs.l, o0, fs.owner, fs.inodes[inum].addrs[NDIRECT])
                           + FileBlocks(fs.owner, inum, off / BSIZE, Touched(off, tot)) + {IBlock(fs.l, inum)}
      ensures fs.logged - {} - {IBlock(fs.l, inum)} == fs.logged - {IBlock(fs.l, inum)}
      ensures |fs.logged| <= |fs.logged - {IBlock(fs.l, inum)}| + 1
    {
      hide Owns, FilesOk, Touched, AddsEntry, AllocLog, FileBlocks, IBlock, HomeOnly;
      LoggedWith(fs.logged, IBlock(fs.l, inum));
      ValidFacts(fs, inum);
      fs.ConsistentOwns();
      InodeHome(fs.view, fs.inodes, fs.l, inum);
      LogHome(fs.view, fs.inodes, fs.l, o0, fs.owner, inum, off / BSIZE, Touched(off, tot));
    }

    /** Write the n bytes src at the offset, a transaction at a time; `readable` of them can be read. Every
        transaction logs at most MAXOPBLOCKS blocks. Either all of src is written, replacing or
        extending exactly that part of the file, and the offset moves past it; or the result is -1 and
        this holds of a prefix: the chunks below the largest file size, or what a failed copy left of
        them. A negative n is -1 and writes nothing. -2 is the "out of blocks" panic: fewer blocks are free than the file
        lacks for the transactions that are attempted. `trace` is the file system before and after each
        transaction that is written in full, and `logs` are the blocks those log. */
    method FileWrite(n: int, src: seq<byte>, readable: nat)
        returns (r: int, ghost sizes: seq<nat>, ghost wrote: nat, ghost got: nat, ghost trace: seq<Snap>, ghost logs: seq<set<nat>>)
      requires fs.Valid() && inum < |fs.inodes| && n < 0x8000_0000 && |src| == (if n < 0 then 0 else n) && maxop >= 6
      modifies this`off, fs`view, fs`inodes, fs`owner, fs`logged
      ensures forall k :: 0 <= k < |sizes| ==> sizes[k] <= maxop
      ensures !canWrite ==> r == -1
      ensures !canWrite || n < 0 || (old(off) > old(fs.inodes)[inum].size && n > 0) ==>
                r == -1 && off == old(off) && fs.view == old(fs.view) && fs.inodes == old(fs.inodes)
      ensures r != -2 ==> fs.Valid() && SameFiles(old(fs.view), old(fs.inodes), fs.view, fs.inodes, inum)
      ensures r == -2 ==> canWrite && old(off) <= old(fs.inodes)[inum].size
      ensures canWrite && old(off) <= old(fs.inodes)[inum].size ==>
                (r == -2 <==> |FreeBlocks(old(fs.view), fs.l)| <
                              Missing(old(fs.view), old(fs.inodes)[inum], old(off), Attempted(old(off), |src|, MaxChunk()), readable))
      ensures canWrite && old(off) <= old(fs.inodes)[inum].size && r != -2 ==>
                && Progress(Contents(old(fs.view), old(fs.inodes)[inum]), old(off), src, wrote, got, fs.view, fs.inodes[inum])
                && off == old(off) + wrote
                && r == (if wrote == n then n else -1)
                && wrote == Reach(old(off), Attempted(old(off), |src|, MaxChunk()), readable, MaxChunk())
                && Traced(fs.l, inum, old(off), src, maxop, old(fs.view), old(fs.inodes), trace, logs)
                && (r >= 0 ==> trace[|trace|-1] == Snap(fs.view, fs.inodes, fs.owner, wrote))
    {
      hide Owns, Contents, FilesOk, FileOk, SameFiles, Progress, FileSystem.Valid, FreeBlocks, Missing, Attempted, Filewriting, Recorded, Traced,
           Reach, ChunkSize;
      ValidFacts(fs, inum);
      ValidState(fs);
      fs.ConsistentOwns();
      ghost var v0, n0, o0, off0, chunk := fs.view, fs.inodes, fs.owner, off, MaxChunk();
      FilewritingStart(fs.l, inum, off, src, readable, chunk, v0, n0, o0);
      RecordedStart(fs.l, inum, off, src, readable, chunk, maxop, v0, n0, o0);
      sizes, wrote, got, trace, logs := [], 0, 0, [Snap(v0, n0, o0, 0)], [];
      if !canWrite {
        return -1, [], 0, 0, trace, logs;
      }
      var i := 0;
      while i < n
        invariant 0 <= i <= |src| && off == off0 + i && i <= readable && (n <= 0 ==> fs.view == v0 && fs.inodes == n0)
        invariant fs.Valid() && inum < |fs.inodes|
        invariant Filewriting(fs.l, inum, off0, src, readable, chunk, v0, n0, o0, i, fs.view, fs.inodes, fs.owner)
        invariant forall k :: 0 <= k < |sizes| ==> sizes[k] <= maxop
        invariant Recorded(fs.l, inum, off0, src, maxop, v0, n0, i, fs.view, fs.inodes, fs.owner, trace, logs)
      {
        RecordedIs(fs.l, inum, off0, src, maxop, v0, n0, i, fs.view, fs.inodes, fs.owner, trace, logs);
        var w, n1, g := WriteNext(src, i, readable, off0, v0, n0, o0, trace, logs);
        if w.OutOfBlocks? {
          return -2, sizes, i, i, trace, logs;
        }
        if w.Refused? {
          return -1, sizes, i, i, trace, logs;
        }
        sizes := sizes + [|fs.logged|];
        if w.tot != n1 {
          return -1, sizes, i + w.tot, i + g, trace, logs;
        }
        trace, logs := trace + [Snap(fs.view, fs.inodes, fs.owner, i + n1)], logs + [fs.logged];
        i := i + w.tot;
      }
      ValidFacts(fs, inum);
      fs.ConsistentOwns();
      FilewritingEnd(fs.l, inum, off0, src, readable, chunk, v0, n0, o0, fs.view, fs.inodes, fs.owner);
      RecordedIs(fs.l, inum, off0, src, maxop, v0, n0, i, fs.view, fs.inodes, fs.owner, trace, logs);
      r, wrote, got := if i == n then n else -1, i, i;
    }

    /** One turn of filewrite's loop: the next n bytes of src from i on, as many as fit one transaction. */
    method WriteNext(src: seq<byte>, i: nat, readable: nat, ghost off0: nat, ghost v0: seq<Block>, ghost n0: seq<Inode>, ghost o0: Owner,
                     ghost trace: seq<Snap>, ghost logs: seq<set<nat>>)
        returns (w: WriteResult, n: nat, ghost got: nat)
      requires fs.Valid() && inum < |fs.inodes| && maxop >= 6 && i < |src| < 0x8000_0000 && i <= readable && off == off0 + i && off0 < 0x1_0000_0000
      requires inum < |n0| && |n0[inum].addrs| == NDIRECT + 1 && n0[inum].size <= MAXFILE * BSIZE && LayoutOk(fs.l) && |v0| == fs.l.size
      requires Filewriting(fs.l, inum, off0, src, readable, MaxChunk(), v0, n0, o0, i, fs.view, fs.inodes, fs.owner)
      requires Recorded(fs.l, inum, off0, src, maxop, v0, n0, i, fs.view, fs.inodes, fs.owner, trace, logs)
      modifies this`off, fs`view, fs`inodes, fs`owner, fs`logged
      ensures |fs.logged| <= maxop || w.OutOfBlocks?
      ensures off == if w.Wrote? then old(off) + w.tot else old(off)
      ensures w.OutOfBlocks? ==>
                off0 <= n0[inum].size && |FreeBlocks(v0, fs.l)| < Missing(v0, n0[inum], off0, Attempted(off0, |src|, MaxChunk()), readable)
      ensures w.Refused? ==>
                && fs.Valid() && Finished(fs.l, inum, off0, src, readable, MaxChunk(), v0, n0, i, i, fs.view, fs.inodes)
                && (off0 <= n0[inum].size ==> i < |src|)
      ensures w.Wrote? ==> fs.Valid() && inum < |fs.inodes| && w.tot <= n <= |src| - i && 0 < n
      ensures w.Wrote? && w.tot == n ==>
                && i + n <= readable
                && Filewriting(fs.l, inum, off0, src, readable, MaxChunk(), v0, n0, o0, i + n, fs.view, fs.inodes, fs.owner)
                && Recorded(fs.l, inum, off0, src, maxop, v0, n0, i + n, fs.view, fs.inodes, fs.owner,
                            trace + [Snap(fs.view, fs.inodes, fs.owner, i + n)], logs + [fs.logged])
      ensures w.Wrote? && w.tot != n ==>
                Finished(fs.l, inum, off0, src, readable, MaxChunk(), v0, n0, i + w.tot, i + got, fs.view, fs.inodes) && i + w.tot < |src|
    {
      hide Owns, Contents, FilesOk, FileOk, SameFiles, Progress, FileSystem.Valid, LogBound, FreeBlocks, Missing, Gained, AllocLog, FileBlocks,
           Attempted, Touched, Visited, BBlock, IBlock, Filewriting, Recorded, OnlyLogged, HomeOnly, Finished, Overlay, Reported, ChunkSize;
      n := |src| - i;
      if n > MaxChunk() {
        n := MaxChunk();
      }
      ghost var v1, n1, o1, chunk := fs.view, fs.inodes, fs.owner, MaxChunk();
      ValidFacts(fs, inum);
      fs.ConsistentOwns();
      w, got := WriteOnce(src[i..i + n], if readable > i then readable - i else 0);
      if w.OutOfBlocks? {
        FilewritingShort(fs.l, inum, off0, src, readable, chunk, v0, n0, o0, i, v1, n1, o1, n);
        return;
      }
      if w.Refused? {
        FilewritingRefused(fs.l, inum, off0, src, readable, chunk, v0, n0, o0, i, v1, n1, o1, n);
        return;
      }
      ValidFacts(fs, inum);
      fs.ConsistentOwns();
      FilewritingStep(fs.l, inum, off0, src, readable, chunk, v0, n0, o0, i, v1, n1, o1, n, w.tot, got, fs.view, fs.inodes, fs.owner);
      if w.tot == n {
        ValidState(fs);
        RecordedMore(fs.l, inum, off0, src, readable, chunk, maxop, v0, n0, o0, i, v1, n1, o1, n, fs.view, fs.inodes, fs.owner,
                     trace, logs, fs.logged);
      }
    }
  }

  /** What a read of n bytes at off returns from a file of the given size, into memory with that room. */
  function ReadAmount(size: nat, off: nat, n: nat, room: nat): int {
    if off > size || off + n >= 0x1_0000_0000 then 0
    else
      var m := Least(n, size - off);
      if m <= room then m else -1
  }

  lemma ReadJoin(c: seq<byte>, a: nat, b: nat, d: nat)
    requires a <= b <= d <= |c|
    ensures c[a..b] + c[b..d] == c[a..d]
  {
  }

  /** The first `got` bytes of s are in file i at off, as far as it reaches with `tot` of them; the other
      files are as they were. */
  ghost predicate Landed(v0: seq<Block>, n0: seq<Inode>, v: seq<Block>, n: seq<Inode>, i: nat, off: nat, s: seq<byte>, tot: nat, got: nat) {
    && i < |n0| == |n| && SameFiles(v0, n0, v, n, i) && tot <= got <= |s|
    && |n0[i].addrs| == |n[i].addrs| == NDIRECT + 1 && off <= n0[i].size <= MAXFILE * BSIZE
    && n[i].size == Max(n0[i].size, off + tot) <= MAXFILE * BSIZE
    && Contents(v, n[i]) == Overlay(Contents(v0, n0[i]), off, s[..got])[..n[i].size]
  }

  lemma HasLanded(v0: seq<Block>, n0: seq<Inode>, v: seq<Block>, n: seq<Inode>, i: nat, off: nat, s: seq<byte>, tot: nat, got: nat)
    requires i < |n0| == |n| && SameFiles(v0, n0, v, n, i) && tot <= got <= |s|
    requires |n0[i].addrs| == |n[i].addrs| == NDIRECT + 1 && off <= n0[i].size <= MAXFILE * BSIZE
    requires n[i].size == Max(n0[i].size, off + tot) <= MAXFILE * BSIZE
    requires Contents(v, n[i]) == Overlay(Contents(v0, n0[i]), off, s[..got])[..n[i].size]
    ensures Landed(v0, n0, v, n, i, off, s, tot, got)
  {
  }

  // ---- The transactions of a write ----------------------------------------------------------------

  /** The file system between two transactions of a write, after `done` bytes of it. */
  datatype Snap = Snap(view: seq<Block>, inodes: seq<Inode>, owner: Owner, done: nat)

  ghost predicate SnapOk(l: Layout, inum: nat, off: nat, src: seq<byte>, v0: seq<Block>, n0: seq<Inode>, s: Snap) {
    && State(s.view, s.inodes, l, s.owner) && inum < |n0| == |s.inodes| && |n0[inum].addrs| == NDIRECT + 1 && n0[inum].size <= MAXFILE * BSIZE
    && SameFiles(v0, n0, s.view, s.inodes, inum)
    && Progress(Contents(v0, n0[inum]), off, src, s.done, s.done, s.view, s.inodes[inum])
  }

  /** Blocks outside the log. */
  ghost predicate HomeOnly(l: Layout, blocks: set<nat>) {
    forall b :: b in blocks ==> l.inodestart <= b < l.size
  }

  /** The largest write that is sure to fit in one transaction of MAXOPBLOCKS blocks. */
  function ChunkSize(maxop: nat): (c: nat)
    requires maxop >= 6
    ensures c > 0
  {
    ((maxop - 1 - 1 - 2) / 2) * BSIZE
  }

  /** What a chunk logs besides the inode's block leaves one entry of the reservation. */
  lemma ChunkBound(l: Layout, off: nat, n: nat, maxop: nat)
    requires maxop >= 6 && n <= ChunkSize(maxop)
    ensures LogBound(l, off, n) < maxop && LogBound(l, off, n) <= ChunkSize(maxop) / BSIZE + 2 + BitmapBlocks(l)
  {
    hide LogBound, BitmapBlocks;
    LogBoundFits(l, off, n, (maxop - 1 - 1 - 2) / 2);
  }

  /** How many of n bytes there are in the first j chunks. */
  function Chunks(j: nat, chunk: nat, n: nat): nat {
    Least(j * chunk, n)
  }

  lemma ChunksNext(j: nat, chunk: nat, n: nat)
    requires Chunks(j, chunk, n) < n
    ensures Chunks(j, chunk, n) == j * chunk
    ensures Chunks(j + 1, chunk, n) == Chunks(j, chunk, n) + if n - j * chunk < chunk then n - j * chunk else chunk
  {
    assert (j + 1) * chunk == j * chunk + chunk;
  }

  /** The states after each chunk; from one to the next only blocks change that the transaction logs,
      MAXOPBLOCKS at most. */
  ghost predicate Traced(l: Layout, inum: nat, off: nat, src: seq<byte>, maxop: nat, v0: seq<Block>, n0: seq<Inode>, trace: seq<Snap>, logs: seq<set<nat>>) {
    && |trace| == |logs| + 1 && trace[0].view == v0 && trace[0].inodes == n0 && maxop >= 6
    && (forall j :: 0 <= j < |trace| ==>
          SnapOk(l, inum, off, src, v0, n0, trace[j]) && trace[j].done == Chunks(j, ChunkSize(maxop), |src|))
    && (forall j {:trigger logs[j]} :: 0 <= j < |logs| ==>
          && OnlyLogged(trace[j].view, trace[j+1].view, logs[j])
          && HomeOnly(l, logs[j]) && 0 < |logs[j]| <= maxop)
  }

  lemma TracedStart(l: Layout, inum: nat, off: nat, src: seq<byte>, maxop: nat, v: seq<Block>, n: seq<Inode>, o: Owner)
    requires SnapOk(l, inum, off, src, v, n, Snap(v, n, o, 0)) && maxop >= 6
    ensures Traced(l, inum, off, src, maxop, v, n, [Snap(v, n, o, 0)], [])
  {
    hide SnapOk;
  }

  lemma TracedMore(l: Layout, inum: nat, off: nat, src: seq<byte>, maxop: nat, v0: seq<Block>, n0: seq<Inode>, trace: seq<Snap>, logs: seq<set<nat>>,
                   s: Snap, log: set<nat>)
    requires Traced(l, inum, off, src, maxop, v0, n0, trace, logs) && SnapOk(l, inum, off, src, v0, n0, s)
    requires OnlyLogged(trace[|trace|-1].view, s.view, log) && HomeOnly(l, log) && 0 < |log| <= maxop
    requires s.done == Chunks(|trace|, ChunkSize(maxop), |src|)
    ensures Traced(l, inum, off, src, maxop, v0, n0, trace + [s], logs + [log])
  {
    hide SnapOk, OnlyLogged, HomeOnly, Chunks, ChunkSize;
    var trace', logs' := trace + [s], logs + [log];
    forall j | 0 <= j < |logs'|
      ensures OnlyLogged(trace'[j].view, trace'[j+1].view, logs'[j])
      ensures HomeOnly(l, logs'[j]) && 0 < |logs'[j]| <= maxop
    {
      if j < |logs| {
        assert logs'[j] == logs[j] && trace'[j] == trace[j] && trace'[j+1] == trace[j+1];
      }
    }
  }

  lemma FilewritingSnap(l: Layout, inum: nat, off: nat, src: seq<byte>, readable: nat, chunk: nat, v0: seq<Block>, n0: seq<Inode>, o0: Owner,
                        i: nat, v: seq<Block>, n: seq<Inode>, o: Owner)
    requires Filewriting(l, inum, off, src, readable, chunk, v0, n0, o0, i, v, n, o) && State(v, n, l, o)
    requires inum < |n0| && off <= n0[inum].size
    ensures SnapOk(l, inum, off, src, v0, n0, Snap(v, n, o, i))
  {
    hide State, Gained, Owns, Progress, SameFiles, Contents;
    assert Looping(off, src, v0, n0, inum, i, i, v, n);
  }

  /** The trace so far, which ends in the present state. */
  ghost predicate Recorded(l: Layout, inum: nat, off: nat, src: seq<byte>, maxop: nat, v0: seq<Block>, n0: seq<Inode>,
                           i: nat, v: seq<Block>, n: seq<Inode>, o: Owner, trace: seq<Snap>, logs: seq<set<nat>>) {
    && inum < |n0| && |trace| > 0 && trace[|trace|-1] == Snap(v, n, o, i) && maxop >= 6
    && i == Chunks(|trace| - 1, ChunkSize(maxop), |src|)
    && (off <= n0[inum].size ==> Traced(l, inum, off, src, maxop, v0, n0, trace, logs))
  }

  lemma RecordedStart(l: Layout, inum: nat, off: nat, src: seq<byte>, readable: nat, chunk: nat, maxop: nat, v: seq<Block>, n: seq<Inode>, o: Owner)
    requires Filewriting(l, inum, off, src, readable, chunk, v, n, o, 0, v, n, o) && State(v, n, l, o) && inum < |n| && maxop >= 6
    ensures Recorded(l, inum, off, src, maxop, v, n, 0, v, n, o, [Snap(v, n, o, 0)], [])
  {
    hide Filewriting, State, Traced, SnapOk;
    if off <= n[inum].size {
      FilewritingSnap(l, inum, off, src, readable, chunk, v, n, o, 0, v, n, o);
      TracedStart(l, inum, off, src, maxop, v, n, o);
    }
  }

  lemma RecordedMore(l: Layout, inum: nat, off: nat, src: seq<byte>, readable: nat, chunk: nat, maxop: nat, v0: seq<Block>, n0: seq<Inode>, o0: Owner,
                     i: nat, v1: seq<Block>, n1: seq<Inode>, o1: Owner, m: nat, v: seq<Block>, n: seq<Inode>, o: Owner,
                     trace: seq<Snap>, logs: seq<set<nat>>, log: set<nat>)
    requires Recorded(l, inum, off, src, maxop, v0, n0, i, v1, n1, o1, trace, logs)
    requires maxop >= 6 && chunk == ChunkSize(maxop) && i < |src| && m == if |src| - i < chunk then |src| - i else chunk
    requires Filewriting(l, inum, off, src, readable, chunk, v0, n0, o0, i + m, v, n, o) && State(v, n, l, o)
    requires OnlyLogged(v1, v, log) && HomeOnly(l, log) && 0 < |log| <= maxop
    ensures Recorded(l, inum, off, src, maxop, v0, n0, i + m, v, n, o, trace + [Snap(v, n, o, i + m)], logs + [log])
  {
    hide Filewriting, State, Traced, SnapOk, OnlyLogged, HomeOnly, Chunks, ChunkSize;
    ChunksNext(|trace| - 1, chunk, |src|);
    if off <= n0[inum].size {
      FilewritingSnap(l, inum, off, src, readable, chunk, v0, n0, o0, i + m, v, n, o);
      TracedLast(l, inum, off, src, maxop, v0, n0, trace, logs);
      TracedMore(l, inum, off, src, maxop, v0, n0, trace, logs, Snap(v, n, o, i + m), log);
    }
  }

  lemma TracedLast(l: Layout, inum: nat, off: nat, src: seq<byte>, maxop: nat, v0: seq<Block>, n0: seq<Inode>, trace: seq<Snap>, logs: seq<set<nat>>)
    requires Traced(l, inum, off, src, maxop, v0, n0, trace, logs)
    ensures |trace| == |logs| + 1
  {
  }

  lemma RecordedIs(l: Layout, inum: nat, off: nat, src: seq<byte>, maxop: nat, v0: seq<Block>, n0: seq<Inode>,
                   i: nat, v: seq<Block>, n: seq<Inode>, o: Owner, trace: seq<Snap>, logs: seq<set<nat>>)
    requires Recorded(l, inum, off, src, maxop, v0, n0, i, v, n, o, trace, logs)
    ensures inum < |n0| && |trace| > 0 && trace[|trace|-1] == Snap(v, n, o, i)
    ensures off <= n0[inum].size ==> Traced(l, inum, off, src, maxop, v0, n0, trace, logs)
  {
  }

  lemma InodeHome(view: seq<Block>, inodes: seq<Inode>, l: Layout, i: nat)
    requires LayoutOk(l) && |view| == l.size && Synced(view, inodes, l, -1) && i < |inodes|
    ensures l.inodestart <= IBlock(l, i) < l.size
  {
  }

  lemma LogHome(view: seq<Block>, inodes: seq<Inode>, l: Layout, o0: Owner, owner: Owner, i: nat, first: nat, n: nat)
    requires Owns(view, inodes, l, owner, {}, {}) && i < |inodes| && |inodes[i].addrs| == NDIRECT + 1
    requires AddsEntry(o0, owner) ==> inodes[i].addrs[NDIRECT] != 0
    requires l.inodestart <= IBlock(l, i) < l.size
    ensures HomeOnly(l, {} + AllocLog(l, o0, owner, inodes[i].addrs[NDIRECT]) + FileBlocks(owner, i, first, n) + {IBlock(l, i)})
  {
    hide Owns, WantedRange, AddsEntry, IBlock, BitmapOf;
    if inodes[i].addrs[NDIRECT] != 0 {
      IndirectIsData(view, inodes, l, owner, i);
    }
    OwnsSizes(view, inodes, l, owner);
    OwnsBlocks(view, inodes, l, owner);
    BitmapHome(l, o0, owner);
  }

  lemma BitmapHome(l: Layout, o0: Owner, owner: Owner)
    requires LayoutOk(l) && forall b :: b in owner ==> b < l.size
    ensures HomeOnly(l, BitmapOf(l, Added(o0, owner)))
  {
  }

  lemma AttemptedBound(off: nat, n: nat, chunk: nat)
    requires off <= MAXFILE * BSIZE && chunk > 0
    ensures 0 <= Attempted(off, n, chunk) <= n
  {
    Floor(MAXFILE * BSIZE - off, chunk);
  }

  lemma Floor(x: nat, m: nat)
    requires m > 0
    ensures 0 <= x / m * m <= x < x / m * m + m
  {
  }

  lemma AttemptedChunk(off: nat, n: nat, chunk: nat, k: nat, i: nat, m: nat)
    requires off <= MAXFILE * BSIZE && chunk > 0 && i == k * chunk && i < n && off + i <= MAXFILE * BSIZE
    requires m == if n - i < chunk then n - i else chunk
    ensures off + i + m <= MAXFILE * BSIZE ==> i + m <= Attempted(off, n, chunk)
    ensures off + i + m > MAXFILE * BSIZE ==> i == Attempted(off, n, chunk)
  {
    var x := MAXFILE * BSIZE - off;
    Floor(x, chunk);
    Quotient(x, chunk, k, x / chunk);
    Quotient(x, chunk, k + 1, x / chunk);
    assert (k + 1) * chunk == k * chunk + chunk;
  }

  lemma Quotient(x: nat, chunk: nat, k: nat, q: nat)
    requires chunk > 0 && q * chunk <= x < q * chunk + chunk
    ensures k * chunk <= x ==> k * chunk <= q * chunk
    ensures x < k * chunk + chunk ==> q * chunk <= k * chunk
  {
    if k > q {
      Times(q + 1, k, chunk);
    } else {
      Times(k, q, chunk);
      if k < q {
        Times(k + 1, q, chunk);
      }
    }
  }

  lemma Times(a: nat, b: nat, m: nat)
    requires a <= b
    ensures a * m <= b * m && (a + 1) * m == a * m + m
  {
  }

  /** How many of n bytes at off are in transactions that writei does not refuse: all of them, or the
      whole chunks that fit below the largest file size. */
  function Attempted(off: nat, n: nat, chunk: nat): nat
    requires off <= MAXFILE * BSIZE && chunk > 0
  {
    if off + n <= MAXFILE * BSIZE then n else (MAXFILE * BSIZE - off) / chunk * chunk
  }

  /** How many of those bytes are written if `readable` can be read: all, or the whole chunks, and of the
      next one the whole blocks of the file, before the first byte that cannot. */
  function Reach(off: nat, all: nat, readable: nat, chunk: nat): (wrote: nat)
    requires chunk > 0
    ensures wrote <= all
  {
    if all <= readable then all
    else
      var chunks, blocks := readable / chunk * chunk, (off + readable) / BSIZE * BSIZE;
      Floor(readable, chunk);
      if off + chunks < blocks then blocks - off else chunks
  }

  lemma ReachIs(off: nat, all: nat, readable: nat, chunk: nat, k: nat, i: nat, m: nat)
    requires i == k * chunk <= readable < i + m <= all && 0 < m <= chunk
    ensures Reach(off, all, readable, chunk) == i + Reported(off + i, m, readable - i)
  {
    Floor(readable, chunk);
    Quotient(readable, chunk, k, readable / chunk);
  }

  /** The state of filewrite's loop: the other files are as they were, and either this one has its
      first `done` bytes of src or the offset was past its end and nothing has happened. */
  ghost predicate Looping(off: nat, src: seq<byte>, v0: seq<Block>, n0: seq<Inode>, inum: nat, done: nat, got: nat, view: seq<Block>, inodes: seq<Inode>)
  {
    && |inodes| == |n0| && inum < |n0|
    && |n0[inum].addrs| == NDIRECT + 1 && n0[inum].size <= MAXFILE * BSIZE
    && SameFiles(v0, n0, view, inodes, inum)
    && (if off <= n0[inum].size then Progress(Contents(v0, n0[inum]), off, src, done, got, view, inodes[inum])
        else done == got == 0 && view == v0 && inodes == n0)
  }

  lemma LoopingStart(off: nat, src: seq<byte>, v0: seq<Block>, n0: seq<Inode>, inum: nat)
    requires FilesOk(v0, n0) && inum < |n0| && |n0[inum].addrs| == NDIRECT + 1 && n0[inum].size <= MAXFILE * BSIZE
    ensures SameFiles(v0, n0, v0, n0, inum) && Looping(off, src, v0, n0, inum, 0, 0, v0, n0)
  {
    hide Contents;
    SameFilesStart(v0, n0, inum);
    if off <= n0[inum].size {
      ProgressStart(Contents(v0, n0[inum]), off, src, v0, n0[inum]);
    }
  }

  lemma LoopingStep(off: nat, src: seq<byte>, v0: seq<Block>, n0: seq<Inode>, inum: nat, i: nat, n: nat, tot: nat, got: nat,
                    view: seq<Block>, inodes: seq<Inode>, view': seq<Block>, inodes': seq<Inode>)
    requires Looping(off, src, v0, n0, inum, i, i, view, inodes) && i + n <= |src| && tot <= got <= n
    requires |inodes'| == |inodes| && SameFiles(view, inodes, view', inodes', inum)
    requires off + i <= inodes[inum].size <= MAXFILE * BSIZE && |inodes[inum].addrs| == NDIRECT + 1
    requires |inodes'[inum].addrs| == NDIRECT + 1 && inodes'[inum].size == Max(inodes[inum].size, off + i + tot) <= MAXFILE * BSIZE
    requires Contents(view', inodes'[inum]) == Overlay(Contents(view, inodes[inum]), off + i, src[i..i + n][..got])[..inodes'[inum].size]
    ensures off <= n0[inum].size && Looping(off, src, v0, n0, inum, i + tot, i + got, view', inodes')
    ensures SameFiles(v0, n0, view', inodes', inum)
    ensures Progress(Contents(v0, n0[inum]), off, src, i + tot, i + got, view', inodes'[inum])
  {
    hide Contents, Progress, SameFiles;
    SameFilesTransitive(v0, n0, view, inodes, view', inodes', inum);
    ProgressStep(Contents(v0, n0[inum]), off, src, i, n, tot, got, view, inodes[inum], view', inodes'[inum]);
  }

  lemma LoopingEnd(off: nat, src: seq<byte>, v0: seq<Block>, n0: seq<Inode>, inum: nat, i: nat, view: seq<Block>, inodes: seq<Inode>)
    requires Looping(off, src, v0, n0, inum, i, i, view, inodes)
    ensures |inodes| == |n0| && SameFiles(v0, n0, view, inodes, inum)
    ensures off <= n0[inum].size ==> Progress(Contents(v0, n0[inum]), off, src, i, i, view, inodes[inum])
    ensures off > n0[inum].size ==> i == 0 && view == v0 && inodes == n0
  {
  }

  /** This, with the blocks given out so far and the bytes counted in chunks. */
  ghost predicate Filewriting(l: Layout, inum: nat, off: nat, src: seq<byte>, readable: nat, chunk: nat, v0: seq<Block>, n0: seq<Inode>, o0: Owner,
                              i: nat, v: seq<Block>, n: seq<Inode>, o: Owner)
  {
    && inum < |n0| && i <= |src| && i <= readable && chunk > 0 && (exists k: nat :: i == k * chunk || i == |src|)
    && Owns(v0, n0, l, o0, {}, {}) && Looping(off, src, v0, n0, inum, i, i, v, n)
    && Gained(inum, off, Touched(off, i), v0, n0, o0, v, n, o)
    && (off <= n0[inum].size ==> i <= Attempted(off, |src|, chunk) <= |src|)
  }

  /** What filewrite has done when it returns without a panic. */
  ghost predicate Finished(l: Layout, inum: nat, off: nat, src: seq<byte>, readable: nat, chunk: nat, v0: seq<Block>, n0: seq<Inode>,
                           wrote: nat, got: nat, v: seq<Block>, n: seq<Inode>)
  {
    && chunk > 0 && inum < |n0| == |n| && |n0[inum].addrs| == NDIRECT + 1 && n0[inum].size <= MAXFILE * BSIZE
    && LayoutOk(l) && |v0| == l.size && SameFiles(v0, n0, v, n, inum)
    && (off <= n0[inum].size ==>
          var all := Attempted(off, |src|, chunk);
          && |FreeBlocks(v0, l)| >= Missing(v0, n0[inum], off, all, readable)
          && Progress(Contents(v0, n0[inum]), off, src, wrote, got, v, n[inum])
          && wrote == Reach(off, all, readable, chunk))
    && (off > n0[inum].size ==> wrote == 0 && v == v0 && n == n0)
  }

  lemma FilewritingStart(l: Layout, inum: nat, off: nat, src: seq<byte>, readable: nat, chunk: nat, v: seq<Block>, n: seq<Inode>, o: Owner)
    requires Owns(v, n, l, o, {}, {}) && FilesOk(v, n) && inum < |n| && |n[inum].addrs| == NDIRECT + 1 && n[inum].size <= MAXFILE * BSIZE && chunk > 0
    ensures SameFiles(v, n, v, n, inum) && Filewriting(l, inum, off, src, readable, chunk, v, n, o, 0, v, n, o)
  {
    hide Owns, Looping, Gained, FilesOk, SameFiles, Touched, Attempted;
    assert 0 == 0 * chunk;
    LoopingStart(off, src, v, n, inum);
    GainedStart(l, inum, off, v, n, o);
    if off <= n[inum].size {
      AttemptedBound(off, |src|, chunk);
    }
  }

  lemma FilewritingShort(l: Layout, inum: nat, off: nat, src: seq<byte>, readable: nat, chunk: nat, v0: seq<Block>, n0: seq<Inode>, o0: Owner,
                         i: nat, v: seq<Block>, n: seq<Inode>, o: Owner, m: nat)
    requires Filewriting(l, inum, off, src, readable, chunk, v0, n0, o0, i, v, n, o) && Owns(v, n, l, o, {}, {})
    requires i < |src| && m == (if |src| - i < chunk then |src| - i else chunk) && off + i <= n[inum].size && off + i + m <= MAXFILE * BSIZE
    requires |FreeBlocks(v, l)| < Missing(v, n[inum], off + i, m, readable - i)
    ensures off <= n0[inum].size && |FreeBlocks(v0, l)| < Missing(v0, n0[inum], off, Attempted(off, |src|, chunk), readable)
  {
    hide Owns, Looping, Gained, Touched, Attempted, FreeBlocks, Missing;
    var k: nat :| i == k * chunk || i == |src|;
    LoopingEnd(off, src, v0, n0, inum, i, v, n);
    AttemptedChunk(off, |src|, chunk, k, i, m);
    GainedShort(l, inum, off, i, m, Attempted(off, |src|, chunk), readable, v0, n0, o0, v, n, o);
  }

  lemma FilewritingRefused(l: Layout, inum: nat, off: uint, src: seq<byte>, readable: nat, chunk: nat, v0: seq<Block>, n0: seq<Inode>, o0: Owner,
                           i: nat, v: seq<Block>, n: seq<Inode>, o: Owner, m: nat)
    requires Filewriting(l, inum, off, src, readable, chunk, v0, n0, o0, i, v, n, o) && Owns(v, n, l, o, {}, {}) && |src| < 0x8000_0000
    requires i < |src| && m == if |src| - i < chunk then |src| - i else chunk
    requires off + i > n[inum].size || off + i + m >= 0x1_0000_0000 || off + i + m > MAXFILE * BSIZE
    ensures Finished(l, inum, off, src, readable, chunk, v0, n0, i, i, v, n) && (off <= n0[inum].size ==> i < |src|)
  {
    hide Owns, Looping, Gained, Touched, Attempted, FreeBlocks, Missing, Visited, Progress, SameFiles;
    var k: nat :| i == k * chunk || i == |src|;
    OwnsSizes(v0, n0, l, o0);
    LoopingSizes(off, src, v0, n0, inum, i, v, n);
    LoopingRefused(off, src, v0, n0, inum, i, m, v, n);
    if off <= n0[inum].size {
      AttemptedChunk(off, |src|, chunk, k, i, m);
      VisitedAll(off, i, i, readable);
      GainedFits(l, inum, off, Touched(off, i), i, readable, v0, n0, o0, v, n, o);
    }
  }

  lemma FilewritingStep(l: Layout, inum: nat, off: nat, src: seq<byte>, readable: nat, chunk: nat, v0: seq<Block>, n0: seq<Inode>, o0: Owner,
                        i: nat, v1: seq<Block>, n1: seq<Inode>, o1: Owner, m: nat, tot: nat, got: nat, v: seq<Block>, n: seq<Inode>, o: Owner)
    requires Filewriting(l, inum, off, src, readable, chunk, v0, n0, o0, i, v1, n1, o1) && Owns(v, n, l, o, {}, {})
    requires i < |src| && m == if |src| - i < chunk then |src| - i else chunk
    requires |n| == |n1| && SameFiles(v1, n1, v, n, inum) && off + i <= n1[inum].size <= MAXFILE * BSIZE && off + i + m <= MAXFILE * BSIZE
    requires |n1[inum].addrs| == |n[inum].addrs| == NDIRECT + 1 && n[inum].size == Max(n1[inum].size, off + i + tot) <= MAXFILE * BSIZE
    requires tot == Reported(off + i, m, readable - i) && tot <= got <= m
    requires Contents(v, n[inum]) == Overlay(Contents(v1, n1[inum]), off + i, src[i..i + m][..got])[..n[inum].size]
    requires Gained(inum, off + i, Visited(off + i, m, readable - i), v1, n1, o1, v, n, o)
    ensures tot == m ==> Filewriting(l, inum, off, src, readable, chunk, v0, n0, o0, i + m, v, n, o)
    ensures tot != m ==> Finished(l, inum, off, src, readable, chunk, v0, n0, i + tot, i + got, v, n) && i + tot < |src|
  {
    hide Owns, Looping, Gained, Touched, Attempted, FreeBlocks, Missing, Visited, Progress, SameFiles, Contents, Overlay, Reported, Reach;
    var k: nat :| i == k * chunk || i == |src|;
    OwnsSizes(v0, n0, l, o0);
    LoopingSizes(off, src, v0, n0, inum, i, v1, n1);
    LoopingStep(off, src, v0, n0, inum, i, m, tot, got, v1, n1, v, n);
    AttemptedChunk(off, |src|, chunk, k, i, m);
    GainedStep(l, inum, off, i, m, readable, v0, n0, o0, v1, n1, o1, v, n, o);
    if tot == m {
      assert i + m == (k + 1) * chunk || i + m == |src|;
    } else {
      ReachIs(off, Attempted(off, |src|, chunk), readable, chunk, k, i, m);
      VisitedAll(off, i + m, Attempted(off, |src|, chunk), readable);
      GainedFits(l, inum, off, Visited(off, i + m, readable), Attempted(off, |src|, chunk), readable, v0, n0, o0, v, n, o);
    }
  }

  lemma FilewritingEnd(l: Layout, inum: nat, off: nat, src: seq<byte>, readable: nat, chunk: nat, v0: seq<Block>, n0: seq<Inode>, o0: Owner,
                       v: seq<Block>, n: seq<Inode>, o: Owner)
    requires Filewriting(l, inum, off, src, readable, chunk, v0, n0, o0, |src|, v, n, o) && Owns(v, n, l, o, {}, {})
    ensures Finished(l, inum, off, src, readable, chunk, v0, n0, |src|, |src|, v, n)
  {
    hide Owns, Looping, Gained, Touched, Attempted, FreeBlocks, Missing, Visited, Progress, SameFiles;
    OwnsSizes(v0, n0, l, o0);
    LoopingSizes(off, src, v0, n0, inum, |src|, v, n);
    LoopingEnd(off, src, v0, n0, inum, |src|, v, n);
    VisitedAll(off, |src|, |src|, readable);
    GainedFits(l, inum, off, Touched(off, |src|), |src|, readable, v0, n0, o0, v, n, o);
  }

  lemma LoopingSizes(off: nat, src: seq<byte>, v0: seq<Block>, n0: seq<Inode>, inum: nat, i: nat, v: seq<Block>, n: seq<Inode>)
    requires Looping(off, src, v0, n0, inum, i, i, v, n)
    ensures inum < |n0| == |n| && |n0[inum].addrs| == NDIRECT + 1 && n0[inum].size <= MAXFILE * BSIZE
    ensures off <= n0[inum].size ==> off + i <= n[inum].size <= MAXFILE * BSIZE
  {
  }

  /** Writei refuses a chunk only if the offset was past the end or the whole write would not fit. */
  lemma LoopingRefused(off: nat, src: seq<byte>, v0: seq<Block>, n0: seq<Inode>, inum: nat, i: nat, n: nat, view: seq<Block>, inodes: seq<Inode>)
    requires Looping(off, src, v0, n0, inum, i, i, view, inodes) && i + n <= |src| < 0x8000_0000 && off < 0x1_0000_0000
    requires off + i > inodes[inum].size || off + i + n >= 0x1_0000_0000 || off + i + n > MAXFILE * BSIZE
    ensures off <= n0[inum].size ==> off + |src| > MAXFILE * BSIZE
    ensures |inodes| == |n0| && SameFiles(v0, n0, view, inodes, inum)
    ensures off <= n0[inum].size ==> Progress(Contents(v0, n0[inum]), off, src, i, i, view, inodes[inum])
    ensures off > n0[inum].size ==> i == 0 && view == v0 && inodes == n0
  {
  }

  /** The first `done` bytes of src have been written at off and reported; `got` of them have arrived. */
  ghost predicate Progress(c0: seq<byte>, off: nat, src: seq<byte>, done: nat, got: nat, view: seq<Block>, ino: Inode) {
    && off <= |c0| && done <= got <= |src|
    && |ino.addrs| == NDIRECT + 1 && ino.size == Max(|c0|, off + done) <= MAXFILE * BSIZE
    && Contents(view, ino) == Overlay(c0, off, src[..got])[..ino.size]
  }

  lemma ProgressStart(c0: seq<byte>, off: nat, src: seq<byte>, view: seq<Block>, ino: Inode)
    requires |ino.addrs| == NDIRECT + 1 && ino.size <= MAXFILE * BSIZE && c0 == Contents(view, ino) && off <= |c0|
    ensures Progress(c0, off, src, 0, 0, view, ino)
  {
    OverlayNothing(c0, off);
  }

  lemma ProgressStep(c0: seq<byte>, off: nat, src: seq<byte>, i: nat, n: nat, tot: nat, got: nat,
                     view: seq<Block>, ino: Inode, view': seq<Block>, ino': Inode)
    requires Progress(c0, off, src, i, i, view, ino) && i + n <= |src| && tot <= got <= n
    requires |ino'.addrs| == NDIRECT + 1 && ino'.size == Max(ino.size, off + i + tot) <= MAXFILE * BSIZE
    requires Contents(view', ino') == Overlay(Contents(view, ino), off + i, src[i..i + n][..got])[..ino'.size]
    ensures Progress(c0, off, src, i + tot, i + got, view', ino')
  {
    hide Contents;
    assert Overlay(c0, off, src[..i])[..ino.size] == Overlay(c0, off, src[..i]);
    OverlayTwice(c0, off, src[..i], src[i..i + n][..got]);
    assert src[..i] + src[i..i + n][..got] == src[..i + got];
  }

  lemma LoggedWith(logged: set<nat>, b: nat)
    ensures logged - {} - {b} == logged - {b} && |logged| <= |logged - {b}| + 1
  {
    assert logged <= (logged - {b}) + {b};
    Counting.SubsetSize(logged, (logged - {b}) + {b});
  }

  lemma ValidState(fs: FileSystem)
    requires fs.Valid()
    ensures State(fs.view, fs.inodes, fs.l, fs.owner)
  {
  }

  lemma ValidFacts(fs: FileSystem, i: nat)
    requires fs.Valid() && i < |fs.inodes|
    ensures fs.Consistent() && FilesOk(fs.view, fs.inodes)
    ensures |fs.inodes[i].addrs| == NDIRECT + 1 && fs.inodes[i].size <= MAXFILE * BSIZE
  {
  }
}
