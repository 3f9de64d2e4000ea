// Several processes write at once, any number of them in one commit: what a crash at any moment leaves of
// each file.
module GroupCommit {
  import opened Blocks
  import opened FsState
  import opened FsSpace
  import opened Fs
  import opened RedoLog
  import opened File
  import opened CrashedWrite

  /** One transaction of some filewrite. */
  datatype Chunk = Chunk(inum: nat, off: nat, data: seq<byte>)

  /** The bytes of file k. */
  ghost function Bytes(s: Snap, k: nat): seq<byte> {
    if k < |s.inodes| && |s.inodes[k].addrs| == NDIRECT + 1 && s.inodes[k].size <= MAXFILE * BSIZE then Contents(s.view, s.inodes[k]) else []
  }

  /** A transaction writes its bytes into its file, leaves the others alone, and logs what it changes. */
  ghost predicate Transacts(l: Layout, s: Snap, c: Chunk, t: Snap, log: set<nat>) {
    && State(t.view, t.inodes, l, t.owner) && c.inum < |s.inodes| == |t.inodes|
    && (forall k: nat {:trigger Bytes(t, k)} :: k < |s.inodes| && k != c.inum ==> t.inodes[k] == s.inodes[k] && Bytes(t, k) == Bytes(s, k))
    && c.off <= |Bytes(s, c.inum)| && Bytes(t, c.inum) == Overlay(Bytes(s, c.inum), c.off, c.data)
    && OnlyLogged(s.view, t.view, log) && HomeOnly(l, log)
  }

  /** A filewrite's transaction, when all its bytes can be read, is one of these. */
  method Transact(f: OpenFile, data: seq<byte>, readable: nat) returns (w: WriteResult)
    requires f.fs.Valid() && f.inum < |f.fs.inodes| && f.maxop >= 6 && |data| <= f.MaxChunk() && |data| < 0x8000_0000 && |data| <= readable
    modifies f`off, f.fs`view, f.fs`inodes, f.fs`owner, f.fs`logged
    ensures w.Wrote? <==>
              && old(f.off) <= old(f.fs.inodes)[f.inum].size && old(f.off) + |data| <= MAXFILE * BSIZE
              && |FreeBlocks(old(f.fs.view), f.fs.l)| >= Missing(old(f.fs.view), old(f.fs.inodes)[f.inum], old(f.off), |data|, readable)
    ensures w.Wrote? ==>
              && w.tot == |data| && |f.fs.logged| <= f.maxop
              && Transacts(f.fs.l, Snap(old(f.fs.view), old(f.fs.inodes), old(f.fs.owner), 0), Chunk(f.inum, old(f.off), data),
                           Snap(f.fs.view, f.fs.inodes, f.fs.owner, 0), f.fs.logged)
  {
    hide FileSystem.Valid, Contents, Overlay, SameFiles, OnlyLogged, HomeOnly, State, Missing, FreeBlocks, Gained, AllocLog, FileBlocks, ChunkSize;
    ghost var s, off, got := Snap(f.fs.view, f.fs.inodes, f.fs.owner, 0), f.off, 0;
    ValidFacts(f.fs, f.inum);
    w, got := f.WriteOnce(data, readable);
    if w.Wrote? {
      ValidState(f.fs);
      assert data[..got] == data;
      WrittenTransacts(f.fs.l, s, Chunk(f.inum, off, data), Snap(f.fs.view, f.fs.inodes, f.fs.owner, 0), f.fs.logged);
    }
  }

  lemma WrittenTransacts(l: Layout, s: Snap, c: Chunk, t: Snap, log: set<nat>)
    requires State(t.view, t.inodes, l, t.owner) && c.inum < |s.inodes| == |t.inodes| && SameFiles(s.view, s.inodes, t.view, t.inodes, c.inum)
    requires |s.inodes[c.inum].addrs| == |t.inodes[c.inum].addrs| == NDIRECT + 1
    requires c.off <= s.inodes[c.inum].size <= MAXFILE * BSIZE && t.inodes[c.inum].size == Max(s.inodes[c.inum].size, c.off + |c.data|) <= MAXFILE * BSIZE
    requires Contents(t.view, t.inodes[c.inum]) == Overlay(Contents(s.view, s.inodes[c.inum]), c.off, c.data)[..t.inodes[c.inum].size]
    requires OnlyLogged(s.view, t.view, log) && HomeOnly(l, log)
    ensures Transacts(l, s, c, t, log)
  {
    hide State, Contents, OnlyLogged, HomeOnly;
  }

  /** The transactions of all the writers, in the order they take place. */
  ghost predicate History(l: Layout, trace: seq<Snap>, chunks: seq<Chunk>, logs: seq<set<nat>>) {
    && |trace| == |chunks| + 1 == |logs| + 1 && State(trace[0].view, trace[0].inodes, l, trace[0].owner)
    && (forall j {:trigger chunks[j]} :: 0 <= j < |chunks| ==> Transacts(l, trace[j], chunks[j], trace[j+1], logs[j]))
  }

  /** What the chunks make of file k. */
  function Effect(c0: seq<byte>, chunks: seq<Chunk>, k: nat): seq<byte> {
    if chunks == [] then c0
    else
      var c, last := Effect(c0, chunks[..|chunks|-1], k), chunks[|chunks|-1];
      if last.inum == k && last.off <= |c| then Overlay(c, last.off, last.data) else c
  }

  lemma {:induction false} HistoryFiles(l: Layout, trace: seq<Snap>, chunks: seq<Chunk>, logs: seq<set<nat>>, j: nat, k: nat)
    requires History(l, trace, chunks, logs) && j <= |chunks| && k < |trace[0].inodes|
    ensures State(trace[j].view, trace[j].inodes, l, trace[j].owner) && |trace[j].inodes| == |trace[0].inodes|
    ensures Bytes(trace[j], k) == Effect(Bytes(trace[0], k), chunks[..j], k)
  {
    hide State, Bytes, Overlay, OnlyLogged, HomeOnly;
    if j > 0 {
      HistoryFiles(l, trace, chunks, logs, j-1, k);
      assert Transacts(l, trace[j-1], chunks[j-1], trace[j-1+1], logs[j-1]);
      assert chunks[..j][..j-1] == chunks[..j-1];
    }
  }

  lemma HistorySteps(l: Layout, trace: seq<Snap>, chunks: seq<Chunk>, logs: seq<set<nat>>)
    requires History(l, trace, chunks, logs)
    ensures Steps(Views(trace), logs) && Views(trace)[0] == trace[0].view
  {
    hide State, Bytes, Overlay, OnlyLogged, HomeOnly;
    forall j | 0 <= j < |logs|
      ensures OnlyLogged(Views(trace)[j], Views(trace)[j+1], logs[j])
    {
      assert Transacts(l, trace[j], chunks[j], trace[j+1], logs[j]);
    }
  }

  /** File k as the disk has it: an inode and its bytes. */
  ghost predicate Holds(d: Disk, l: Layout, k: nat, bytes: seq<byte>) {
    && LayoutOk(l) && |d| == l.size && IBlock(l, k) < l.size
    && var ino := OnDisk(d, l, k);
       |ino.addrs| == NDIRECT + 1 && ino.size <= MAXFILE * BSIZE && Contents(d, ino) == bytes
  }

  /** However the transactions of any number of writers are put together in commits, and however the
      machine crashes, what recovery yields is every file with exactly the durable chunks written to it. */
  lemma WritesSurvive(l: Layout, trace: seq<Snap>, chunks: seq<Chunk>, logs: seq<set<nat>>,
                      g: Geometry, ms: seq<Machine>, run: seq<Event>, ends: seq<nat>, k: nat)
    requires History(l, trace, chunks, logs) && g.start + g.size <= l.inodestart && k < |trace[0].inodes|
    requires IsRun(ms, run, g) && |ends| == |run| && CommitsAll(run, ends, Views(trace), logs)
    requires SameHome(Recovered(ms[0].disk, g), trace[0].view, g)
    ensures Durable(run, ends) <= |chunks| && MachineOk(ms[|run|], g)
    ensures Holds(Recovered(ms[|run|].disk, g), l, k, Effect(Bytes(trace[0], k), chunks[..Durable(run, ends)], k))
  {
    hide LogOk, Head, Recovered, State, Contents, SameHome, Dinode, Steps, CommitsAll, Transacts;
    CrashAtomicity(ms, run, g);
    var d0, d, j := Recovered(ms[0].disk, g), Recovered(ms[|run|].disk, g), Durable(run, ends);
    HistorySteps(l, trace, chunks, logs);
    ReplayGroups(d0, g, ms, run, ends, Views(trace), logs);
    SameHomeTransitive(d, Replay(d0, run), trace[j].view, g);
    HistoryFiles(l, trace, chunks, logs, j, k);
    ReadBack(d, g, l, trace[j], k);
  }

  // ---- One writer among others --------------------------------------------------------------------

  /** How many of the chunks are for file k. */
  function Mine(chunks: seq<Chunk>, k: nat): nat {
    if chunks == [] then 0 else Mine(chunks[..|chunks|-1], k) + if chunks[|chunks|-1].inum == k then 1 else 0
  }

  /** The chunks for file k are those of one filewrite of src at off, in order; the others are anyone's. */
  ghost predicate OneWriter(chunks: seq<Chunk>, k: nat, off: nat, src: seq<byte>, chunk: nat) {
    forall j {:trigger chunks[j]} :: 0 <= j < |chunks| && chunks[j].inum == k ==>
      var i, next := Chunks(Mine(chunks[..j], k), chunk, |src|), Chunks(Mine(chunks[..j], k) + 1, chunk, |src|);
      i < next && chunks[j].off == off + i && chunks[j].data == src[i..next]
  }

  lemma ChunksOrder(j: nat, chunk: nat, n: nat)
    ensures Chunks(j, chunk, n) <= Chunks(j + 1, chunk, n) <= n && Chunks(0, chunk, n) == 0
  {
    assert (j + 1) * chunk == j * chunk + chunk;
  }

  lemma {:induction false} EffectOfOne(c0: seq<byte>, chunks: seq<Chunk>, k: nat, off: nat, src: seq<byte>, chunk: nat, m: nat)
    requires OneWriter(chunks, k, off, src, chunk) && off <= |c0| && m <= |chunks|
    ensures Chunks(Mine(chunks[..m], k), chunk, |src|) <= |src|
    ensures Effect(c0, chunks[..m], k) == Overlay(c0, off, src[..Chunks(Mine(chunks[..m], k), chunk, |src|)])
    decreases m
  {
    hide Overlay, Chunks;
    if m == 0 {
      ChunksOrder(0, chunk, |src|);
      OverlayNothing(c0, off);
    } else {
      EffectOfOne(c0, chunks, k, off, src, chunk, m-1);
      assert chunks[..m][..m-1] == chunks[..m-1];
      var c := chunks[m-1];
      if c.inum == k {
        var i := Mine(chunks[..m-1], k);
        var a, b := Chunks(i, chunk, |src|), Chunks(i + 1, chunk, |src|);
        ChunksOrder(i, chunk, |src|);
        OverlayTwice(c0, off, src[..a], src[a..b]);
        assert src[..a] + src[a..b] == src[..b];
      }
    }
  }

  /** Whatever others write at the same time, a crash leaves of a filewrite its first chunks, whole. */
  lemma FileSurvives(l: Layout, trace: seq<Snap>, chunks: seq<Chunk>, logs: seq<set<nat>>,
                     g: Geometry, ms: seq<Machine>, run: seq<Event>, ends: seq<nat>, k: nat, off: nat, src: seq<byte>, chunk: nat)
    requires History(l, trace, chunks, logs) && g.start + g.size <= l.inodestart && k < |trace[0].inodes|
    requires IsRun(ms, run, g) && |ends| == |run| && CommitsAll(run, ends, Views(trace), logs)
    requires SameHome(Recovered(ms[0].disk, g), trace[0].view, g)
    requires OneWriter(chunks, k, off, src, chunk) && off <= |Bytes(trace[0], k)|
    ensures Durable(run, ends) <= |chunks| && MachineOk(ms[|run|], g)
    ensures var done := Chunks(Mine(chunks[..Durable(run, ends)], k), chunk, |src|);
            done <= |src| && Holds(Recovered(ms[|run|].disk, g), l, k, Overlay(Bytes(trace[0], k), off, src[..done]))
  {
    hide State, Transacts, CommitsAll, Holds, Durable, LogOk, Recovered, SameHome, OneWriter, Effect, Chunks, Mine, Bytes;
    WritesSurvive(l, trace, chunks, logs, g, ms, run, ends, k);
    EffectOfOne(Bytes(trace[0], k), chunks, k, off, src, chunk, Durable(run, ends));
  }
}
