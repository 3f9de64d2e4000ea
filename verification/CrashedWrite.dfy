// Writes through the redo log: what a crash at any moment leaves of them. The calls that are in progress
// together commit together.
module CrashedWrite {
  import opened Blocks
  import opened Counting
  import opened FsState
  import opened RedoLog
  import opened File

  /** The blocks logged from transaction a up to b. */
  function LoggedIn(logs: seq<set<nat>>, a: nat, b: nat): set<nat>
    requires a <= b <= |logs|
  {
    if a == b then {} else LoggedIn(logs, a, b-1) + logs[b-1]
  }

  /** From each state to the next, only logged blocks change. */
  ghost predicate Steps(views: seq<seq<Block>>, logs: seq<set<nat>>) {
    |views| == |logs| + 1 && forall j {:trigger logs[j]} :: 0 <= j < |logs| ==> OnlyLogged(views[j], views[j+1], logs[j])
  }

  lemma {:induction false} StepsJoin(views: seq<seq<Block>>, logs: seq<set<nat>>, a: nat, b: nat)
    requires Steps(views, logs) && a <= b <= |logs|
    ensures OnlyLogged(views[a], views[b], LoggedIn(logs, a, b))
    decreases b
  {
    hide OnlyLogged;
    if a == b {
      OnlyLoggedSame(views[a], {});
    } else {
      StepsJoin(views, logs, a, b-1);
      assert OnlyLogged(views[b-1], views[b-1+1], logs[b-1]);
      OnlyLoggedBoth(views[a], views[b-1], views[b], LoggedIn(logs, a, b-1), logs[b-1]);
    }
  }

  lemma OnlyLoggedBoth(v0: seq<Block>, v1: seq<Block>, v2: seq<Block>, g1: set<nat>, g2: set<nat>)
    requires OnlyLogged(v0, v1, g1) && OnlyLogged(v1, v2, g2)
    ensures OnlyLogged(v0, v2, g1 + g2)
  {
  }

  /** e is a commit of the blocks in `log`, with their contents in view. */
  ghost predicate CommitsGroup(e: Event, view: seq<Block>, log: set<nat>) {
    && e.Commit? && |e.bs| == |e.cs| && Elements(e.bs) == log
    && (forall i :: 0 <= i < |e.bs| ==> e.bs[i] < |view| && e.cs[i] == view[e.bs[i]])
  }

  /** A commit counts if its header has been written. */
  predicate Counts(e: Event) {
    e.Commit? && |e.bs| < e.writes
  }

  /** How many transactions the commits that count have made durable; ends[i] is how far commit i goes. */
  function Durable(run: seq<Event>, ends: seq<nat>): nat
    requires |ends| == |run|
  {
    if run == [] then 0
    else if Counts(run[|run|-1]) then ends[|run|-1] else Durable(run[..|run|-1], ends[..|run|-1])
  }

  /** The commits that count are of the transactions in order, each of all those since the last. */
  ghost predicate CommitsAll(run: seq<Event>, ends: seq<nat>, views: seq<seq<Block>>, logs: seq<set<nat>>)
    requires |views| == |logs| + 1 && |ends| == |run|
  {
    run != [] ==>
      var n := |run| - 1;
      && CommitsAll(run[..n], ends[..n], views, logs)
      && (Counts(run[n]) ==>
            var from := Durable(run[..n], ends[..n]);
            from <= ends[n] <= |logs| && CommitsGroup(run[n], views[ends[n]], LoggedIn(logs, from, ends[n])))
  }

  /** Committing a group takes the disk from one view to the next. */
  lemma ApplyGroup(d: Disk, g: Geometry, view: seq<Block>, view': seq<Block>, log: set<nat>, e: Event)
    requires SameHome(d, view, g) && OnlyLogged(view, view', log) && CommitsGroup(e, view', log) && HomeBlocks(e.bs, g, |d|)
    ensures SameHome(Apply(d, e.bs, e.cs), view', g)
  {
    hide Apply;
    forall b | 0 <= b < |d| && !InLog(g, b)
      ensures Apply(d, e.bs, e.cs)[b] == view'[b]
    {
      ApplyAt(d, e.bs, e.cs, b);
      if b in e.bs {
        var i :| 0 <= i < |e.bs| && e.bs[i] == b;
        assert Apply(d, e.bs, e.cs)[b] == e.cs[i];
      } else {
        assert b !in Elements(e.bs);
      }
    }
  }

  /** The home blocks hold the file system after the transactions that are durable. */
  lemma {:induction false} ReplayGroups(d: Disk, g: Geometry, ms: seq<Machine>, run: seq<Event>, ends: seq<nat>,
                                        views: seq<seq<Block>>, logs: seq<set<nat>>)
    requires |views| == |logs| + 1 && Steps(views, logs) && |ends| == |run| && CommitsAll(run, ends, views, logs)
    requires IsRun(ms, run, g) && |d| == |ms[0].disk| && SameHome(d, views[0], g)
    ensures Durable(run, ends) <= |logs| && SameHome(Replay(d, run), views[Durable(run, ends)], g)
  {
    hide Steps, SameHome, CommitsGroup, HomeBlocks, LogOk, Head, MachineOk, LoggedIn, OnlyLogged, Apply, CommitDisk, RecoverDisk;
    var n := |run|;
    if n > 0 {
      var before, e, from := run[..n-1], run[n-1], Durable(run[..n-1], ends[..n-1]);
      IsRunPrefix(ms, run, g);
      ReplayGroups(d, g, ms[..n], before, ends[..n-1], views, logs);
      if Counts(e) {
        RunSizes(ms, run, g, n-1);
        CommitReplays(ms[n-1], g, e, Replay(d, before));
        StepsJoin(views, logs, from, ends[n-1]);
        ApplyGroup(Replay(d, before), g, views[from], views[ends[n-1]], LoggedIn(logs, from, ends[n-1]), e);
      }
    }
  }

  lemma CommitReplays(m: Machine, g: Geometry, e: Event, d: Disk)
    requires MachineOk(m, g) && Possible(m, g, e) && Counts(e) && |d| == |m.disk|
    ensures HomeBlocks(e.bs, g, |d|) && |e.cs| == |e.bs| && (forall i :: 0 <= i < |e.bs| ==> e.bs[i] < |d|)
    ensures ReplayOne(d, e) == Apply(d, e.bs, e.cs)
  {
    hide LogOk, Head, Apply;
  }

  lemma {:induction false} RunSizes(ms: seq<Machine>, run: seq<Event>, g: Geometry, i: nat)
    requires IsRun(ms, run, g) && i <= |run|
    ensures |ms[i].disk| == |ms[0].disk|
  {
    hide LogOk;
    if i > 0 {
      RunSizes(ms, run, g, i-1);
      assert ms[i-1+1] == After(ms[i-1], g, run[i-1]);
    }
  }

  // ---- Reading the file back ----------------------------------------------------------------------

  /** File k as a disk has it. */
  function OnDisk(d: Disk, l: Layout, k: nat): Inode
    requires LayoutOk(l) && |d| == l.size && IBlock(l, k) < l.size
  {
    Dinode(d[IBlock(l, k)], k)
  }

  /** A file is read from home blocks only. */
  lemma ReadBack(d: Disk, g: Geometry, l: Layout, s: Snap, k: nat)
    requires State(s.view, s.inodes, l, s.owner) && k < |s.inodes| && SameHome(d, s.view, g) && g.start + g.size <= l.inodestart
    ensures LayoutOk(l) && |d| == l.size && IBlock(l, k) < l.size && OnDisk(d, l, k) == s.inodes[k]
    ensures |s.inodes[k].addrs| == NDIRECT + 1 && s.inodes[k].size <= MAXFILE * BSIZE
    ensures Contents(d, s.inodes[k]) == Contents(s.view, s.inodes[k])
  {
    hide Dinode, Contents;
    OwnsSizes(s.view, s.inodes, l, s.owner);
    assert FileOk(s.view, s.inodes[k]);
    assert IBlock(l, k) < l.bmapstart;
    OwnedIsData(s.view, l, s.owner, {});
    ContentsSame(s.view, d, s.inodes, s.owner, k, s.inodes[k]);
  }

  function Views(trace: seq<Snap>): (views: seq<seq<Block>>)
    ensures |views| == |trace|
  {
    seq(|trace|, j requires 0 <= j < |trace| => trace[j].view)
  }

  lemma TracedSteps(l: Layout, inum: nat, off: nat, src: seq<byte>, maxop: nat, v0: seq<Block>, n0: seq<Inode>, trace: seq<Snap>, logs: seq<set<nat>>)
    requires Traced(l, inum, off, src, maxop, v0, n0, trace, logs)
    ensures Steps(Views(trace), logs) && Views(trace)[0] == v0
  {
    hide SnapOk, OnlyLogged, HomeOnly;
  }

  /** However the machine crashes while a write goes through the log, what recovery yields is the file
      with the chunks that are durable written over it, and every other file as it was. */
  lemma WriteSurvives(l: Layout, inum: nat, off: nat, src: seq<byte>, maxop: nat, v0: seq<Block>, n0: seq<Inode>,
                      trace: seq<Snap>, logs: seq<set<nat>>, g: Geometry, ms: seq<Machine>, run: seq<Event>, ends: seq<nat>)
    requires Traced(l, inum, off, src, maxop, v0, n0, trace, logs) && g.start + g.size <= l.inodestart
    requires IsRun(ms, run, g) && |ends| == |run| && CommitsAll(run, ends, Views(trace), logs)
    requires SameHome(Recovered(ms[0].disk, g), v0, g)
    ensures Durable(run, ends) <= |logs| && MachineOk(ms[|run|], g)
    ensures var d, done := Recovered(ms[|run|].disk, g), Chunks(Durable(run, ends), ChunkSize(maxop), |src|);
            && LayoutOk(l) && |d| == l.size && IBlock(l, inum) < l.size && inum < |n0| && |n0[inum].addrs| == NDIRECT + 1
            && n0[inum].size <= MAXFILE * BSIZE && Progress(Contents(v0, n0[inum]), off, src, done, done, d, OnDisk(d, l, inum))
    ensures forall k :: 0 <= k < |n0| && k != inum ==> FileKept(Recovered(ms[|run|].disk, g), l, v0, n0, k)
  {
    hide LogOk, Head, Recovered, State, Contents, Progress, SameFiles, SameHome, Dinode, Steps, CommitsAll;
    CrashAtomicity(ms, run, g);
    var d0, d, j := Recovered(ms[0].disk, g), Recovered(ms[|run|].disk, g), Durable(run, ends);
    TracedSteps(l, inum, off, src, maxop, v0, n0, trace, logs);
    ReplayGroups(d0, g, ms, run, ends, Views(trace), logs);
    SameHomeTransitive(d, Replay(d0, run), trace[j].view, g);
    var s := trace[j];
    assert SnapOk(l, inum, off, src, v0, n0, s);
    ReadBack(d, g, l, s, inum);
    ProgressRead(Contents(v0, n0[inum]), off, src, s.done, s.view, s.inodes[inum], d);
    forall k | 0 <= k < |n0| && k != inum
      ensures FileKept(d, l, v0, n0, k)
    {
      ReadBack(d, g, l, s, k);
      OtherKept(v0, n0, s.view, s.inodes, inum, k);
    }
  }

  ghost predicate FileKept(d: Disk, l: Layout, v0: seq<Block>, n0: seq<Inode>, k: nat) {
    && LayoutOk(l) && |d| == l.size && IBlock(l, k) < l.size && k < |n0| && |n0[k].addrs| == NDIRECT + 1 && n0[k].size <= MAXFILE * BSIZE
    && OnDisk(d, l, k) == n0[k] && Contents(d, n0[k]) == Contents(v0, n0[k])
  }

  lemma ProgressRead(c0: seq<byte>, off: nat, src: seq<byte>, done: nat, view: seq<Block>, ino: Inode, d: Disk)
    requires Progress(c0, off, src, done, done, view, ino) && Contents(d, ino) == Contents(view, ino)
    ensures Progress(c0, off, src, done, done, d, ino)
  {
  }

  lemma OtherKept(v0: seq<Block>, n0: seq<Inode>, view: seq<Block>, inodes: seq<Inode>, inum: nat, k: nat)
    requires SameFiles(v0, n0, view, inodes, inum) && k < |n0| && k != inum
    ensures |inodes| == |n0| && inodes[k] == n0[k] && |n0[k].addrs| == NDIRECT + 1 && n0[k].size <= MAXFILE * BSIZE
    ensures Contents(view, inodes[k]) == Contents(v0, n0[k])
  {
  }

  /** Each transaction of a write can be committed: it fits the log. */
  lemma ChunkFits(l: Layout, inum: nat, off: nat, src: seq<byte>, maxop: nat, v0: seq<Block>, n0: seq<Inode>,
                  trace: seq<Snap>, logs: seq<set<nat>>, g: Geometry, j: nat, bs: seq<nat>)
    requires Traced(l, inum, off, src, maxop, v0, n0, trace, logs) && g.start + g.size <= l.inodestart && j < |logs|
    requires maxop <= g.logsize && maxop <= g.size - 1
    requires Elements(bs) == logs[j] && forall i, k :: 0 <= i < k < |bs| ==> bs[i] != bs[k]
    ensures HomeBlocks(bs, g, l.size)
  {
    hide SnapOk, OnlyLogged;
    DistinctSize(bs);
    forall i | 0 <= i < |bs|
      ensures bs[i] < l.size && !InLog(g, bs[i])
    {
      assert bs[i] in Elements(bs);
      assert HomeOnly(l, logs[j]);
    }
  }
}
