// The log itself: the in-memory header, the operations that use it, commit and recovery, over the
// buffer cache.
module Log {
  import opened Options
  import opened Blocks
  import opened BufferCache
  import opened RedoLog
  import Counting
  import Reservation

  lemma CacheSizes(c: Bcache)
    requires c.Valid()
    ensures c.dev != 0 && |c.buf| == c.nbuf && |c.view| == |c.disk|
  {
  }

  /** A pinned buffer's holder is not its last reference. */
  lemma PinnedReferences(c: Bcache, i: nat, b: nat)
    requires c.Valid() && c.Holds(i, b) && b in c.pinned
    ensures c.buf[i].refcnt > 1
  {
    CountAt(c.buf, c.index, c.held, c.pinned, c.waiting, c.dev, |c.disk|, i);
  }

  /** Every buffer is referenced. */
  ghost predicate Full(held: set<nat>, pinned: multiset<nat>, waiting: multiset<nat>, nbuf: nat) {
    |Referenced(held, pinned, waiting)| >= nbuf
  }

  /** The buffers are all referenced exactly when there are no more of them than logged blocks and blocks
      others refer to. */
  lemma FullWhen(bs: seq<nat>, held: set<nat>, waiting: multiset<nat>, nbuf: nat)
    requires forall i, j :: 0 <= i < j < |bs| ==> bs[i] != bs[j]
    requires forall b :: b in bs ==> b !in held && b !in waiting
    ensures Full(held, multiset(bs), waiting, nbuf) <==> |bs| + |Referenced(held, multiset{}, waiting)| >= nbuf
  {
    Counting.DistinctSize(bs);
    assert Referenced(held, multiset(bs), waiting) == Counting.Elements(bs) + Referenced(held, multiset{}, waiting);
  }

  /** A block that no one refers to finds no buffer exactly when all are referenced; once it is held, a
      pinned block has its buffer. */
  lemma BufferFor(held: set<nat>, pinned: multiset<nat>, waiting: multiset<nat>, nbuf: nat, l: nat, b: nat)
    requires l !in held && l !in pinned && l !in waiting
    ensures NoBuffer(held, pinned, waiting, nbuf, l) <==> Full(held, pinned, waiting, nbuf)
    ensures b in pinned ==> !NoBuffer(held + {l}, pinned, waiting, nbuf, b)
  {
  }

  /** Dropping pins leaves no more buffers referenced. */
  lemma FewerPins(held: set<nat>, pinned: multiset<nat>, fewer: multiset<nat>, waiting: multiset<nat>, nbuf: nat)
    requires forall b :: b in fewer ==> b in pinned
    ensures Full(held, fewer, waiting, nbuf) ==> Full(held, pinned, waiting, nbuf)
  {
    Counting.SubsetSize(Referenced(held, fewer, waiting), Referenced(held, pinned, waiting));
  }

  /** With nothing referenced, one block needs one buffer and two need two. */
  lemma NothingReferenced(nbuf: nat, l: nat, b: nat)
    requires l != b
    ensures NoBuffer({}, multiset{}, multiset{}, nbuf, l) <==> nbuf == 0
    ensures NoBuffer({l}, multiset{}, multiset{}, nbuf, b) <==> nbuf <= 1
  {
    assert Referenced({}, multiset{}, multiset{}) == {};
    assert Referenced({l}, multiset{}, multiset{}) == {l};
  }

  /** The other processes only read: the blocks they hold are not logged, and no one else touches the log. */
  ghost predicate Aside(held: set<nat>, waiting: multiset<nat>, g: Geometry, logged: seq<nat>) {
    && (forall b :: b in held ==> !InLog(g, b) && b !in logged)
    && (forall b :: b in waiting ==> !InLog(g, b))
  }

  lemma AsideAt(held: set<nat>, waiting: multiset<nat>, g: Geometry, logged: seq<nat>, b: nat)
    requires Aside(held, waiting, g, logged)
    ensures InLog(g, b) ==> b !in held && b !in waiting
    ensures b in logged ==> b !in held
    ensures Aside(held, waiting, g, [])
  {
  }

  /** One block's contents have been copied over another's, in the cache and on disk. */
  ghost predicate Copied(v0: Disk, d0: Disk, v: Disk, d: Disk, from: nat, to: nat) {
    from < |v0| && to < |v0| == |d0| && v == v0[to := v0[from]] && d == d0[to := v0[from]]
  }

  /** The current contents of the given blocks. */
  ghost function Values(view: Disk, bs: seq<nat>): (cs: seq<Block>)
    requires forall i :: 0 <= i < |bs| ==> bs[i] < |view|
    ensures |cs| == |bs|
  {
    seq(|bs|, i requires 0 <= i < |bs| => view[bs[i]])
  }

  /** The disks written since h0 are those of write_log, in order. */
  ghost predicate LogTrace(h0: seq<Disk>, h1: seq<Disk>, d: Disk, g: Geometry, cs: seq<Block>) {
    && |h0| <= |h1| <= |h0| + |cs| && h1[..|h0|] == h0
    && g.start + |cs| < |d|
    && (forall j :: |h0| <= j < |h1| ==> h1[j] == LogWritten(d, g, cs, j - |h0| + 1))
  }

  lemma LogTraceStep(h0: seq<Disk>, h: seq<Disk>, d: Disk, g: Geometry, cs: seq<Block>, k: nat)
    requires LogTrace(h0, h, d, g, cs) && |h| == |h0| + k && k < |cs|
    ensures LogTrace(h0, h + [LogWritten(d, g, cs, k + 1)], d, g, cs)
  {
  }

  lemma LogTraceStart(h0: seq<Disk>, d: Disk, g: Geometry, cs: seq<Block>)
    requires g.start + |cs| < |d|
    ensures LogTrace(h0, h0, d, g, cs) && LogWritten(d, g, cs, 0) == d
  {
  }

  lemma LogWrittenNext(d: Disk, g: Geometry, cs: seq<Block>, k: nat)
    requires k < |cs| && g.start + |cs| < |d|
    ensures LogWritten(d, g, cs, k + 1) == LogWritten(d, g, cs, k)[g.start + k + 1 := cs[k]]
  {
  }

  lemma ValuesAt(view: Disk, bs: seq<nat>, i: nat)
    requires i < |bs| && forall i :: 0 <= i < |bs| ==> bs[i] < |view|
    ensures Values(view, bs)[i] == view[bs[i]]
  {
  }

  /** Writing log blocks leaves home blocks alone. */
  lemma LogWrittenHome(d: Disk, g: Geometry, cs: seq<Block>, k: nat, b: nat)
    requires k <= |cs| < g.size && g.start + |cs| < |d| && b < |d| && !InLog(g, b)
    ensures LogWritten(d, g, cs, k)[b] == d[b]
  {
    LogWrittenAt(d, g, cs, k, b);
  }

  lemma EntriesStart(h: Block, bs: seq<nat>)
    requires |bs| < WORDS && forall i :: 0 <= i < |bs| ==> bs[i] < 0x1_0000_0000
    ensures WithEntries(h, bs, 0) == WithWord(h, 0, |bs|)
  {
  }

  lemma EntriesNext(h: Block, bs: seq<nat>, i: nat)
    requires i < |bs| < WORDS && forall i :: 0 <= i < |bs| ==> bs[i] < 0x1_0000_0000
    ensures WithEntries(h, bs, i + 1) == WithWord(WithEntries(h, bs, i), i + 1, bs[i])
  {
  }

  lemma EntriesSize(h: Block, n: nat)
    requires n < WORDS
    ensures |Entries(h, n)| == n && Entries(h, n)[..n] == Entries(h, n)
  {
  }

  lemma EntriesAt(h: Block, n: nat, i: nat)
    requires i < n < WORDS
    ensures |Entries(h, n)| == n && Entries(h, n)[..i+1] == Entries(h, n)[..i] + [Word(h, i + 1)]
  {
  }

  /** No block of the log area has changes that are only in the cache. */
  ghost predicate LogClean(view: Disk, disk: Disk, g: Geometry) {
    |view| == |disk| && forall b :: 0 <= b < |disk| && InLog(g, b) ==> view[b] == disk[b]
  }

  lemma LogCleanAt(view: Disk, disk: Disk, g: Geometry, b: nat)
    requires LogClean(view, disk, g) && b < |disk| && InLog(g, b)
    ensures view[b] == disk[b]
  {
  }

  lemma LogCleanHome(view: Disk, disk: Disk, g: Geometry, b: nat, c: Block)
    requires LogClean(view, disk, g) && b < |disk|
    ensures LogClean(view[b := c], disk[b := c], g)
  {
  }

  /** The disks written since h0 are those of install_trans, in order. */
  ghost predicate InstallTrace(h0: seq<Disk>, h1: seq<Disk>, d: Disk, g: Geometry, bs: seq<nat>) {
    && |h0| <= |h1| <= |h0| + |bs| && h1[..|h0|] == h0
    && GeometryOk(g, |d|) && HomeBlocks(bs, g, |d|)
    && (forall j :: |h0| <= j < |h1| ==> h1[j] == Installed(d, g, bs, j - |h0| + 1))
  }

  lemma InstallTraceStep(h0: seq<Disk>, h: seq<Disk>, d: Disk, g: Geometry, bs: seq<nat>, k: nat)
    requires InstallTrace(h0, h, d, g, bs) && |h| == |h0| + k && k < |bs|
    ensures GeometryOk(g, |d|) && HomeBlocks(bs, g, |d|)
    ensures InstallTrace(h0, h + [Installed(d, g, bs, k + 1)], d, g, bs)
  {
  }

  lemma InstalledNext(d: Disk, g: Geometry, bs: seq<nat>, k: nat)
    requires k < |bs| && GeometryOk(g, |d|) && HomeBlocks(bs, g, |d|)
    ensures bs[k] < |d| && g.start + k + 1 < |d|
    ensures Installed(d, g, bs, k + 1) == Installed(d, g, bs, k)[bs[k] := Installed(d, g, bs, k)[g.start + k + 1]]
  {
  }

  /** Disk, cache and write history after `tail` turns of install_trans. */
  ghost predicate Installing(h0: seq<Disk>, d0: Disk, v0: Disk, g: Geometry, bs: seq<nat>, tail: nat, h: seq<Disk>, disk: Disk, view: Disk) {
    && tail <= |bs| && |h| == |h0| + tail && |v0| == |d0|
    && InstallTrace(h0, h, d0, g, bs)
    && disk == Installed(d0, g, bs, tail) && view == Installed(v0, g, bs, tail)
    && LogClean(view, disk, g)
  }

  lemma InstallingStart(h0: seq<Disk>, d0: Disk, v0: Disk, g: Geometry, bs: seq<nat>)
    requires GeometryOk(g, |d0|) && HomeBlocks(bs, g, |d0|) && LogClean(v0, d0, g)
    ensures Installing(h0, d0, v0, g, bs, 0, h0, d0, v0)
  {
  }

  lemma InstallingNow(h0: seq<Disk>, d0: Disk, v0: Disk, g: Geometry, bs: seq<nat>, tail: nat, h: seq<Disk>, disk: Disk, view: Disk)
    requires Installing(h0, d0, v0, g, bs, tail, h, disk, view)
    ensures |h| == |h0| + tail && |v0| == |d0| && InstallTrace(h0, h, d0, g, bs) && LogClean(view, disk, g)
    ensures GeometryOk(g, |d0|) && HomeBlocks(bs, g, |d0|)
    ensures disk == Installed(d0, g, bs, tail) && view == Installed(v0, g, bs, tail)
  {
  }

  lemma InstallingStep(h0: seq<Disk>, d0: Disk, v0: Disk, g: Geometry, bs: seq<nat>, tail: nat, h: seq<Disk>, disk: Disk, view: Disk)
    requires Installing(h0, d0, v0, g, bs, tail, h, disk, view) && tail < |bs|
    ensures |disk| == |d0| == |view| && bs[tail] < |disk| && g.start + tail + 1 < |disk|
    ensures view[g.start + tail + 1] == disk[g.start + tail + 1]
    ensures var disk' := disk[bs[tail] := view[g.start + tail + 1]];
            var view' := view[bs[tail] := view[g.start + tail + 1]];
            Installing(h0, d0, v0, g, bs, tail + 1, h + [disk'], disk', view')
  {
    hide Installed, InstallTrace, LogClean;
    InstallTraceStep(h0, h, d0, g, bs, tail);
    InstalledNext(d0, g, bs, tail);
    InstalledNext(v0, g, bs, tail);
    LogCleanAt(view, disk, g, g.start + tail + 1);
    LogCleanHome(view, disk, g, bs[tail], view[g.start + tail + 1]);
  }

  /** The pins that a commit's install_trans has not dropped yet; recovery has none. */
  ghost function PinsLeft(bs: seq<nat>, tail: nat, recovering: bool): multiset<nat>
    requires tail <= |bs|
  {
    if recovering then multiset{} else multiset(bs[tail..])
  }

  lemma PinsLeftStep(bs: seq<nat>, tail: nat, recovering: bool)
    requires tail < |bs|
    ensures !recovering ==> bs[tail] in PinsLeft(bs, tail, recovering)
    ensures PinsLeft(bs, tail + 1, recovering) ==
            PinsLeft(bs, tail, recovering) - if recovering then multiset{} else multiset{bs[tail]}
  {
    assert bs[tail..] == [bs[tail]] + bs[tail+1..];
  }

  lemma PinsLeftEnds(bs: seq<nat>, recovering: bool)
    ensures PinsLeft(bs, 0, recovering) == if recovering then multiset{} else multiset(bs)
    ensures PinsLeft(bs, |bs|, recovering) == multiset{}
  {
    assert bs[0..] == bs && bs[|bs|..] == [];
  }

  lemma PinsAmong(bs: seq<nat>, tail: nat)
    requires tail <= |bs|
    ensures forall b :: b in PinsLeft(bs, tail, false) ==> b in multiset(bs)
  {
    assert forall b :: b in bs[tail..] ==> b in bs;
  }

  lemma LogCleanStart(view: Disk, disk: Disk, g: Geometry)
    requires LogClean(view, disk, g) && GeometryOk(g, |disk|)
    ensures view[g.start] == disk[g.start]
  {
  }

  lemma LogCleanHead(view: Disk, disk: Disk, g: Geometry, bs: seq<nat>)
    requires LogClean(view, disk, g) && GeometryOk(g, |disk|) && HomeBlocks(bs, g, |disk|)
    ensures view[g.start] == disk[g.start]
    ensures |view| == |disk| && LogClean(SetHead(view, g, bs), SetHead(disk, g, bs), g)
  {
  }

  lemma {:induction false} LogCleanWrittenTo(v: Disk, d: Disk, g: Geometry, cs: seq<Block>, k: nat)
    requires LogClean(v, d, g) && k <= |cs| && g.start + |cs| < |d|
    ensures LogClean(LogWritten(v, g, cs, k), LogWritten(d, g, cs, k), g)
  {
    if k > 0 {
      LogCleanWrittenTo(v, d, g, cs, k-1);
      LogWrittenNext(v, g, cs, k-1);
      LogWrittenNext(d, g, cs, k-1);
    }
  }

  lemma LogCleanWritten(v: Disk, d: Disk, g: Geometry, cs: seq<Block>)
    requires LogClean(v, d, g) && GeometryOk(g, |d|) && g.start + |cs| < |d|
    ensures LogClean(LogWritten(v, g, cs, |cs|), LogWritten(d, g, cs, |cs|), g)
    ensures LogWritten(v, g, cs, |cs|)[g.start] == LogWritten(d, g, cs, |cs|)[g.start]
  {
    LogCleanWrittenTo(v, d, g, cs, |cs|);
    LogCleanStart(LogWritten(v, g, cs, |cs|), LogWritten(d, g, cs, |cs|), g);
  }

  lemma LogCleanSealed(v: Disk, d: Disk, g: Geometry, bs: seq<nat>, cs: seq<Block>)
    requires LogClean(v, d, g) && GeometryOk(g, |d|) && HomeBlocks(bs, g, |d|) && |cs| == |bs|
    ensures |v| == |d| && LogClean(Sealed(v, g, bs, cs), Sealed(d, g, bs, cs), g)
    ensures SetHead(LogWritten(v, g, cs, |bs|), g, bs) == Sealed(v, g, bs, cs)
  {
    LogCleanWritten(v, d, g, cs);
  }

  /** The disks written since h0 are those of a commit, in order. */
  ghost predicate CommitTrace(h0: seq<Disk>, h1: seq<Disk>, d: Disk, g: Geometry, bs: seq<nat>, cs: seq<Block>) {
    && |h0| <= |h1| <= |h0| + CommitWrites(|bs|) && h1[..|h0|] == h0
    && GeometryOk(g, |d|) && HomeBlocks(bs, g, |d|) && |cs| == |bs|
    && (forall j :: |h0| <= j < |h1| ==> h1[j] == CommitDisk(d, g, bs, cs, j - |h0| + 1))
  }

  lemma CommitTraceStart(h0: seq<Disk>, d: Disk, g: Geometry, bs: seq<nat>, cs: seq<Block>)
    requires GeometryOk(g, |d|) && HomeBlocks(bs, g, |d|) && |cs| == |bs|
    ensures CommitTrace(h0, h0, d, g, bs, cs) && CommitDisk(d, g, bs, cs, 0) == d
    ensures g.start + |cs| < |d|
  {
  }

  lemma CommitTraceLog(h0: seq<Disk>, h1: seq<Disk>, d: Disk, g: Geometry, bs: seq<nat>, cs: seq<Block>)
    requires GeometryOk(g, |d|) && HomeBlocks(bs, g, |d|) && |cs| == |bs| && bs != []
    requires LogTrace(h0, h1, d, g, cs)
    ensures CommitTrace(h0, h1, d, g, bs, cs)
  {
    hide LogWritten;
  }

  lemma CommitTraceSeal(h0: seq<Disk>, h1: seq<Disk>, d: Disk, g: Geometry, bs: seq<nat>, cs: seq<Block>)
    requires CommitTrace(h0, h1, d, g, bs, cs) && |h1| == |h0| + |bs| && bs != []
    ensures SetHead(LogWritten(d, g, cs, |bs|), g, bs) == Sealed(d, g, bs, cs)
    ensures CommitTrace(h0, h1 + [Sealed(d, g, bs, cs)], d, g, bs, cs)
  {
    hide LogWritten, SetHead;
  }

  lemma CommitTraceInstall(h0: seq<Disk>, h1: seq<Disk>, h2: seq<Disk>, d: Disk, g: Geometry, bs: seq<nat>, cs: seq<Block>)
    requires CommitTrace(h0, h1, d, g, bs, cs) && |h1| == |h0| + |bs| + 1 && bs != []
    requires InstallTrace(h1, h2, Sealed(d, g, bs, cs), g, bs)
    ensures CommitTrace(h0, h2, d, g, bs, cs)
  {
    hide LogWritten, SetHead, Installed, Sealed;
    assert h2[..|h0|] == h2[..|h1|][..|h0|];
    forall j | |h0| <= j < |h2|
      ensures h2[j] == CommitDisk(d, g, bs, cs, j - |h0| + 1)
    {
      if j < |h1| {
        assert h2[j] == h2[..|h1|][j];
      }
    }
  }

  lemma CommitDiskEnd(d: Disk, g: Geometry, bs: seq<nat>, cs: seq<Block>)
    requires GeometryOk(g, |d|) && HomeBlocks(bs, g, |d|) && |cs| == |bs| && bs != []
    ensures CommitDisk(d, g, bs, cs, CommitWrites(|bs|)) == SetHead(Installed(Sealed(d, g, bs, cs), g, bs, |bs|), g, [])
  {
  }

  lemma CommitTraceEnd(h0: seq<Disk>, h1: seq<Disk>, d: Disk, g: Geometry, bs: seq<nat>, cs: seq<Block>)
    requires CommitTrace(h0, h1, d, g, bs, cs) && |h1| == |h0| + 2*|bs| + 1 && bs != []
    ensures CommitDisk(d, g, bs, cs, CommitWrites(|bs|)) == SetHead(Installed(Sealed(d, g, bs, cs), g, bs, |bs|), g, [])
    ensures CommitTrace(h0, h1 + [CommitDisk(d, g, bs, cs, CommitWrites(|bs|))], d, g, bs, cs)
  {
    hide LogWritten, SetHead, Installed, Sealed;
  }

  /** The disks written since h0 are those of a recovery, in order. */
  ghost predicate RecoverTrace(h0: seq<Disk>, h1: seq<Disk>, d: Disk, g: Geometry) {
    && LogOk(d, g)
    && |h0| <= |h1| <= |h0| + RecoverWrites(d, g) && h1[..|h0|] == h0
    && (forall j :: |h0| <= j < |h1| ==> h1[j] == RecoverDisk(d, g, j - |h0| + 1))
  }

  lemma RecoverTraceStart(h0: seq<Disk>, d: Disk, g: Geometry)
    requires LogOk(d, g)
    ensures RecoverTrace(h0, h0, d, g) && GeometryOk(g, |d|) && LogClean(d, d, g)
  {
  }

  lemma RecoverTraceInstall(h0: seq<Disk>, h1: seq<Disk>, d: Disk, g: Geometry)
    requires LogOk(d, g) && InstallTrace(h0, h1, d, g, Head(d, g))
    ensures RecoverTrace(h0, h1, d, g)
  {
  }

  lemma RecoverTraceEnd(h0: seq<Disk>, h1: seq<Disk>, d: Disk, g: Geometry)
    requires LogOk(d, g) && RecoverTrace(h0, h1, d, g) && |h1| == |h0| + |Head(d, g)|
    ensures Recovered(d, g) == SetHead(Installed(d, g, Head(d, g), |Head(d, g)|), g, [])
    ensures RecoverTrace(h0, h1 + [Recovered(d, g)], d, g) && RecoverWrites(d, g) == |Head(d, g)| + 1
  {
  }

  /** Every block whose contents differ from the disk's is logged or held. */
  ghost predicate Settled(view: Disk, disk: Disk, held: set<nat>, logged: seq<nat>) {
    && |view| == |disk|
    && (forall b :: 0 <= b < |disk| && b !in logged && b !in held ==> view[b] == disk[b])
  }

  lemma SettledMore(view: Disk, disk: Disk, held: set<nat>, logged: seq<nat>, b: nat)
    requires Settled(view, disk, held, logged)
    ensures Settled(view, disk, held, logged + [b])
  {
  }

  /** With nothing held, applying the logged blocks' contents to the disk gives the logical contents. */
  lemma SettledApply(view: Disk, disk: Disk, g: Geometry, bs: seq<nat>)
    requires Settled(view, disk, {}, bs) && HomeBlocks(bs, g, |disk|)
    ensures |view| == |disk| && SameHome(Apply(disk, bs, Values(view, bs)), view, g)
    ensures SameHome(Apply(view, bs, Values(view, bs)), view, g)
  {
    hide Apply;
    var cs := Values(view, bs);
    forall b | 0 <= b < |disk|
      ensures Apply(disk, bs, cs)[b] == view[b] == Apply(view, bs, cs)[b]
    {
      ApplyAt(disk, bs, cs, b);
      ApplyAt(view, bs, cs, b);
      if b in bs {
        var i :| 0 <= i < |bs| && bs[i] == b;
        assert cs[i] == view[b];
      }
    }
  }

  lemma CleanEverywhere(view: Disk, disk: Disk, g: Geometry)
    requires SameHome(view, disk, g) && LogClean(view, disk, g)
    ensures view == disk
  {
  }

  /** A finished commit: nothing is left that is not on disk, and the log is empty. */
  lemma CommitSettles(v: Disk, d: Disk, v1: Disk, d1: Disk, g: Geometry, bs: seq<nat>)
    requires LogOk(d, g) && Head(d, g) == [] && LogClean(v, d, g) && Settled(v, d, {}, bs) && HomeBlocks(bs, g, |d|)
    requires |v| == |d|
    requires d1 == CommitDisk(d, g, bs, Values(v, bs), CommitWrites(|bs|))
    requires v1 == CommitDisk(v, g, bs, Values(v, bs), CommitWrites(|bs|))
    requires LogClean(v1, d1, g)
    ensures LogOk(d1, g) && Head(d1, g) == [] && v1 == d1 && SameHome(d1, v, g)
  {
    LogCleanStart(v, d, g);
    assert LogOk(v, g) && Head(v, g) == [];
    hide LogOk, Head, CommitDisk, Values, HomeBlocks, Apply, Recovered, SameHome;
    CommitAtomic(d, g, bs, Values(v, bs), CommitWrites(|bs|));
    CommitAtomic(v, g, bs, Values(v, bs), CommitWrites(|bs|));
    SettledApply(v, d, g, bs);
    SameHomeTransitive(d1, Apply(d, bs, Values(v, bs)), v, g);
    SameHomeTransitive(v1, Apply(v, bs, Values(v, bs)), v, g);
    SameHomeSymmetric(d1, v, g);
    SameHomeTransitive(v1, v, d1, g);
    CleanEverywhere(v1, d1, g);
  }

  /** `h` holds only disks that recover to `before` up to position k and to `later` from there on. */
  ghost predicate Atomic(h: seq<Disk>, from: nat, k: nat, before: Disk, later: Disk, g: Geometry) {
    forall j :: from <= j < |h| ==>
      LogOk(h[j], g) && SameHome(Recovered(h[j], g), if j < k then before else later, g)
  }

  /** Every disk a commit goes through recovers to the old disk or to the logical contents, the
      header write being the turning point. */
  lemma CommitTraceAtomic(h0: seq<Disk>, h1: seq<Disk>, d: Disk, v: Disk, g: Geometry, bs: seq<nat>)
    requires LogOk(d, g) && Head(d, g) == [] && Settled(v, d, {}, bs) && HomeBlocks(bs, g, |d|)
    requires |v| == |d| && CommitTrace(h0, h1, d, g, bs, Values(v, bs))
    ensures Atomic(h1, |h0|, |h0| + |bs|, d, v, g)
  {
    var cs := Values(v, bs);
    forall j | |h0| <= j < |h1|
      ensures LogOk(h1[j], g) && SameHome(Recovered(h1[j], g), if j < |h0| + |bs| then d else v, g)
    {
      hide LogOk, Head, Recovered, CommitDisk, Apply, SameHome, Settled, HomeBlocks, Values;
      var k := j - |h0| + 1;
      assert h1[j] == CommitDisk(d, g, bs, cs, k);
      CommitAtomic(d, g, bs, cs, k);
      if k > |bs| {
        SettledApply(v, d, g, bs);
        SameHomeTransitive(Recovered(h1[j], g), Apply(d, bs, cs), v, g);
      }
    }
  }

  lemma SettledHeld(view: Disk, disk: Disk, held: set<nat>, logged: seq<nat>, b: nat, c: Block)
    requires Settled(view, disk, held, logged) && b < |disk|
    ensures Settled(view, disk, held + {b}, logged)
    ensures b in held ==> |view| == |disk| && Settled(view[b := c], disk, held, logged)
    ensures b in logged || view[b] == disk[b] ==> Settled(view, disk, held - {b}, logged)
  {
  }

  lemma LogCleanChange(view: Disk, disk: Disk, g: Geometry, b: nat, c: Block)
    requires LogClean(view, disk, g) && b < |disk| && !InLog(g, b)
    ensures |view| == |disk| && LogClean(view[b := c], disk, g)
  {
  }

  lemma RecoveredEmpty(d: Disk, g: Geometry)
    requires LogOk(d, g)
    ensures LogOk(Recovered(d, g), g) && Head(Recovered(d, g), g) == []
  {
    RecoverAtomic(d, g, RecoverWrites(d, g));
  }

  lemma RecoverTraceAtomic(h0: seq<Disk>, h1: seq<Disk>, d: Disk, g: Geometry)
    requires LogOk(d, g) && RecoverTrace(h0, h1, d, g)
    ensures Atomic(h1, |h0|, |h0|, d, Recovered(d, g), g)
  {
    forall j | |h0| <= j < |h1|
      ensures LogOk(h1[j], g) && SameHome(Recovered(h1[j], g), Recovered(d, g), g)
    {
      hide LogOk, Head, Recovered, RecoverDisk, SameHome;
      RecoverAtomic(d, g, j - |h0| + 1);
    }
  }

  lemma SettledEqual(view: Disk, disk: Disk, held: set<nat>, g: Geometry)
    requires view == disk
    ensures Settled(view, disk, held, []) && LogClean(view, disk, g)
  {
  }

  lemma SameHomeSymmetric(d: Disk, e: Disk, g: Geometry)
    requires SameHome(d, e, g)
    ensures SameHome(e, d, g)
  {
  }

  class LogLayer {
    const cache: Bcache
    const g: Geometry
    const maxop: nat

    var outstanding: nat
    var committing: bool
    var n: nat
    var block: seq<nat>   // lh.block[LOGSIZE]

    ghost var ops: seq<Reservation.Op>

    ghost function Logged(): seq<nat>
      reads this`n, this`block
    {
      if n <= |block| then block[..n] else []
    }

    ghost predicate HeaderOk(nblocks: nat)
      reads this`n, this`block
    {
      && |block| == g.logsize && n <= g.logsize
      && GeometryOk(g, nblocks)
      && HomeBlocks(Logged(), g, nblocks)
    }

    ghost function Abs(): Reservation.LogState
      reads this
    {
      Reservation.LogState(Logged(), ops, committing)
    }

    ghost function Params(): Reservation.Params {
      Reservation.Params(maxop, g.logsize, g.size)
    }

    /** Between the operations of system calls: the on-disk log is empty, exactly the logged blocks
        are pinned, every change that is not on disk is logged or still in its writer's hands, and
        the reservation holds. */
    ghost predicate Valid()
      reads this, cache
    {
      && cache.Valid() && HeaderOk(|cache.disk|)
      && LogOk(cache.disk, g) && Head(cache.disk, g) == []
      && cache.pinned == multiset(Logged())
      && LogClean(cache.view, cache.disk, g)
      && Settled(cache.view, cache.disk, cache.held, Logged())
      && outstanding == Reservation.Outstanding(ops)
      && Reservation.Reserved(Params(), Abs())
    }

    constructor (cache: Bcache, g: Geometry, maxop: nat)
      ensures this.cache == cache && this.g == g && this.maxop == maxop
    {
      this.cache, this.g, this.maxop := cache, g, maxop;
      outstanding, committing, n, block, ops := 0, false, 0, seq(g.logsize, _ => 0), [];
    }

    lemma HeaderSizes(nblocks: nat)
      requires HeaderOk(nblocks)
      ensures n <= |block| == g.logsize && Logged() == block[..n] && n < g.size && g.start + g.size <= nblocks
      ensures g.logsize < WORDS && nblocks <= 0x1_0000_0000
      ensures forall i :: 0 <= i < |Logged()| ==> Logged()[i] < nblocks
    {
    }

    lemma HeaderGeometry(nblocks: nat)
      requires HeaderOk(nblocks)
      ensures GeometryOk(g, nblocks) && HomeBlocks(Logged(), g, nblocks)
    {
    }

    lemma HeaderAppend(nblocks: nat, blockno: nat)
      requires HeaderOk(nblocks) && n < g.logsize && n < g.size - 1
      requires blockno < nblocks && !InLog(g, blockno) && blockno !in Logged()
      ensures HomeBlocks(Logged() + [blockno], g, nblocks)
    {
    }

    lemma EmptyHeader(nblocks: nat)
      requires GeometryOk(g, nblocks) && |block| == g.logsize && n == 0
      ensures HeaderOk(nblocks) && Logged() == []
    {
    }

    lemma EntryFacts(nblocks: nat, tail: nat)
      requires HeaderOk(nblocks) && tail < n
      ensures n <= |block| && block[tail] in Logged() && block[tail] < nblocks
      ensures g.start + tail + 1 < nblocks && InLog(g, g.start + tail + 1) && !InLog(g, block[tail])
    {
      assert Logged()[tail] == block[tail];
    }

    /** Copy one held buffer over another and write that to disk. */
    method CopyAndWrite(from: nat, ghost b: nat, to: nat, ghost l: nat)
      requires cache.Valid() && cache.Holds(from, b) && cache.Holds(to, l) && b != l
      modifies cache`buf, cache`view, cache`disk, cache`history
      ensures cache.Valid() && cache.Holds(from, b) && cache.Holds(to, l)
      ensures cache.view == old(cache.view)[l := old(cache.view)[b]]
      ensures cache.disk == old(cache.disk)[l := old(cache.view)[b]]
      ensures cache.history == old(cache.history) + [cache.disk]
      ensures cache.buf[from] == old(cache.buf)[from] && cache.buf[to].refcnt == old(cache.buf)[to].refcnt
    {
      hide Bcache.Valid;
      assert cache.buf[from].blockno != cache.buf[to].blockno;
      cache.SetData(to, l, cache.buf[from].data);
      cache.Bwrite(to, l);
    }

    /** Let go of two held buffers, each of them pinned or clean. */
    method ReleaseBoth(x: nat, ghost xb: nat, y: nat, ghost yb: nat)
      requires cache.Valid() && cache.Holds(x, xb) && cache.Holds(y, yb) && xb != yb
      requires xb in cache.pinned || cache.view[xb] == cache.disk[xb]
      requires yb in cache.pinned || cache.view[yb] == cache.disk[yb]
      modifies cache`buf, cache`held, cache`prev, cache`next, cache`order, cache`stamp, cache`clock
      ensures cache.Valid() && cache.held == old(cache.held) - {xb, yb}
    {
      hide Bcache.Valid, MoveToFront;
      if xb in cache.pinned {
        PinnedReferences(cache, x, xb);
      }
      cache.Brelse(x, xb);
      if yb in cache.pinned {
        PinnedReferences(cache, y, yb);
      }
      cache.Brelse(y, yb);
    }

    /** Logged blocks are home blocks, so a block of the log area is not pinned. */
    lemma LogUnpinned(nblocks: nat, l: nat)
      requires HeaderOk(nblocks) && InLog(g, l)
      ensures l !in multiset(Logged())
    {
    }

    /** One turn of write_log: copy a logged block from the cache to its log block. False, the "no
        buffers" panic, happens exactly when every buffer is referenced, by the log or by others. */
    method CopyToLog(tail: nat) returns (ok: bool)
      requires cache.Valid() && HeaderOk(|cache.disk|) && tail < n && Aside(cache.held, cache.waiting, g, Logged())
      requires cache.pinned == multiset(Logged())
      modifies cache
      ensures cache.Valid() && cache.pinned == old(cache.pinned) && cache.waiting == old(cache.waiting)
      ensures ok <==> !Full(old(cache.held), cache.pinned, cache.waiting, cache.nbuf)
      ensures ok ==>
                && cache.held == old(cache.held)
                && Copied(old(cache.view), old(cache.disk), cache.view, cache.disk, block[tail], g.start + tail + 1)
                && cache.history == old(cache.history) + [cache.disk]
      ensures !ok ==> cache.view == old(cache.view) && cache.disk == old(cache.disk) && cache.history == old(cache.history)
    {
      hide Bcache.Valid, HomeBlocks, GeometryOk, InLog, LogLayer.Logged, LogLayer.HeaderOk, MoveToFront, Free, NoBuffer,
           Full, Aside;
      EntryFacts(|cache.disk|, tail);
      CacheSizes(cache);
      ghost var l, b := g.start + tail + 1, block[tail];
      assert InLog(g, l) && !InLog(g, b) && l != b;
      LogUnpinned(|cache.disk|, l);
      AsideAt(cache.held, cache.waiting, g, Logged(), l);
      AsideAt(cache.held, cache.waiting, g, Logged(), b);
      BufferFor(cache.held, cache.pinned, cache.waiting, cache.nbuf, l, b);
      var to := cache.Bread(g.start + tail + 1);
      if !to.Got? {
        return false;
      }
      assert cache.held == old(cache.held) + {l};
      var from := cache.Bread(block[tail]);
      CopyAndWrite(from.b, b, to.b, l);
      ReleaseBoth(from.b, b, to.b, l);
      assert cache.held == old(cache.held);
      return true;
    }

    /** Copy the logged blocks from the cache to the log; false is the "no buffers" panic. */
    method WriteLog() returns (ok: bool)
      requires cache.Valid() && HeaderOk(|cache.disk|) && Aside(cache.held, cache.waiting, g, Logged())
      requires cache.pinned == multiset(Logged())
      modifies cache
      ensures cache.Valid() && cache.pinned == old(cache.pinned) && cache.waiting == old(cache.waiting)
      ensures ok <==> n == 0 || !Full(old(cache.held), cache.pinned, cache.waiting, cache.nbuf)
      ensures var cs := Values(old(cache.view), Logged());
              var k := |cache.history| - |old(cache.history)|;
              && 0 <= k <= n && (ok ==> k == n && cache.held == old(cache.held))
              && cache.disk == LogWritten(old(cache.disk), g, cs, k)
              && cache.view == LogWritten(old(cache.view), g, cs, k)
              && LogTrace(old(cache.history), cache.history, old(cache.disk), g, cs)
    {
      hide Bcache.Valid, HomeBlocks, GeometryOk, LogLayer.Logged, LogLayer.HeaderOk, LogTrace, LogWritten, Values, InLog,
           Full, Aside;
      HeaderSizes(|cache.disk|);
      CacheSizes(cache);
      ghost var d0, v0, h0 := cache.disk, cache.view, cache.history;
      ghost var cs := Values(v0, Logged());
      LogTraceStart(h0, d0, g, cs);
      LogTraceStart(h0, v0, g, cs);
      var tail := 0;
      while tail < n
        invariant 0 <= tail <= n && (tail > 0 ==> !Full(cache.held, cache.pinned, cache.waiting, cache.nbuf))
        invariant cache.Valid() && cache.held == old(cache.held) && cache.waiting == old(cache.waiting) && cache.pinned == multiset(Logged())
        invariant cache.disk == LogWritten(d0, g, cs, tail) && cache.view == LogWritten(v0, g, cs, tail)
        invariant |cache.history| == |h0| + tail && LogTrace(h0, cache.history, d0, g, cs)
      {
        EntryFacts(|cache.disk|, tail);
        ghost var b := block[tail];
        LogWrittenHome(v0, g, cs, tail, b);
        LogTraceStep(h0, cache.history, d0, g, cs, tail);
        LogWrittenNext(d0, g, cs, tail);
        LogWrittenNext(v0, g, cs, tail);
        ValuesAt(v0, Logged(), tail);
        ok := CopyToLog(tail);
        if !ok {
          return;
        }
        tail := tail + 1;
      }
      return true;
    }

    /** Store the in-memory header over a header block. */
    method EncodeHead(h: Block) returns (hb: Block)
      requires n <= |block| < WORDS && forall i :: 0 <= i < n ==> block[i] < 0x1_0000_0000
      ensures hb == WithHead(h, block[..n])
    {
      hide WithWord, WithEntries;
      hb := WithWord(h, 0, n);
      EntriesStart(h, block[..n]);
      var i := 0;
      while i < n
        invariant 0 <= i <= n && hb == WithEntries(h, block[..n], i)
      {
        EntriesNext(h, block[..n], i);
        hb := WithWord(hb, i + 1, block[i]);
        i := i + 1;
      }
    }

    /** Write the in-memory header to disk. */
    method WriteHead() returns (ok: bool)
      requires cache.Valid() && HeaderOk(|cache.disk|) && g.start !in cache.held
      requires cache.view[g.start] == cache.disk[g.start]
      modifies cache
      ensures cache.Valid() && cache.pinned == old(cache.pinned) && cache.waiting == old(cache.waiting)
      ensures ok <==> !NoBuffer(old(cache.held), cache.pinned, cache.waiting, cache.nbuf, g.start)
      ensures ok ==>
                && cache.held == old(cache.held)
                && cache.disk == SetHead(old(cache.disk), g, Logged())
                && cache.view == SetHead(old(cache.view), g, Logged())
                && cache.history == old(cache.history) + [cache.disk]
      ensures !ok ==> cache.view == old(cache.view) && cache.disk == old(cache.disk) && cache.history == old(cache.history)
    {
      hide Bcache.Valid, HomeBlocks, LogLayer.Logged, LogLayer.HeaderOk, WithHead, Free, MoveToFront, NoBuffer;
      HeaderSizes(|cache.disk|);
      CacheSizes(cache);
      var r := cache.Bread(g.start);
      if !r.Got? {
        return false;
      }
      var hb := EncodeHead(cache.buf[r.b].data);
      cache.SetData(r.b, g.start, hb);
      cache.Bwrite(r.b, g.start);
      cache.Brelse(r.b, g.start);
      return true;
    }

    /** Read the header from disk into memory. */
    method ReadHead() returns (ok: bool)
      requires cache.Valid() && cache.held == {} && cache.waiting == multiset{} && LogOk(cache.disk, g) && |block| == g.logsize
      requires cache.view == cache.disk
      modifies this`n, this`block, cache
      ensures cache.Valid() && cache.pinned == old(cache.pinned) && cache.waiting == multiset{}
      ensures ok <==> !NoBuffer({}, cache.pinned, multiset{}, cache.nbuf, g.start)
      ensures cache.view == old(cache.view) && cache.disk == old(cache.disk) && cache.history == old(cache.history)
      ensures ok ==> cache.held == {} && HeaderOk(|cache.disk|) && Logged() == Head(cache.disk, g)
    {
      hide Bcache.Valid, Free, MoveToFront, NoBuffer, HomeBlocks, Word, Entries;
      CacheSizes(cache);
      var r := cache.Bread(g.start);
      if !r.Got? {
        return false;
      }
      var lh := cache.buf[r.b].data;
      n := Word(lh, 0);
      EntriesSize(lh, n);
      var i := 0;
      while i < n
        modifies this`block
        invariant 0 <= i <= n && |block| == g.logsize && block[..i] == Entries(lh, n)[..i]
      {
        EntriesAt(lh, n, i);
        block := block[i := Word(lh, i + 1)];
        i := i + 1;
      }
      cache.Brelse(r.b, g.start);
      return true;
    }

    /** One turn of install_trans: copy a log block to its home and write that. */
    method CopyToHome(tail: nat, recovering: bool) returns (ok: bool)
      requires cache.Valid() && HeaderOk(|cache.disk|) && tail < n <= |block| && LogClean(cache.view, cache.disk, g)
      requires g.start + tail + 1 !in cache.held && block[tail] !in cache.held
      requires !recovering ==> block[tail] in cache.pinned
      modifies cache
      ensures cache.Valid() && cache.waiting == old(cache.waiting)
      ensures ok <==> !NoBuffer(old(cache.held), old(cache.pinned), cache.waiting, cache.nbuf, g.start + tail + 1)
                      && !NoBuffer(old(cache.held) + {g.start + tail + 1}, old(cache.pinned), cache.waiting, cache.nbuf, block[tail])
      ensures ok ==>
                && cache.held == old(cache.held)
                && Copied(old(cache.view), old(cache.disk), cache.view, cache.disk, g.start + tail + 1, block[tail])
                && cache.history == old(cache.history) + [cache.disk]
                && cache.pinned == old(cache.pinned) - (if recovering then multiset{} else multiset{block[tail]})
      ensures !ok ==> cache.view == old(cache.view) && cache.disk == old(cache.disk) && cache.history == old(cache.history)
    {
      hide Bcache.Valid, HomeBlocks, GeometryOk, InLog, LogClean, LogLayer.Logged, LogLayer.HeaderOk, MoveToFront, Free, NoBuffer;
      EntryFacts(|cache.disk|, tail);
      CacheSizes(cache);
      ghost var l, b := g.start + tail + 1, block[tail];
      assert InLog(g, l) && !InLog(g, b) && l != b;
      LogCleanAt(cache.view, cache.disk, g, l);
      var lbuf := cache.Bread(g.start + tail + 1);
      if !lbuf.Got? {
        return false;
      }
      assert cache.held == old(cache.held) + {l};
      var dbuf := cache.Bread(block[tail]);
      if !dbuf.Got? {
        return false;
      }
      PutHome(lbuf.b, l, dbuf.b, b, recovering);
      assert cache.held == old(cache.held);
      return true;
    }

    /** The rest of the turn, with both buffers in hand. */
    method PutHome(lbuf: nat, ghost l: nat, dbuf: nat, ghost b: nat, recovering: bool)
      requires cache.Valid() && cache.Holds(lbuf, l) && cache.Holds(dbuf, b) && l != b && cache.view[l] == cache.disk[l]
      requires !recovering ==> b in cache.pinned
      modifies cache
      ensures cache.Valid() && cache.waiting == old(cache.waiting) && cache.held == old(cache.held) - {l, b}
      ensures cache.view == old(cache.view)[b := old(cache.view)[l]] && cache.disk == old(cache.disk)[b := old(cache.view)[l]]
      ensures cache.history == old(cache.history) + [cache.disk]
      ensures cache.pinned == old(cache.pinned) - (if recovering then multiset{} else multiset{b})
    {
      hide Bcache.Valid, MoveToFront;
      CacheSizes(cache);
      CopyAndWrite(lbuf, l, dbuf, b);
      if !recovering {
        cache.Bunpin(dbuf, b);
      }
      ReleaseBoth(lbuf, l, dbuf, b);
    }

    /** Whether a turn finds its two buffers. In a commit the home block is pinned; at boot nothing is
        referenced. */
    ghost predicate TurnFits(held: set<nat>, waiting: multiset<nat>, tail: nat, recovering: bool)
      reads this`n, this`block
      requires tail <= |Logged()|
    {
      if recovering then cache.nbuf >= 2 else !Full(held, PinsLeft(Logged(), tail, false), waiting, cache.nbuf)
    }

    lemma InstallFill(nblocks: nat, held: set<nat>, waiting: multiset<nat>, tail: nat, recovering: bool)
      requires HeaderOk(nblocks) && tail < n && Aside(held, waiting, g, Logged())
      requires recovering ==> held == {} && waiting == multiset{}
      ensures tail < |Logged()|
      ensures g.start + tail + 1 !in held && block[tail] !in held
      ensures var pinned, l, b := PinsLeft(Logged(), tail, recovering), g.start + tail + 1, block[tail];
              (!NoBuffer(held, pinned, waiting, cache.nbuf, l) && !NoBuffer(held + {l}, pinned, waiting, cache.nbuf, b)) <==>
              TurnFits(held, waiting, tail, recovering)
    {
      hide Aside, NoBuffer, Full, InLog, HomeBlocks, GeometryOk;
      var pinned, l, b := PinsLeft(Logged(), tail, recovering), g.start + tail + 1, block[tail];
      EntryFacts(nblocks, tail);
      AsideAt(held, waiting, g, Logged(), l);
      AsideAt(held, waiting, g, Logged(), b);
      if recovering {
        NothingReferenced(cache.nbuf, l, b);
        assert held + {l} == {l};
      } else {
        LogUnpinned(nblocks, l);
        PinsLeftStep(Logged(), tail, false);
        PinsAmong(Logged(), tail);
        BufferFor(held, pinned, waiting, cache.nbuf, l, b);
      }
    }

    lemma FirstTurn(held: set<nat>, waiting: multiset<nat>, recovering: bool)
      ensures TurnFits(held, waiting, 0, recovering) <==>
              if recovering then cache.nbuf >= 2 else !Full(held, multiset(Logged()), waiting, cache.nbuf)
    {
      hide Full;
      PinsLeftEnds(Logged(), false);
    }

    /** If the first turn finds its buffers then so do the others. */
    lemma LaterTurnsFit(held: set<nat>, waiting: multiset<nat>, tail: nat, recovering: bool)
      requires tail <= |Logged()| && TurnFits(held, waiting, 0, recovering)
      ensures TurnFits(held, waiting, tail, recovering)
    {
      hide Full;
      if !recovering {
        PinsLeftEnds(Logged(), false);
        PinsAmong(Logged(), tail);
        FewerPins(held, multiset(Logged()), PinsLeft(Logged(), tail, false), waiting, cache.nbuf);
      }
    }

    /** The same turn, seen as a step of the installation. */
    method InstallOne(tail: nat, recovering: bool, ghost h0: seq<Disk>, ghost d0: Disk, ghost v0: Disk) returns (ok: bool)
      requires cache.Valid() && HeaderOk(|cache.disk|) && tail < n && Aside(cache.held, cache.waiting, g, Logged())
      requires recovering ==> cache.held == {} && cache.waiting == multiset{}
      requires Installing(h0, d0, v0, g, Logged(), tail, cache.history, cache.disk, cache.view)
      requires cache.pinned == PinsLeft(Logged(), tail, recovering)
      modifies cache
      ensures cache.Valid() && |cache.disk| == |old(cache.disk)| && cache.waiting == old(cache.waiting)
      ensures ok <==> TurnFits(old(cache.held), cache.waiting, tail, recovering)
      ensures ok ==>
                && cache.held == old(cache.held) && cache.pinned == PinsLeft(Logged(), tail + 1, recovering)
                && Installing(h0, d0, v0, g, Logged(), tail + 1, cache.history, cache.disk, cache.view)
      ensures !ok ==> Installing(h0, d0, v0, g, Logged(), tail, cache.history, cache.disk, cache.view)
    {
      hide Bcache.Valid, HomeBlocks, LogLayer.HeaderOk, Installing, InstallTrace, Installed, LogClean, GeometryOk, PinsLeft, NoBuffer,
           Aside, Full, LogLayer.TurnFits;
      HeaderSizes(|cache.disk|);
      InstallingNow(h0, d0, v0, g, Logged(), tail, cache.history, cache.disk, cache.view);
      InstallingStep(h0, d0, v0, g, Logged(), tail, cache.history, cache.disk, cache.view);
      PinsLeftStep(Logged(), tail, recovering);
      InstallFill(|cache.disk|, cache.held, cache.waiting, tail, recovering);
      ok := CopyToHome(tail, recovering);
    }

    /** Copy the log's blocks to their home locations. */
    method InstallTrans(recovering: bool) returns (ok: bool)
      requires cache.Valid() && HeaderOk(|cache.disk|) && Aside(cache.held, cache.waiting, g, Logged())
      requires recovering ==> cache.held == {} && cache.waiting == multiset{}
      requires LogClean(cache.view, cache.disk, g)
      requires cache.pinned == if recovering then multiset{} else multiset(Logged())
      modifies cache
      ensures cache.Valid() && cache.waiting == old(cache.waiting)
      ensures ok <==> n == 0 || if recovering then cache.nbuf >= 2 else !Full(old(cache.held), old(cache.pinned), cache.waiting, cache.nbuf)
      ensures var k := |cache.history| - |old(cache.history)|;
              && 0 <= k <= n && (ok ==> k == n && cache.held == old(cache.held) && cache.pinned == multiset{})
              && cache.disk == Installed(old(cache.disk), g, Logged(), k)
              && cache.view == Installed(old(cache.view), g, Logged(), k)
              && LogClean(cache.view, cache.disk, g)
              && InstallTrace(old(cache.history), cache.history, old(cache.disk), g, Logged())
    {
      hide Bcache.Valid, HomeBlocks, LogLayer.Logged, LogLayer.HeaderOk, Installing, InstallTrace, Installed, LogClean, GeometryOk, PinsLeft,
           Aside, Full, LogLayer.TurnFits;
      HeaderSizes(|cache.disk|);
      HeaderGeometry(|cache.disk|);
      ghost var d0, v0, h0 := cache.disk, cache.view, cache.history;
      ghost var held, others := cache.held, cache.waiting;
      FirstTurn(held, others, recovering);
      InstallingStart(h0, d0, v0, g, Logged());
      PinsLeftEnds(Logged(), recovering);
      var tail := 0;
      ok := true;
      while ok && tail < n
        invariant 0 <= tail <= n && cache.Valid() && |cache.disk| == |d0|
        invariant cache.waiting == others && (ok && tail > 0 ==> TurnFits(held, others, 0, recovering))
        invariant !ok ==> n > 0 && !TurnFits(held, others, 0, recovering)
        invariant ok ==> cache.held == held && cache.pinned == PinsLeft(Logged(), tail, recovering)
        invariant Installing(h0, d0, v0, g, Logged(), tail, cache.history, cache.disk, cache.view)
        decreases ok, n - tail
      {
        if TurnFits(held, others, 0, recovering) { LaterTurnsFit(held, others, tail, recovering); }
        ok := InstallOne(tail, recovering, h0, d0, v0);
        if ok {
          tail := tail + 1;
        }
      }
      InstallingNow(h0, d0, v0, g, Logged(), tail, cache.history, cache.disk, cache.view);
    }

    /** What a bread of the header block needs, before and after the logged blocks are unpinned. */
    lemma HeadFill(nblocks: nat, held: set<nat>, waiting: multiset<nat>)
      requires HeaderOk(nblocks) && Aside(held, waiting, g, Logged())
      ensures g.start !in held
      ensures NoBuffer(held, multiset(Logged()), waiting, cache.nbuf, g.start) <==> Full(held, multiset(Logged()), waiting, cache.nbuf)
      ensures NoBuffer(held, multiset{}, waiting, cache.nbuf, g.start) ==> Full(held, multiset(Logged()), waiting, cache.nbuf)
    {
      hide Full, NoBuffer, Aside, HomeBlocks;
      HeaderGeometry(nblocks);
      LogUnpinned(nblocks, g.start);
      AsideAt(held, waiting, g, Logged(), g.start);
      BufferFor(held, multiset(Logged()), waiting, cache.nbuf, g.start, g.start);
      BufferFor(held, multiset{}, waiting, cache.nbuf, g.start, g.start);
      FewerPins(held, multiset(Logged()), multiset{}, waiting, cache.nbuf);
    }

    /** Commit the logged blocks. However far it gets before a crash or a "no buffers" panic, the
        disk goes through the states of CommitDisk in order; a finished commit leaves an empty log. */
    method Commit() returns (ok: bool)
      requires cache.Valid() && HeaderOk(|cache.disk|) && Aside(cache.held, cache.waiting, g, Logged())
      requires cache.pinned == multiset(Logged()) && LogClean(cache.view, cache.disk, g)
      modifies this`n, cache
      ensures cache.Valid() && |cache.disk| == |old(cache.disk)| && cache.waiting == old(cache.waiting)
      ensures ok <==> old(n) == 0 || !Full(old(cache.held), old(cache.pinned), cache.waiting, cache.nbuf)
      ensures CommitTrace(old(cache.history), cache.history, old(cache.disk), g, old(Logged()), Values(old(cache.view), old(Logged())))
      ensures ok ==>
                && n == 0 && HeaderOk(|cache.disk|) && cache.held == old(cache.held) && cache.pinned == multiset{}
                && LogClean(cache.view, cache.disk, g)
                && |cache.history| == |old(cache.history)| + CommitWrites(old(n))
                && cache.disk == CommitDisk(old(cache.disk), g, old(Logged()), Values(old(cache.view), old(Logged())), CommitWrites(old(n)))
                && cache.view == CommitDisk(old(cache.view), g, old(Logged()), Values(old(cache.view), old(Logged())), CommitWrites(old(n)))
    {
      hide Bcache.Valid, HomeBlocks, LogLayer.Logged, LogLayer.HeaderOk, LogTrace, InstallTrace, CommitTrace, CommitDisk,
           NoBuffer, LogWritten, Installed, Sealed, SetHead, InLog, LogClean, GeometryOk, Values, Full, Aside;
      HeaderSizes(|cache.disk|);
      HeaderGeometry(|cache.disk|);
      CacheSizes(cache);
      ghost var d0, v0, h0, bs := cache.disk, cache.view, cache.history, Logged();
      ghost var cs := Values(v0, bs);
      CommitTraceStart(h0, d0, g, bs, cs);
      CommitTraceStart(h0, v0, g, bs, cs);
      HeadFill(|cache.disk|, cache.held, cache.waiting);
      if n > 0 {
        ok := WriteLog();
        CommitTraceLog(h0, cache.history, d0, g, bs, cs);
        if !ok {
          return;
        }
        ghost var h1 := cache.history;
        LogCleanWritten(v0, d0, g, cs);
        ok := WriteHead();
        if !ok {
          return;
        }
        CommitTraceSeal(h0, h1, d0, g, bs, cs);
        LogCleanSealed(v0, d0, g, bs, cs);
        ghost var h2 := cache.history;
        ok := InstallTrans(false);
        CommitTraceInstall(h0, h2, cache.history, d0, g, bs, cs);
        if !ok {
          return;
        }
        n := 0;
        EmptyHeader(|cache.disk|);
        ghost var h3 := cache.history;
        LogCleanHead(cache.view, cache.disk, g, []);
        ok := WriteHead();
        if !ok {
          return;
        }
        CommitTraceEnd(h0, h3, d0, g, bs, cs);
        CommitDiskEnd(v0, g, bs, cs);
      }
      return true;
    }

    /** Finish a committed transaction that a crash interrupted. */
    method RecoverFromLog() returns (ok: bool)
      requires cache.Valid() && cache.held == {} && cache.waiting == multiset{} && cache.pinned == multiset{} && cache.view == cache.disk
      requires LogOk(cache.disk, g) && |block| == g.logsize
      modifies this`n, this`block, cache
      ensures cache.Valid() && cache.waiting == multiset{}
      ensures ok <==> cache.nbuf >= if Head(old(cache.disk), g) == [] then 1 else 2
      ensures RecoverTrace(old(cache.history), cache.history, old(cache.disk), g)
      ensures ok ==>
                && n == 0 && HeaderOk(|cache.disk|) && cache.held == {} && cache.pinned == multiset{}
                && |cache.history| == |old(cache.history)| + RecoverWrites(old(cache.disk), g)
                && cache.disk == cache.view == Recovered(old(cache.disk), g)
    {
      hide Bcache.Valid, HomeBlocks, LogLayer.Logged, LogLayer.HeaderOk, InstallTrace, RecoverTrace, RecoverDisk, Recovered,
           Installed, SetHead, InLog, LogClean, GeometryOk, LogOk, Head, RecoverWrites, NoBuffer;
      ghost var d0, h0 := cache.disk, cache.history;
      RecoverTraceStart(h0, d0, g);
      NothingReferenced(cache.nbuf, g.start, g.start + 1);
      ok := ReadHead();
      if !ok {
        return;
      }
      HeaderSizes(|d0|);
      PinsLeftEnds(Logged(), true);
      ok := InstallTrans(true);
      RecoverTraceInstall(h0, cache.history, d0, g);
      if !ok {
        return;
      }
      n := 0;
      EmptyHeader(|cache.disk|);
      LogCleanHead(cache.view, cache.disk, g, []);
      RecoverTraceEnd(h0, cache.history, d0, g);
      ok := WriteHead();
    }

    /** One pass of begin_op under the log's lock: reserve space, or sleep. */
    method BeginOp() returns (started: bool)
      requires Valid()
      modifies this`outstanding, this`ops
      ensures Valid()
      ensures started <==> !Reservation.BeginSleeps(Params(), old(Abs()))
      ensures started ==> Reservation.Step(Params(), old(Abs()), Reservation.Begin) == Some(Abs())
      ensures !started ==> Abs() == old(Abs())
    {
      hide Bcache.Valid, HomeBlocks, LogLayer.HeaderOk, LogOk, Head, LogClean, Settled, Reservation.Reserved, Reservation.Step, Reservation.BeginSleeps,
           Reservation.Outstanding;
      HeaderSizes(|cache.disk|);
      Reservation.BeginStep(Params(), Abs(), outstanding);
      if committing {
        return false;
      } else if n + (outstanding + 1) * maxop > g.logsize {
        return false;
      }
      outstanding := outstanding + 1;
      ops := ops + [Reservation.Live(maxop)];
      return true;
    }

    /** Record a modified, held block. False is the "too big a transaction" panic; the "outside of
        trans" panic cannot happen to a live call. */
    method LogWrite(b: nat, ghost blockno: nat, ghost op: nat) returns (ok: bool)
      requires Valid() && cache.Holds(b, blockno) && !InLog(g, blockno)
      requires op < |ops| && ops[op].Live? && (blockno in Logged() || ops[op].unspent > 0)
      modifies this`n, this`block, this`ops, cache`buf, cache`pinned
      ensures Valid() && cache.Holds(b, blockno)
      ensures ok <==> !Reservation.TooBig(Params(), old(Abs()))
      ensures ok ==> Reservation.Step(Params(), old(Abs()), Reservation.Write(op, blockno)) == Some(Abs())
    {
      hide Bcache.Valid, Bcache.Holds, InLog, LogLayer.HeaderOk, LogOk, Head, LogClean, Settled, LogLayer.Logged,
           Reservation.Reserved, Reservation.Step, Reservation.Outstanding;
      HeaderSizes(|cache.disk|);
      Reservation.WriteStep(Params(), Abs(), op, blockno);
      if n >= g.logsize || n >= g.size - 1 {
        return false;
      }
      assert outstanding >= 1;
      ghost var s1 := Reservation.LogWritten(Abs(), op, blockno);
      SettledMore(cache.view, cache.disk, cache.held, Logged(), blockno);
      assert s1.logged == if blockno in Logged() then Logged() else Logged() + [blockno];
      Record(b, blockno);
      ops := s1.ops;
      assert Abs() == s1;
      return true;
    }

    /** Put the block's number in the header, and pin its buffer if it was not there yet. */
    method Record(b: nat, ghost blockno: nat)
      requires cache.Valid() && HeaderOk(|cache.disk|) && cache.pinned == multiset(Logged())
      requires cache.Holds(b, blockno) && !InLog(g, blockno) && n < g.logsize && n < g.size - 1
      modifies this`n, this`block, cache`buf, cache`pinned
      ensures cache.Valid() && HeaderOk(|cache.disk|) && cache.pinned == multiset(Logged())
      ensures cache.Holds(b, blockno) && cache.buf[b].refcnt > 1
      ensures Logged() == if blockno in old(Logged()) then old(Logged()) else old(Logged()) + [blockno]
    {
      hide Bcache.Valid, HomeBlocks, GeometryOk;
      CacheSizes(cache);
      var i := FindLogged(cache.buf[b].blockno);
      ghost var before := Logged();
      if i == n {
        HeaderAppend(|cache.disk|, blockno);
      }
      block := block[i := cache.buf[b].blockno];
      if i == n {
        cache.Bpin(b, blockno);
        n := n + 1;
        assert Logged() == before + [blockno];
      } else {
        assert Logged() == before;
      }
      PinnedReferences(cache, b, blockno);
    }

    /** Where the header names the block already, for absorption; its length if it does not. */
    method FindLogged(blockno: nat) returns (i: nat)
      requires n <= |block|
      ensures i <= n && (i < n ==> block[i] == blockno) && (i == n <==> blockno !in Logged())
    {
      i := 0;
      while i < n
        invariant 0 <= i <= n && forall j :: 0 <= j < i ==> block[j] != blockno
      {
        if block[i] == blockno {
          assert Logged()[i] == blockno;
          return;
        }
        i := i + 1;
      }
    }

    /** Leave the transaction; the last call out commits it. A commit is atomic at every block
        write, and a finished one leaves on disk exactly what the calls last wrote. False is the
        "no buffers" panic; the "log.committing" panic cannot happen. */
    method EndOp(ghost op: nat) returns (ok: bool)
      requires Valid() && op < |ops| && ops[op].Live?
      requires outstanding == 1 ==>
                 && Aside(cache.held, cache.waiting, g, Logged())
                 && Settled(cache.view, cache.disk, {}, Logged())
      modifies this, cache
      ensures old(outstanding) > 1 ==>
                && ok && Valid() && unchanged(cache)
                && Reservation.Step(Params(), old(Abs()), Reservation.End(op)) == Some(Abs())
      ensures old(outstanding) == 1 ==>
                && CommitTrace(old(cache.history), cache.history, old(cache.disk), g, old(Logged()), Values(old(cache.view), old(Logged())))
                && Atomic(cache.history, |old(cache.history)|, |old(cache.history)| + |old(Logged())|, old(cache.disk), old(cache.view), g)
      ensures old(outstanding) == 1 ==>
                (ok <==> old(Logged()) == [] || !Full(old(cache.held), multiset(old(Logged())), old(cache.waiting), cache.nbuf))
      ensures old(outstanding) == 1 && ok ==>
                && Valid() && cache.disk == cache.view && SameHome(cache.disk, old(cache.view), g)
                && cache.held == old(cache.held) && cache.waiting == old(cache.waiting)
                && Abs() == Reservation.LogState([], old(ops)[op := Reservation.Done], false)
    {
      hide Bcache.Valid, LogLayer.HeaderOk, LogOk, Head, LogClean, Settled, CommitTrace, CommitDisk, Atomic, SameHome, HomeBlocks,
           Values, LogLayer.Logged, GeometryOk, InLog, Aside, Full, Reservation.Reserved, Reservation.Step, Reservation.Outstanding;
      Reservation.EndStep(Params(), Abs(), op);
      outstanding := outstanding - 1;
      assert !committing;
      ops := ops[op := Reservation.Done];
      if outstanding > 0 {
        return true;
      }
      committing := true;
      ok := CommitAll();
      if ok {
        committing := false;
      }
    }

    /** A commit seen from outside: the disk recovers to the state before or after at every moment, and
        then holds the state after. */
    method CommitAll() returns (ok: bool)
      requires cache.Valid() && HeaderOk(|cache.disk|) && cache.pinned == multiset(Logged())
      requires Aside(cache.held, cache.waiting, g, Logged())
      requires LogOk(cache.disk, g) && Head(cache.disk, g) == [] && LogClean(cache.view, cache.disk, g)
      requires Settled(cache.view, cache.disk, {}, Logged())
      modifies this`n, cache
      ensures CommitTrace(old(cache.history), cache.history, old(cache.disk), g, old(Logged()), Values(old(cache.view), old(Logged())))
      ensures Atomic(cache.history, |old(cache.history)|, |old(cache.history)| + |old(Logged())|, old(cache.disk), old(cache.view), g)
      ensures ok <==> old(Logged()) == [] || !Full(old(cache.held), multiset(old(Logged())), old(cache.waiting), cache.nbuf)
      ensures ok ==>
                && cache.Valid() && HeaderOk(|cache.disk|) && Logged() == [] && cache.pinned == multiset{}
                && cache.held == old(cache.held) && cache.waiting == old(cache.waiting)
                && LogOk(cache.disk, g) && Head(cache.disk, g) == [] && LogClean(cache.view, cache.disk, g)
                && cache.disk == cache.view && SameHome(cache.disk, old(cache.view), g) && Settled(cache.view, cache.disk, cache.held, Logged())
    {
      hide Bcache.Valid, LogLayer.HeaderOk, LogOk, Head, LogClean, Settled, CommitTrace, CommitDisk, Atomic, SameHome, HomeBlocks,
           Values, LogLayer.Logged, GeometryOk, InLog, Aside, Full;
      HeaderSizes(|cache.disk|);
      HeaderGeometry(|cache.disk|);
      CacheSizes(cache);
      ghost var d0, v0, h0, bs := cache.disk, cache.view, cache.history, Logged();
      ok := Commit();
      CommitTraceAtomic(h0, cache.history, d0, v0, g, bs);
      if ok {
        CommitSettles(v0, d0, cache.view, cache.disk, g, bs);
        SettledEqual(cache.view, cache.disk, cache.held, g);
        HeaderSizes(|cache.disk|);
      }
    }

    /** Boot: recover, after which the log is ready for system calls. Recovery that is itself cut
        short leaves a disk that recovers to the same file system. */
    method InitLog() returns (ok: bool)
      requires cache.Valid() && cache.held == {} && cache.waiting == multiset{} && cache.pinned == multiset{} && cache.view == cache.disk
      requires LogOk(cache.disk, g) && |block| == g.logsize
      requires ops == [] && outstanding == 0 && !committing
      modifies this`n, this`block, cache
      ensures RecoverTrace(old(cache.history), cache.history, old(cache.disk), g)
      ensures Atomic(cache.history, |old(cache.history)|, |old(cache.history)|, old(cache.disk), Recovered(old(cache.disk), g), g)
      ensures ok <==> cache.nbuf >= if Head(old(cache.disk), g) == [] then 1 else 2
      ensures ok ==> Valid() && Abs() == Reservation.Initial() && cache.disk == Recovered(old(cache.disk), g)
    {
      hide Bcache.Valid, LogLayer.HeaderOk, LogOk, Head, LogClean, Settled, RecoverTrace, Recovered, RecoverDisk, Atomic, SameHome, HomeBlocks;
      ghost var d0, h0 := cache.disk, cache.history;
      ok := RecoverFromLog();
      RecoverTraceAtomic(h0, cache.history, d0, g);
      if ok {
        RecoveredEmpty(d0, g);
        SettledEqual(cache.view, cache.disk, cache.held, g);
        HeaderSizes(|cache.disk|);
        assert Logged() == [];
      }
    }

    /** A system call takes a block's buffer, sleeps because another has it, or meets bget's panic. */
    method Take(blockno: nat) returns (r: Fetch)
      requires Valid() && blockno < |cache.disk|
      modifies cache`buf, cache`index, cache`held, cache`waiting
      ensures Valid()
      ensures r.Got? ==> cache.Holds(r.b, blockno) && cache.held == old(cache.held) + {blockno} && cache.waiting == old(cache.waiting)
      ensures r.Asleep? <==> blockno in old(cache.held)
      ensures r.NoBuffers? <==> NoBuffer(old(cache.held), multiset(Logged()), old(cache.waiting), cache.nbuf, blockno)
    {
      hide Bcache.Valid, LogLayer.HeaderOk, LogLayer.Logged, LogOk, Head, LogClean, Settled, Reservation.Reserved, Free, NoBuffer;
      CacheSizes(cache);
      SettledHeld(cache.view, cache.disk, cache.held, Logged(), blockno, cache.view[blockno]);
      r := cache.Bread(blockno);
    }

    /** Its holder changes a home block. */
    method Change(b: nat, ghost blockno: nat, data: Block)
      requires Valid() && cache.Holds(b, blockno) && !InLog(g, blockno)
      modifies cache`buf, cache`view
      ensures Valid() && cache.Holds(b, blockno) && cache.view == old(cache.view)[blockno := data]
    {
      hide Bcache.Valid, LogLayer.HeaderOk, LogLayer.Logged, LogOk, Head, LogClean, Settled, Reservation.Reserved;
      CacheSizes(cache);
      SettledHeld(cache.view, cache.disk, cache.held, Logged(), blockno, data);
      LogCleanChange(cache.view, cache.disk, g, blockno, data);
      cache.SetData(b, blockno, data);
    }

    /** Its holder lets go of a block that is logged or unchanged. */
    method Release(b: nat, ghost blockno: nat)
      requires Valid() && cache.Holds(b, blockno)
      requires blockno in Logged() || cache.view[blockno] == cache.disk[blockno]
      modifies cache`buf, cache`held, cache`prev, cache`next, cache`order, cache`stamp, cache`clock
      ensures Valid() && cache.held == old(cache.held) - {blockno}
    {
      hide Bcache.Valid, LogLayer.HeaderOk, LogLayer.Logged, LogOk, Head, LogClean, Settled, Reservation.Reserved, MoveToFront;
      SettledHeld(cache.view, cache.disk, cache.held, Logged(), blockno, cache.view[blockno]);
      if blockno in Logged() {
        PinnedReferences(cache, b, blockno);
      }
      cache.Brelse(b, blockno);
    }

    /** The usual sequence: read a block, change it, log it, release it. */
    method Update(blockno: nat, data: Block, ghost op: nat) returns (ok: bool)
      requires Valid() && blockno < |cache.disk| && !InLog(g, blockno)
      requires op < |ops| && ops[op].Live? && (blockno in Logged() || ops[op].unspent > 0)
      modifies this`n, this`block, this`ops, cache
      ensures ok <==>
                && blockno !in old(cache.held) && !NoBuffer(old(cache.held), old(multiset(Logged())), old(cache.waiting), cache.nbuf, blockno)
                && !Reservation.TooBig(Params(), old(Abs()))
      ensures ok ==>
                && Valid() && cache.held == old(cache.held)
                && cache.view == old(cache.view)[blockno := data] && cache.disk == old(cache.disk)
                && Reservation.Step(Params(), old(Abs()), Reservation.Write(op, blockno)) == Some(Abs())
    {
      hide LogLayer.Valid, LogLayer.Logged, InLog, Bcache.Holds, NoBuffer;
      var r := Take(blockno);
      if !r.Got? {
        return false;
      }
      Change(r.b, blockno, data);
      ok := LogWrite(r.b, blockno, op);
      if !ok {
        return;
      }
      Release(r.b, blockno);
    }
  }
}
