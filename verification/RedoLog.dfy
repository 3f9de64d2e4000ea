// The on-disk redo log: what each block write of a commit or of recovery leaves on the disk, and
// what a recovery would then make of it.
module RedoLog {
  import opened Blocks

  type Disk = seq<Block>

  /** log.start, log.size and LOGSIZE. */
  datatype Geometry = Geometry(start: nat, size: nat, logsize: nat)

  predicate GeometryOk(g: Geometry, nblocks: nat) {
    && g.start + g.size <= nblocks <= 0x1_0000_0000
    && 1 <= g.size
    && g.logsize + 1 < WORDS  // the header fits in its block
  }

  predicate InLog(g: Geometry, b: nat) {
    g.start <= b < g.start + g.size
  }

  /** Block numbers a header may name: distinct home blocks, no more than the log holds. */
  ghost predicate HomeBlocks(bs: seq<nat>, g: Geometry, nblocks: nat) {
    && |bs| <= g.logsize && |bs| <= g.size - 1
    && (forall i :: 0 <= i < |bs| ==> bs[i] < nblocks && !InLog(g, bs[i]))
    && (forall i, j :: 0 <= i < j < |bs| ==> bs[i] != bs[j])
  }

  lemma HomeBlocksFit(bs: seq<nat>, g: Geometry, nblocks: nat)
    requires HomeBlocks(bs, g, nblocks)
    ensures |bs| < g.size && |bs| <= g.logsize && forall i :: 0 <= i < |bs| ==> bs[i] < nblocks
  {
  }

  // ---- The header block -----------------------------------------------------------------------

  function Entries(h: Block, n: nat): (bs: seq<nat>)
    requires n < WORDS
  {
    seq(n, i requires 0 <= i < n => Word(h, i + 1))
  }

  /** The header after the count and the first k entries have been stored. */
  function WithEntries(h: Block, bs: seq<nat>, k: nat): (r: Block)
    requires k <= |bs| < WORDS && forall i :: 0 <= i < |bs| ==> bs[i] < 0x1_0000_0000
  {
    if k == 0 then WithWord(h, 0, |bs|) else WithWord(WithEntries(h, bs, k-1), k, bs[k-1])
  }

  lemma {:induction false} WordOfWithEntries(h: Block, bs: seq<nat>, k: nat, j: nat)
    requires k <= |bs| < WORDS && forall i :: 0 <= i < |bs| ==> bs[i] < 0x1_0000_0000
    requires j < WORDS
    ensures Word(WithEntries(h, bs, k), j) == if j == 0 then |bs| else if j <= k then bs[j-1] else Word(h, j)
  {
    hide Word, WithWord;
    if k == 0 {
      WordOfWithWord(h, 0, |bs|, j);
    } else {
      WordOfWithEntries(h, bs, k-1, j);
      WordOfWithWord(WithEntries(h, bs, k-1), k, bs[k-1], j);
    }
  }

  function WithHead(h: Block, bs: seq<nat>): (r: Block)
    requires |bs| < WORDS && forall i :: 0 <= i < |bs| ==> bs[i] < 0x1_0000_0000
  {
    WithEntries(h, bs, |bs|)
  }

  /** A header written by write_head is read back by read_head. */
  lemma HeadRoundTrip(h: Block, bs: seq<nat>)
    requires |bs| < WORDS && forall i :: 0 <= i < |bs| ==> bs[i] < 0x1_0000_0000
    ensures Word(WithHead(h, bs), 0) == |bs| && forall i :: 0 <= i < |bs| ==> Word(WithHead(h, bs), i + 1) == bs[i]
    ensures Entries(WithHead(h, bs), |bs|) == bs
  {
    hide Word;
    WordOfWithEntries(h, bs, |bs|, 0);
    forall i | 0 <= i < |bs|
      ensures Word(WithHead(h, bs), i + 1) == bs[i]
    {
      WordOfWithEntries(h, bs, |bs|, i + 1);
    }
  }

  ghost predicate LogOk(d: Disk, g: Geometry) {
    && GeometryOk(g, |d|)
    && Word(d[g.start], 0) <= g.logsize
    && HomeBlocks(Entries(d[g.start], Word(d[g.start], 0)), g, |d|)
  }

  /** The block numbers of the transaction in the on-disk log; empty if there is none. */
  ghost function Head(d: Disk, g: Geometry): seq<nat>
    requires LogOk(d, g)
  {
    Entries(d[g.start], Word(d[g.start], 0))
  }

  ghost function SetHead(d: Disk, g: Geometry, bs: seq<nat>): Disk
    requires GeometryOk(g, |d|) && HomeBlocks(bs, g, |d|)
  {
    d[g.start := WithHead(d[g.start], bs)]
  }

  lemma SetHeadOk(d: Disk, g: Geometry, bs: seq<nat>)
    requires GeometryOk(g, |d|) && HomeBlocks(bs, g, |d|)
    ensures LogOk(SetHead(d, g, bs), g) && Head(SetHead(d, g, bs), g) == bs
  {
    HeadRoundTrip(d[g.start], bs);
  }

  // ---- Block writes ---------------------------------------------------------------------------

  /** After k blocks of write_log. */
  ghost function LogWritten(d: Disk, g: Geometry, cs: seq<Block>, k: nat): (r: Disk)
    requires k <= |cs| && g.start + |cs| < |d|
    ensures |r| == |d|
  {
    if k == 0 then d else LogWritten(d, g, cs, k-1)[g.start + k := cs[k-1]]
  }

  lemma {:induction false} LogWrittenAt(d: Disk, g: Geometry, cs: seq<Block>, k: nat, b: nat)
    requires k <= |cs| && g.start + |cs| < |d| && b < |d|
    ensures LogWritten(d, g, cs, k)[b] == if g.start < b <= g.start + k then cs[b - g.start - 1] else d[b]
  {
    if k > 0 {
      LogWrittenAt(d, g, cs, k-1, b);
    }
  }

  /** After k blocks of install_trans. */
  ghost function Installed(d: Disk, g: Geometry, bs: seq<nat>, k: nat): (r: Disk)
    requires k <= |bs| && GeometryOk(g, |d|) && HomeBlocks(bs, g, |d|)
    ensures |r| == |d|
  {
    if k == 0 then d else
      var before := Installed(d, g, bs, k-1);
      before[bs[k-1] := before[g.start + k]]
  }

  lemma {:induction false} InstalledAt(d: Disk, g: Geometry, bs: seq<nat>, k: nat, b: nat)
    requires k <= |bs| && GeometryOk(g, |d|) && HomeBlocks(bs, g, |d|) && b < |d|
    ensures b !in bs[..k] ==> Installed(d, g, bs, k)[b] == d[b]
    ensures forall i :: 0 <= i < k && bs[i] == b ==> Installed(d, g, bs, k)[b] == d[g.start + 1 + i]
  {
    if k > 0 {
      var before := Installed(d, g, bs, k-1);
      InstalledAt(d, g, bs, k-1, b);
      InstalledAt(d, g, bs, k-1, g.start + k);
      assert Installed(d, g, bs, k) == before[bs[k-1] := before[g.start + k]];
      hide Installed;
      if b != bs[k-1] {
        assert b !in bs[..k] ==> b !in bs[..k-1];
      } else {
        assert g.start + k !in bs[..k-1];
        assert bs[..k][k-1] == b;
      }
    }
  }

  /** What a group of updates does to the disk contents. */
  ghost function Apply(d: Disk, bs: seq<nat>, cs: seq<Block>): (r: Disk)
    requires |bs| == |cs| && forall i :: 0 <= i < |bs| ==> bs[i] < |d|
    ensures |r| == |d|
  {
    if bs == [] then d
    else Apply(d, bs[..|bs|-1], cs[..|cs|-1])[bs[|bs|-1] := cs[|cs|-1]]
  }

  lemma {:induction false} ApplyAt(d: Disk, bs: seq<nat>, cs: seq<Block>, b: nat)
    requires |bs| == |cs| && forall i :: 0 <= i < |bs| ==> bs[i] < |d|
    requires forall i, j :: 0 <= i < j < |bs| ==> bs[i] != bs[j]
    requires b < |d|
    ensures b !in bs ==> Apply(d, bs, cs)[b] == d[b]
    ensures forall i :: 0 <= i < |bs| && bs[i] == b ==> Apply(d, bs, cs)[b] == cs[i]
  {
    if bs != [] {
      var n := |bs| - 1;
      ApplyAt(d, bs[..n], cs[..n], b);
      assert bs == bs[..n] + [bs[n]];
      forall i | 0 <= i < |bs| && bs[i] == b
        ensures Apply(d, bs, cs)[b] == cs[i]
      {
        if i < n {
          assert bs[..n][i] == b && cs[..n][i] == cs[i];
        }
      }
    }
  }

  /** After the header that makes the group permanent. */
  ghost function Sealed(d: Disk, g: Geometry, bs: seq<nat>, cs: seq<Block>): (r: Disk)
    requires GeometryOk(g, |d|) && HomeBlocks(bs, g, |d|) && |cs| == |bs|
    ensures |r| == |d|
  {
    SetHead(LogWritten(d, g, cs, |bs|), g, bs)
  }

  /** The disk after k of the block writes of a commit: the log blocks, the header, the home
      blocks, the cleared header. */
  ghost function CommitDisk(d: Disk, g: Geometry, bs: seq<nat>, cs: seq<Block>, k: nat): (r: Disk)
    requires GeometryOk(g, |d|) && HomeBlocks(bs, g, |d|) && |cs| == |bs|
    requires k <= CommitWrites(|bs|)
    ensures |r| == |d|
  {
    var n := |bs|;
    if k <= n then LogWritten(d, g, cs, k)
    else
      var sealed := Sealed(d, g, bs, cs);
      if k <= 2*n + 1 then Installed(sealed, g, bs, k - n - 1)
      else SetHead(Installed(sealed, g, bs, n), g, [])
  }

  /** An empty group writes nothing. */
  function CommitWrites(n: nat): nat {
    if n == 0 then 0 else 2*n + 2
  }

  /** The disk after k of the block writes of recovery: the home blocks, the cleared header. */
  ghost function RecoverDisk(d: Disk, g: Geometry, k: nat): (r: Disk)
    requires LogOk(d, g) && k <= RecoverWrites(d, g)
    ensures |r| == |d|
  {
    var bs := Head(d, g);
    if k <= |bs| then Installed(d, g, bs, k) else SetHead(Installed(d, g, bs, |bs|), g, [])
  }

  ghost function RecoverWrites(d: Disk, g: Geometry): nat
    requires LogOk(d, g)
  {
    |Head(d, g)| + 1
  }

  ghost function Recovered(d: Disk, g: Geometry): (r: Disk)
    requires LogOk(d, g)
    ensures |r| == |d|
  {
    RecoverDisk(d, g, RecoverWrites(d, g))
  }

  /** The file system proper: every block outside the log area. */
  ghost predicate SameHome(d: Disk, e: Disk, g: Geometry) {
    && |d| == |e|
    && (forall b :: 0 <= b < |d| && !InLog(g, b) ==> d[b] == e[b])
  }

  // ---- Crash atomicity ------------------------------------------------------------------------

  lemma RecoveredAt(d: Disk, g: Geometry, b: nat)
    requires LogOk(d, g) && b < |d| && !InLog(g, b)
    ensures b !in Head(d, g) ==> Recovered(d, g)[b] == d[b]
    ensures forall i :: 0 <= i < |Head(d, g)| && Head(d, g)[i] == b ==> Recovered(d, g)[b] == d[g.start + 1 + i]
  {
    hide Word, Entries, WithHead;
    var bs := Head(d, g);
    assert bs[..|bs|] == bs;
    InstalledAt(d, g, bs, |bs|, b);
  }

  /** A crash after any k block writes of a commit leaves a disk that recovers to the state before
      the group if its header was not yet written, and to the state after the whole group if it was. */
  lemma CommitAtomic(d: Disk, g: Geometry, bs: seq<nat>, cs: seq<Block>, k: nat)
    requires LogOk(d, g) && Head(d, g) == []
    requires HomeBlocks(bs, g, |d|) && |cs| == |bs| && k <= CommitWrites(|bs|)
    ensures LogOk(CommitDisk(d, g, bs, cs, k), g)
    ensures SameHome(Recovered(CommitDisk(d, g, bs, cs, k), g), if k <= |bs| then d else Apply(d, bs, cs), g)
    ensures k == CommitWrites(|bs|) ==>
              Head(CommitDisk(d, g, bs, cs, k), g) == [] && SameHome(CommitDisk(d, g, bs, cs, k), Apply(d, bs, cs), g)
  {
    if k <= |bs| {
      CommitBeforeHeader(d, g, bs, cs, k);
    } else {
      CommitAfterHeader(d, g, bs, cs, k);
    }
  }

  lemma SameHomeTransitive(d: Disk, e: Disk, f: Disk, g: Geometry)
    requires SameHome(d, e, g) && SameHome(e, f, g)
    ensures SameHome(d, f, g)
  {
  }

  lemma CommitAfterHeader(d: Disk, g: Geometry, bs: seq<nat>, cs: seq<Block>, k: nat)
    requires GeometryOk(g, |d|) && HomeBlocks(bs, g, |d|) && |cs| == |bs| < k <= CommitWrites(|bs|)
    ensures LogOk(CommitDisk(d, g, bs, cs, k), g)
    ensures SameHome(Recovered(CommitDisk(d, g, bs, cs, k), g), Apply(d, bs, cs), g)
    ensures k == CommitWrites(|bs|) ==>
              Head(CommitDisk(d, g, bs, cs, k), g) == [] && SameHome(CommitDisk(d, g, bs, cs, k), Apply(d, bs, cs), g)
  {
    hide LogOk, Head, Recovered, LogHolds, Apply, HomeBlocks, Sealed, RecoverDisk, CommitDisk, SameHome;
    HomeBlocksFit(bs, g, |d|);
    CommitIsRecovery(d, g, bs, cs, k);
    var sealed := Sealed(d, g, bs, cs);
    SealedLog(d, g, bs, cs);
    RecoveredSealed(d, g, bs, cs, sealed);
    var j := k - |bs| - 1;
    RecoverAtomic(sealed, g, j);
    var e := RecoverDisk(sealed, g, j);
    assert e == CommitDisk(d, g, bs, cs, k);
    SameHomeTransitive(Recovered(e, g), Recovered(sealed, g), Apply(d, bs, cs), g);
    if k == CommitWrites(|bs|) {
      assert j == RecoverWrites(sealed, g);
      SameHomeTransitive(e, Recovered(sealed, g), Apply(d, bs, cs), g);
    }
  }

  lemma CommitBeforeHeader(d: Disk, g: Geometry, bs: seq<nat>, cs: seq<Block>, k: nat)
    requires LogOk(d, g) && Head(d, g) == []
    requires HomeBlocks(bs, g, |d|) && |cs| == |bs| && k <= |bs|
    ensures LogOk(LogWritten(d, g, cs, k), g) && Head(LogWritten(d, g, cs, k), g) == []
    ensures SameHome(LogWritten(d, g, cs, k), d, g)
    ensures SameHome(Recovered(LogWritten(d, g, cs, k), g), d, g)
  {
    var e := LogWritten(d, g, cs, k);
    LogWrittenAt(d, g, cs, k, g.start);
    assert e[g.start] == d[g.start];
    forall b | 0 <= b < |d| && !InLog(g, b)
      ensures e[b] == d[b] && Recovered(e, g)[b] == d[b]
    {
      LogWrittenAt(d, g, cs, k, b);
      RecoveredAt(e, g, b);
    }
  }

  /** The log area holds `cs`, one block per entry. */
  ghost predicate LogHolds(d: Disk, g: Geometry, cs: seq<Block>) {
    && g.start + |cs| < |d|
    && (forall b :: g.start < b <= g.start + |cs| ==> d[b] == cs[b - g.start - 1])
  }

  lemma LogWrittenHolds(d: Disk, g: Geometry, cs: seq<Block>)
    requires g.start + |cs| < |d| && |cs| < g.size
    ensures LogHolds(LogWritten(d, g, cs, |cs|), g, cs) && SameHome(LogWritten(d, g, cs, |cs|), d, g)
  {
    forall b | 0 <= b < |d|
      ensures LogWritten(d, g, cs, |cs|)[b] == if g.start < b <= g.start + |cs| then cs[b - g.start - 1] else d[b]
    {
      LogWrittenAt(d, g, cs, |cs|, b);
    }
  }

  /** Once the header is written the log holds the group's blocks. */
  lemma SealedLog(d: Disk, g: Geometry, bs: seq<nat>, cs: seq<Block>)
    requires GeometryOk(g, |d|) && HomeBlocks(bs, g, |d|) && |cs| == |bs|
    ensures LogOk(Sealed(d, g, bs, cs), g) && Head(Sealed(d, g, bs, cs), g) == bs
    ensures LogHolds(Sealed(d, g, bs, cs), g, cs) && SameHome(Sealed(d, g, bs, cs), d, g)
  {
    hide LogOk, Head, WithHead, LogWritten, HomeBlocks;
    HomeBlocksFit(bs, g, |d|);
    LogWrittenHolds(d, g, cs);
    SetHeadOk(LogWritten(d, g, cs, |bs|), g, bs);
  }

  /** Recovering a sealed group applies it. */
  lemma RecoveredSealed(d: Disk, g: Geometry, bs: seq<nat>, cs: seq<Block>, sealed: Disk)
    requires HomeBlocks(bs, g, |d|) && |cs| == |bs|
    requires LogOk(sealed, g) && Head(sealed, g) == bs && SameHome(sealed, d, g)
    requires LogHolds(sealed, g, cs)
    ensures SameHome(Recovered(sealed, g), Apply(d, bs, cs), g)
  {
    hide LogOk, Head, Recovered, LogHolds, Apply;
    forall b | 0 <= b < |d| && !InLog(g, b)
      ensures Recovered(sealed, g)[b] == Apply(d, bs, cs)[b]
    {
      RecoveredSealedAt(d, g, bs, cs, sealed, b);
    }
  }

  lemma RecoveredSealedAt(d: Disk, g: Geometry, bs: seq<nat>, cs: seq<Block>, sealed: Disk, b: nat)
    requires HomeBlocks(bs, g, |d|) && |cs| == |bs|
    requires LogOk(sealed, g) && Head(sealed, g) == bs && SameHome(sealed, d, g)
    requires LogHolds(sealed, g, cs)
    requires b < |d| && !InLog(g, b)
    ensures Recovered(sealed, g)[b] == Apply(d, bs, cs)[b]
  {
    hide LogOk, Head, Recovered, Apply;
    RecoveredAt(sealed, g, b);
    ApplyAt(d, bs, cs, b);
    if b in bs {
      var i :| 0 <= i < |bs| && bs[i] == b;
      assert sealed[g.start + 1 + i] == cs[i];
    }
  }

  /** The second half of a commit does what recovery would. */
  lemma CommitIsRecovery(d: Disk, g: Geometry, bs: seq<nat>, cs: seq<Block>, k: nat)
    requires GeometryOk(g, |d|) && HomeBlocks(bs, g, |d|) && |cs| == |bs|
    requires |bs| < k <= CommitWrites(|bs|)
    ensures LogOk(Sealed(d, g, bs, cs), g) && RecoverWrites(Sealed(d, g, bs, cs), g) == |bs| + 1
    ensures CommitDisk(d, g, bs, cs, k) == RecoverDisk(Sealed(d, g, bs, cs), g, k - |bs| - 1)
  {
    SealedLog(d, g, bs, cs);
  }

  /** A crash after any k block writes of recovery changes nothing about what recovery will make of
      the disk; a finished recovery leaves the log empty. */
  lemma RecoverAtomic(d: Disk, g: Geometry, k: nat)
    requires LogOk(d, g) && k <= RecoverWrites(d, g)
    ensures LogOk(RecoverDisk(d, g, k), g)
    ensures SameHome(Recovered(RecoverDisk(d, g, k), g), Recovered(d, g), g)
    ensures k == RecoverWrites(d, g) ==>
              Head(RecoverDisk(d, g, k), g) == [] && SameHome(RecoverDisk(d, g, k), Recovered(d, g), g)
  {
    var bs := Head(d, g);
    var e := RecoverDisk(d, g, k);
    if k <= |bs| {
      assert g.start !in bs[..k];
      InstalledAt(d, g, bs, k, g.start);
      assert e[g.start] == d[g.start] && Head(e, g) == bs;
      forall b | 0 <= b < |d| && !InLog(g, b)
        ensures Recovered(e, g)[b] == Recovered(d, g)[b]
      {
        RecoverInstalledAt(d, e, g, bs, k, b);
      }
    } else {
      SetHeadOk(Installed(d, g, bs, |bs|), g, []);
      forall b | 0 <= b < |d| && !InLog(g, b)
        ensures Recovered(e, g)[b] == e[b]
      {
        RecoveredAt(e, g, b);
      }
    }
  }

  lemma LogOkSizes(d: Disk, g: Geometry)
    requires LogOk(d, g)
    ensures GeometryOk(g, |d|) && HomeBlocks(Head(d, g), g, |d|)
  {
  }

  lemma RecoverInstalledAt(d: Disk, e: Disk, g: Geometry, bs: seq<nat>, k: nat, b: nat)
    requires LogOk(d, g) && bs == Head(d, g) && k <= |bs| && b < |d| && !InLog(g, b)
    requires e == Installed(d, g, bs, k) && LogOk(e, g) && Head(e, g) == bs
    ensures Recovered(e, g)[b] == Recovered(d, g)[b]
  {
    hide Recovered, Installed;
    LogOkSizes(d, g);
    hide LogOk, Head;
    RecoveredAt(d, g, b);
    RecoveredAt(e, g, b);
    InstalledAt(d, g, bs, k, b);
    if b in bs {
      var i :| 0 <= i < |bs| && bs[i] == b;
      assert g.start + 1 + i !in bs[..k];
      InstalledAt(d, g, bs, k, g.start + 1 + i);
    }
  }

  // ---- Whole runs -----------------------------------------------------------------------------

  /** A commit or a boot that stops after some of its block writes, or a power loss in between. */
  datatype Event =
    | Commit(bs: seq<nat>, cs: seq<Block>, writes: nat)
    | Boot(writes: nat)
    | PowerLoss

  datatype Machine = Machine(disk: Disk, up: bool)

  ghost predicate MachineOk(m: Machine, g: Geometry) {
    LogOk(m.disk, g) && (m.up ==> Head(m.disk, g) == [])
  }

  /** Commits happen on a machine that is up; a machine that is down boots, and boots again if
      the boot itself is cut short. */
  ghost predicate Possible(m: Machine, g: Geometry, e: Event)
    requires MachineOk(m, g)
  {
    match e
    case Commit(bs, cs, writes) =>
      m.up && HomeBlocks(bs, g, |m.disk|) && |cs| == |bs| && writes <= CommitWrites(|bs|)
    case Boot(writes) => !m.up && writes <= RecoverWrites(m.disk, g)
    case PowerLoss => true
  }

  ghost function After(m: Machine, g: Geometry, e: Event): (r: Machine)
    requires MachineOk(m, g) && Possible(m, g, e)
  {
    match e
    case Commit(bs, cs, writes) =>
      Machine(CommitDisk(m.disk, g, bs, cs, writes), writes == CommitWrites(|bs|))
    case Boot(writes) =>
      Machine(RecoverDisk(m.disk, g, writes), writes == RecoverWrites(m.disk, g))
    case PowerLoss => Machine(m.disk, false)
  }

  lemma AfterOk(m: Machine, g: Geometry, e: Event)
    requires MachineOk(m, g) && Possible(m, g, e)
    ensures MachineOk(After(m, g, e), g)
    ensures SameHome(Recovered(After(m, g, e).disk, g), ReplayOne(Recovered(m.disk, g), e), g)
  {
    match e
    case Commit(bs, cs, writes) =>
      CommitAtomic(m.disk, g, bs, cs, writes);
      EmptyLogRecovers(m.disk, g);
      if writes > |bs| {
        ApplySameHome(m.disk, Recovered(m.disk, g), g, bs, cs);
      }
    case Boot(writes) =>
      RecoverAtomic(m.disk, g, writes);
    case PowerLoss =>
  }

  lemma EmptyLogRecovers(d: Disk, g: Geometry)
    requires LogOk(d, g) && Head(d, g) == []
    ensures SameHome(Recovered(d, g), d, g)
  {
    forall b | 0 <= b < |d| && !InLog(g, b)
      ensures Recovered(d, g)[b] == d[b]
    {
      RecoveredAt(d, g, b);
    }
  }

  lemma ApplySameHome(d: Disk, e: Disk, g: Geometry, bs: seq<nat>, cs: seq<Block>)
    requires SameHome(d, e, g) && |bs| == |cs| && HomeBlocks(bs, g, |d|)
    ensures SameHome(Apply(d, bs, cs), Apply(e, bs, cs), g)
  {
    forall b | 0 <= b < |d| && !InLog(g, b)
      ensures Apply(d, bs, cs)[b] == Apply(e, bs, cs)[b]
    {
      ApplyAt(d, bs, cs, b);
      ApplyAt(e, bs, cs, b);
    }
  }

  /** A group counts as committed once its header is on the disk. */
  ghost function ReplayOne(d: Disk, e: Event): (r: Disk)
    ensures |r| == |d|
  {
    if e.Commit? && |e.cs| == |e.bs| < e.writes && (forall i :: 0 <= i < |e.bs| ==> e.bs[i] < |d|)
    then Apply(d, e.bs, e.cs) else d
  }

  /** The committed groups of a run applied, whole and in order. */
  ghost function Replay(d: Disk, run: seq<Event>): (r: Disk)
    ensures |r| == |d|
  {
    if run == [] then d else ReplayOne(Replay(d, run[..|run|-1]), run[|run|-1])
  }

  /** `ms` are the states a run goes through. */
  ghost predicate IsRun(ms: seq<Machine>, run: seq<Event>, g: Geometry) {
    && |ms| == |run| + 1
    && MachineOk(ms[0], g)
    && (forall i {:trigger run[i]} :: 0 <= i < |run| ==>
          MachineOk(ms[i], g) && Possible(ms[i], g, run[i]) && ms[i+1] == After(ms[i], g, run[i]))
  }

  /** Crash atomicity. However a run is cut by crashes, during commits, during recovery, or during
      the recovery from those, the file system that recovery yields is the initial one with exactly
      the committed groups applied; and a machine that is up has that on its home blocks already. */
  lemma {:induction false} CrashAtomicity(ms: seq<Machine>, run: seq<Event>, g: Geometry)
    requires IsRun(ms, run, g)
    ensures MachineOk(ms[|run|], g)
    ensures SameHome(Recovered(ms[|run|].disk, g), Replay(Recovered(ms[0].disk, g), run), g)
    ensures ms[|run|].up ==> SameHome(ms[|run|].disk, Replay(Recovered(ms[0].disk, g), run), g)
  {
    hide LogOk, Recovered, After, Head, HomeBlocks;
    var n := |run|;
    if n > 0 {
      var e := run[n-1];
      assert IsRun(ms[..n], run[..n-1], g) by { IsRunPrefix(ms, run, g); }
      CrashAtomicity(ms[..n], run[..n-1], g);
      AfterOk(ms[n-1], g, e);
      assert ms[n] == After(ms[n-1], g, e);
      ReplayOneSameHome(Recovered(ms[n-1].disk, g), Replay(Recovered(ms[0].disk, g), run[..n-1]), g, ms[n-1], e);
    }
    if ms[n].up {
      EmptyLogRecovers(ms[n].disk, g);
    }
  }

  lemma IsRunPrefix(ms: seq<Machine>, run: seq<Event>, g: Geometry)
    requires IsRun(ms, run, g) && run != []
    ensures IsRun(ms[..|run|], run[..|run|-1], g)
  {
    var ms', run' := ms[..|run|], run[..|run|-1];
    assert ms'[0] == ms[0];
    forall i | 0 <= i < |run'|
      ensures MachineOk(ms'[i], g) && Possible(ms'[i], g, run'[i]) && ms'[i+1] == After(ms'[i], g, run'[i])
    {
      assert run'[i] == run[i] && ms'[i] == ms[i] && ms'[i+1] == ms[i+1];
    }
  }

  lemma ReplayOneSameHome(d: Disk, e: Disk, g: Geometry, m: Machine, ev: Event)
    requires SameHome(d, e, g) && |m.disk| == |d|
    requires MachineOk(m, g) && Possible(m, g, ev)
    ensures SameHome(ReplayOne(d, ev), ReplayOne(e, ev), g)
  {
    if ev.Commit? {
      ApplySameHome(d, e, g, ev.bs, ev.cs);
    }
  }
}
