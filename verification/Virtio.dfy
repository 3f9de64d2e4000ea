// The virtio disk driver and the device it shares its rings with. Driver methods are what happens
// from taking vdisk_lock to giving it up; device methods are single steps, which the device takes in
// any order it likes.
module Virtio {
  import opened Options
  import opened Blocks
  import opened Counting
  import Modulo

  const IDXWRAP: nat := 0x1_0000   // ring indices are 16 bits wide
  const REQSIZE: nat := 16
  const BLK_IN: nat := 0           // request types: read the disk
  const BLK_OUT: nat := 1          // write the disk

  datatype Target = Nowhere | Request(i: nat) | Data(buf: nat) | Status(i: nat)
  datatype Desc = Desc(addr: Target, len: nat, hasNext: bool, deviceWrites: bool, next: nat)
  datatype Req = Req(kind: nat, sector: nat)
  datatype Info = Info(b: Option<nat>, status: nat)

  const BLANK := Desc(Nowhere, 0, false, false, 0)

  // Ghost view: who a descriptor belongs to, and the requests in flight by head descriptor.
  datatype Role = Free | Held | Member(head: nat, pos: nat)
  datatype Phase = Posted | AtDevice | Used | Released
  datatype Chain = Chain(d1: nat, d2: nat, buf: nat, write: bool, blockno: nat, phase: Phase)

  type Chains = map<nat, Chain>

  /** What the device may do on its own. */
  datatype DeviceStep = Fetch | Report(h: nat)

  function MemberAt(h: nat, c: Chain, pos: nat): nat {
    if pos == 0 then h else if pos == 1 then c.d1 else c.d2
  }

  /** Each descriptor is free, held by a driver turn in progress, or in exactly one chain of three. */
  ghost predicate RolesOk(free: seq<bool>, role: seq<Role>, chains: Chains, n: nat) {
    && |free| == n == |role|
    && (forall i :: 0 <= i < n ==> (free[i] <==> role[i].Free?))
    && (forall i :: 0 <= i < n && role[i].Member? ==>
          role[i].head in chains && role[i].pos < 3 && MemberAt(role[i].head, chains[role[i].head], role[i].pos) == i)
    && (forall h :: h in chains ==>
          && h < n && chains[h].d1 < n && chains[h].d2 < n
          && role[h] == Member(h, 0) && role[chains[h].d1] == Member(h, 1) && role[chains[h].d2] == Member(h, 2))
  }

  ghost predicate NoneHeld(role: seq<Role>) {
    forall i :: 0 <= i < |role| ==> !role[i].Held?
  }

  /** The descriptors, command and bookkeeping of a request say what the request is. */
  ghost predicate ChainOk(desc: seq<Desc>, ops: seq<Req>, info: seq<Info>, h: nat, c: Chain)
    requires |desc| == |ops| == |info|
  {
    && h < |desc| && c.d1 < |desc| && c.d2 < |desc|
    && desc[h] == Desc(Request(h), REQSIZE, true, false, c.d1)
    && desc[c.d1] == Desc(Data(c.buf), BSIZE, true, !c.write, c.d2)
    && desc[c.d2] == Desc(Status(h), 1, false, true, 0)
    && ops[h] == Req(if c.write then BLK_OUT else BLK_IN, c.blockno * (BSIZE / 512))
    && info[h] == Info(Some(c.buf), if c.phase.Posted? || c.phase.AtDevice? then 0xff else 0)
  }

  ghost predicate ChainsOk(desc: seq<Desc>, ops: seq<Req>, info: seq<Info>, chains: Chains, n: nat) {
    && |desc| == |ops| == |info| == n
    && (forall h :: h in chains ==> ChainOk(desc, ops, info, h, chains[h]))
  }

  /** `serving` is the request of each buffer; a buffer is busy until its request is released. */
  ghost predicate ServingOk(chains: Chains, serving: map<nat, nat>, busy: set<nat>, mem: map<nat, Block>, nblocks: nat) {
    && (forall h :: h in chains ==>
          && chains[h].buf in serving && serving[chains[h].buf] == h
          && chains[h].buf in mem && chains[h].blockno < nblocks)
    && (forall b :: b in serving ==> serving[b] in chains && chains[serving[b]].buf == b)
    && (forall b :: b in busy <==> b in serving && !chains[serving[b]].phase.Released?)
  }

  predicate Completed(phase: Phase) {
    phase.Used? || phase.Released?
  }

  /** `data` is what the request is to move. Until it is completed it is where it comes from, and from then
      on at both ends. */
  ghost predicate Carried(c: Chain, data: Block, mem: map<nat, Block>, platter: seq<Block>) {
    && c.buf in mem && c.blockno < |platter|
    && (c.write || Completed(c.phase) ==> mem[c.buf] == data)
    && (!c.write || Completed(c.phase) ==> platter[c.blockno] == data)
  }

  /** Requests that have had their block to themselves carry what they are to; `clashed` are the others. */
  ghost predicate TransferOk(chains: Chains, cargo: map<nat, Block>, clashed: set<nat>, mem: map<nat, Block>, platter: seq<Block>) {
    && (forall h :: h in chains && h !in clashed ==> h in cargo && Carried(chains[h], cargo[h], mem, platter))
    && (forall h, k :: h in chains && k in chains && h != k && h !in clashed ==> chains[h].blockno != chains[k].blockno)
  }

  /** The requests for a block. */
  ghost function OnBlock(chains: Chains, blockno: nat): set<nat> {
    set h | h in chains && chains[h].blockno == blockno
  }

  /** The clashes once request h for the block is posted. */
  ghost function Clashes(chains: Chains, clashed: set<nat>, h: nat, blockno: nat): set<nat> {
    if OnBlock(chains, blockno) == {} then clashed - {h} else clashed + OnBlock(chains, blockno) + {h}
  }

  lemma TransferPost(chains: Chains, cargo: map<nat, Block>, clashed: set<nat>, mem: map<nat, Block>, platter: seq<Block>, h: nat, c: Chain)
    requires TransferOk(chains, cargo, clashed, mem, platter) && h !in chains && c.phase == Posted && c.buf in mem && c.blockno < |platter|
    ensures TransferOk(chains[h := c], cargo[h := if c.write then mem[c.buf] else platter[c.blockno]],
                       Clashes(chains, clashed, h, c.blockno), mem, platter)
  {
    var on := OnBlock(chains, c.blockno);
    assert forall k :: k in chains && chains[k].blockno == c.blockno ==> k in on;
    hide Carried;
    assert Carried(c, if c.write then mem[c.buf] else platter[c.blockno], mem, platter) by { PostCarries(c, mem, platter); }
  }

  lemma PostCarries(c: Chain, mem: map<nat, Block>, platter: seq<Block>)
    requires c.phase == Posted && c.buf in mem && c.blockno < |platter|
    ensures Carried(c, if c.write then mem[c.buf] else platter[c.blockno], mem, platter)
  {
  }

  lemma TransferMove(chains: Chains, cargo: map<nat, Block>, clashed: set<nat>, mem: map<nat, Block>, platter: seq<Block>, h: nat, phase: Phase)
    requires TransferOk(chains, cargo, clashed, mem, platter) && h in chains && (Completed(phase) <==> Completed(chains[h].phase))
    ensures TransferOk(Moved(chains, h, phase), cargo, clashed, mem, platter)
  {
  }

  /** The device moves a request's data; whoever has a block to itself is not disturbed. */
  lemma TransferDone(chains: Chains, cargo: map<nat, Block>, clashed: set<nat>, mem: map<nat, Block>, platter: seq<Block>, h: nat,
                     mem2: map<nat, Block>, platter2: seq<Block>)
    requires TransferOk(chains, cargo, clashed, mem, platter) && h in chains && chains[h].buf in mem && chains[h].blockno < |platter|
    requires forall k :: k in chains && k != h ==> chains[k].buf != chains[h].buf
    requires platter2 == if chains[h].write then platter[chains[h].blockno := mem[chains[h].buf]] else platter
    requires mem2 == if chains[h].write then mem else mem[chains[h].buf := platter[chains[h].blockno]]
    requires !Completed(chains[h].phase)
    ensures TransferOk(Moved(chains, h, Used), cargo, clashed, mem2, platter2)
  {
    forall k | k in chains && k !in clashed
      ensures Carried(Moved(chains, h, Used)[k], cargo[k], mem2, platter2)
    {
      assert Carried(chains[k], cargo[k], mem, platter);
    }
  }

  lemma TransferDrop(chains: Chains, cargo: map<nat, Block>, clashed: set<nat>, mem: map<nat, Block>, platter: seq<Block>, h: nat)
    requires TransferOk(chains, cargo, clashed, mem, platter)
    ensures TransferOk(chains - {h}, cargo - {h}, clashed - {h}, mem, platter)
  {
  }

  lemma TransferAt(chains: Chains, cargo: map<nat, Block>, clashed: set<nat>, mem: map<nat, Block>, platter: seq<Block>, h: nat)
    requires TransferOk(chains, cargo, clashed, mem, platter) && h in chains && h !in clashed && Completed(chains[h].phase)
    ensures h in cargo && chains[h].buf in mem && chains[h].blockno < |platter|
    ensures mem[chains[h].buf] == cargo[h] == platter[chains[h].blockno]
  {
  }

  lemma OwnBuffers(chains: Chains, serving: map<nat, nat>, busy: set<nat>, mem: map<nat, Block>, nblocks: nat, h: nat)
    requires ServingOk(chains, serving, busy, mem, nblocks) && h in chains
    ensures forall k :: k in chains && k != h ==> chains[k].buf != chains[h].buf
  {
  }

  ghost predicate WorkingOk(chains: Chains, working: set<nat>) {
    forall h :: h in working <==> h in chains && chains[h].phase == AtDevice
  }

  /** The index range is a multiple of NUM. */
  ghost predicate NumOk(num: nat, turns: nat) {
    num >= 1 && IDXWRAP == num * turns
  }

  /** A 16-bit index, which wraps. */
  ghost predicate IndexOk(idx: nat, count: nat) {
    idx == count % IDXWRAP
  }

  /** Entries `seen` on of the log are in the ring, not overwritten. */
  ghost predicate RingOk(ring: seq<nat>, log: seq<nat>, seen: nat, n: nat) {
    && n > 0 && |ring| == n && seen <= |log| <= seen + n
    && (forall k :: seen <= k < |log| ==> ring[k % n] == log[k])
  }

  /** They are the requests in the given phase, each once. */
  ghost predicate PendingOk(log: seq<nat>, seen: nat, chains: Chains, phase: Phase) {
    && seen <= |log|
    && (forall h :: h in chains && chains[h].phase == phase ==> h in log[seen..])
    && (forall k :: seen <= k < |log| ==> log[k] in chains && chains[log[k]].phase == phase)
    && (forall j, k :: seen <= j < k < |log| ==> log[j] != log[k])
  }

  lemma RingHasRoom(log: seq<nat>, seen: nat, chains: Chains, phase: Phase, ring: seq<nat>, n: nat, h: nat)
    requires RingOk(ring, log, seen, n) && PendingOk(log, seen, chains, phase)
    requires forall k :: k in chains ==> k < n
    requires h < n && forall k :: seen <= k < |log| ==> log[k] != h
    ensures |log| < seen + n
  {
    if |log| == seen + n {
      HasAll(log[seen..], n, h);
      assert false;
    }
  }

  lemma RingPush(ring: seq<nat>, log: seq<nat>, seen: nat, n: nat, h: nat)
    requires RingOk(ring, log, seen, n) && |log| < seen + n
    ensures RingOk(ring[|log| % n := h], log + [h], seen, n)
  {
    forall k | seen <= k < |log|
      ensures k % n != |log| % n
    {
      Modulo.Differ(k, |log|, n);
    }
  }

  // ---- Posting a request ----------------------------------------------------------------------

  /** role with three slots replaced. */
  ghost function Set3(role: seq<Role>, i: nat, j: nat, k: nat, a: Role, b: Role, c: Role): (r: seq<Role>)
    requires i < |role| && j < |role| && k < |role|
    ensures |r| == |role|
    ensures forall x :: 0 <= x < |r| ==> r[x] == if x == k then c else if x == j then b else if x == i then a else role[x]
  {
    role[i := a][j := b][k := c]
  }


  lemma PostRoles(free: seq<bool>, role: seq<Role>, role1: seq<Role>, chains: Chains, n: nat, idx: seq<nat>, c: Chain)
    requires |idx| == 3 && Distinct(idx) && c.d1 == idx[1] && c.d2 == idx[2]
    requires RolesOk(free, role1, chains, n) && role1 == Taken(role, idx)
    requires forall k :: k in idx ==> k < n && role[k].Free?
    requires |role| == n && NoneHeld(role)
    ensures idx[0] !in chains && idx[0] < n && idx[1] < n && idx[2] < n
    ensures var role2 := Set3(role1, idx[0], idx[1], idx[2], Member(idx[0], 0), Member(idx[0], 1), Member(idx[0], 2));
            RolesOk(free, role2, chains[idx[0] := c], n) && NoneHeld(role2)
  {
    hide Set3;
    assert idx[0] in idx && idx[1] in idx && idx[2] in idx;
    var role2 := Set3(role1, idx[0], idx[1], idx[2], Member(idx[0], 0), Member(idx[0], 1), Member(idx[0], 2));
    forall i | 0 <= i < n
      ensures role2[i] == if i == idx[0] then Member(idx[0], 0) else if i == idx[1] then Member(idx[0], 1)
                          else if i == idx[2] then Member(idx[0], 2) else role[i]
    {
    }
  }

  /** Descriptors of other chains are not among the three. */
  lemma PostChains(free: seq<bool>, role1: seq<Role>, chains: Chains, n: nat, idx: seq<nat>, c: Chain,
                   desc: seq<Desc>, ops: seq<Req>, info: seq<Info>, desc': seq<Desc>, ops': seq<Req>, info': seq<Info>)
    requires |idx| == 3 && RolesOk(free, role1, chains, n) && ChainsOk(desc, ops, info, chains, n)
    requires forall k :: k in idx ==> k < n && role1[k].Held?
    requires |desc'| == |ops'| == |info'| == n && ChainOk(desc', ops', info', idx[0], c)
    requires forall k :: 0 <= k < n && role1[k].Member? ==> desc'[k] == desc[k] && ops'[k] == ops[k] && info'[k] == info[k]
    ensures ChainsOk(desc', ops', info', chains[idx[0] := c], n)
  {
    forall h | h in chains
      ensures h == idx[0] || ChainOk(desc', ops', info', h, chains[h])
    {
      assert ChainOk(desc, ops, info, h, chains[h]);
      assert role1[h].Member? && role1[chains[h].d1].Member? && role1[chains[h].d2].Member?;
    }
  }

  lemma PostServing(chains: Chains, serving: map<nat, nat>, busy: set<nat>, mem: map<nat, Block>, nblocks: nat, h: nat, c: Chain)
    requires ServingOk(chains, serving, busy, mem, nblocks) && h !in chains && c.buf !in serving
    requires c.buf in mem && c.blockno < nblocks && !c.phase.Released?
    ensures ServingOk(chains[h := c], serving[c.buf := h], busy + {c.buf}, mem, nblocks)
  {
  }

  lemma PostPending(log: seq<nat>, seen: nat, chains: Chains, phase: Phase, h: nat, c: Chain)
    requires PendingOk(log, seen, chains, phase) && h !in chains
    ensures c.phase != phase ==> PendingOk(log, seen, chains[h := c], phase)
    ensures c.phase == phase ==> PendingOk(log + [h], seen, chains[h := c], phase)
  {
    assert (log + [h])[seen..] == log[seen..] + [h];
  }

  lemma PostReports(posted: seq<nat>, fetched: nat, done: seq<nat>, seen: nat, chains: Chains, working: set<nat>, h: nat, c: Chain)
    requires PendingOk(posted, fetched, chains, Posted) && PendingOk(done, seen, chains, Used) && WorkingOk(chains, working)
    requires h !in chains && c.phase == Posted
    ensures PendingOk(posted + [h], fetched, chains[h := c], Posted) && PendingOk(done, seen, chains[h := c], Used)
    ensures WorkingOk(chains[h := c], working)
  {
    hide PendingOk, WorkingOk;
    PostPending(posted, fetched, chains, Posted, h, c);
    PostPending(done, seen, chains, Used, h, c);
    WorkingPost(chains, working, h, c);
  }

  lemma HeadsBelow(free: seq<bool>, role: seq<Role>, chains: Chains, n: nat)
    requires RolesOk(free, role, chains, n)
    ensures forall h :: h in chains ==> h < n
  {
  }

  lemma NotPending(log: seq<nat>, seen: nat, chains: Chains, phase: Phase, h: nat)
    requires PendingOk(log, seen, chains, phase) && (h !in chains || chains[h].phase != phase)
    ensures forall k :: seen <= k < |log| ==> log[k] != h
  {
  }

  // ---- A request moves on ---------------------------------------------------------------------

  ghost function Moved(chains: Chains, h: nat, phase: Phase): Chains
    requires h in chains
  {
    chains[h := chains[h].(phase := phase)]
  }

  lemma MoveRoles(free: seq<bool>, role: seq<Role>, chains: Chains, n: nat, h: nat, phase: Phase)
    requires RolesOk(free, role, chains, n) && h in chains
    ensures RolesOk(free, role, Moved(chains, h, phase), n)
  {
  }

  /** Only the status byte of the request itself may change, from 0xff to 0. */
  lemma MoveChains(desc: seq<Desc>, ops: seq<Req>, info: seq<Info>, chains: Chains, n: nat, h: nat, phase: Phase, info': seq<Info>)
    requires ChainsOk(desc, ops, info, chains, n) && h in chains && |info'| == n
    requires forall k :: 0 <= k < n && k != h ==> info'[k] == info[k]
    requires ChainOk(desc, ops, info', h, chains[h].(phase := phase))
    ensures ChainsOk(desc, ops, info', Moved(chains, h, phase), n)
  {
    forall k | k in chains
      ensures ChainOk(desc, ops, info', k, Moved(chains, h, phase)[k])
    {
      assert ChainOk(desc, ops, info, k, chains[k]);
    }
  }

  lemma MoveServing(chains: Chains, serving: map<nat, nat>, busy: set<nat>, mem: map<nat, Block>, nblocks: nat, h: nat, phase: Phase, mem': map<nat, Block>)
    requires ServingOk(chains, serving, busy, mem, nblocks) && h in chains && mem'.Keys == mem.Keys
    ensures ServingOk(Moved(chains, h, phase), serving,
                      if phase.Released? then busy - {chains[h].buf} else busy + {chains[h].buf}, mem', nblocks)
    ensures !phase.Released? && !chains[h].phase.Released? ==> busy + {chains[h].buf} == busy
  {
  }

  lemma SamePhaseChain(desc: seq<Desc>, ops: seq<Req>, info: seq<Info>, h: nat, c: Chain, phase: Phase)
    requires |desc| == |ops| == |info| && ChainOk(desc, ops, info, h, c)
    requires (c.phase.Posted? && phase.AtDevice?) || (c.phase.Used? && phase.Released?)
    ensures ChainOk(desc, ops, info, h, c.(phase := phase))
  {
  }

  /** A request enters or leaves a pending list only at its ends. */
  lemma MoveElsewhere(log: seq<nat>, seen: nat, chains: Chains, phase: Phase, h: nat, to: Phase)
    requires PendingOk(log, seen, chains, phase) && h in chains && chains[h].phase != phase && to != phase
    ensures PendingOk(log, seen, Moved(chains, h, to), phase)
  {
  }

  lemma MoveIn(log: seq<nat>, seen: nat, chains: Chains, phase: Phase, h: nat)
    requires PendingOk(log, seen, chains, phase) && h in chains && chains[h].phase != phase
    ensures PendingOk(log + [h], seen, Moved(chains, h, phase), phase)
  {
    assert (log + [h])[seen..] == log[seen..] + [h];
  }

  lemma MoveOut(log: seq<nat>, seen: nat, chains: Chains, phase: Phase, h: nat, to: Phase)
    requires PendingOk(log, seen, chains, phase) && h in chains && seen < |log| && log[seen] == h && to != phase
    ensures PendingOk(log, seen + 1, Moved(chains, h, to), phase)
  {
    assert log[seen..] == [log[seen]] + log[seen+1..];
  }

  lemma RingAt(ring: seq<nat>, log: seq<nat>, seen: nat, n: nat)
    requires RingOk(ring, log, seen, n) && seen < |log|
    ensures ring[seen % n] == log[seen] && RingOk(ring, log, seen + 1, n)
  {
  }

  lemma PendingAt(log: seq<nat>, seen: nat, chains: Chains, phase: Phase)
    requires PendingOk(log, seen, chains, phase) && seen < |log|
    ensures log[seen] in chains && chains[log[seen]].phase == phase
  {
  }

  lemma ChainAt(desc: seq<Desc>, ops: seq<Req>, info: seq<Info>, chains: Chains, n: nat, h: nat)
    requires ChainsOk(desc, ops, info, chains, n) && h in chains
    ensures |desc| == |ops| == |info| == n && ChainOk(desc, ops, info, h, chains[h]) && h < n
  {
  }

  lemma ChainMembers(desc: seq<Desc>, ops: seq<Req>, info: seq<Info>, h: nat, c: Chain)
    requires |desc| == |ops| == |info| && ChainOk(desc, ops, info, h, c)
    ensures h < |desc| && c.d1 < |desc| && c.d2 < |desc|
  {
  }

  lemma ServingAt(chains: Chains, serving: map<nat, nat>, busy: set<nat>, mem: map<nat, Block>, nblocks: nat, h: nat)
    requires ServingOk(chains, serving, busy, mem, nblocks) && h in chains
    ensures chains[h].buf in mem && chains[h].blockno < nblocks && chains[h].buf in serving && serving[chains[h].buf] == h
  {
  }

  /** Indices that differ by less than their range are equal only if the counts are. */
  lemma IndicesMeet(a: nat, x: nat, b: nat, y: nat, n: nat, turns: nat)
    requires NumOk(n, turns) && IndexOk(a, x) && IndexOk(b, y) && x <= y <= x + n && n < IDXWRAP
    ensures a == b <==> x == y
  {
    if x < y {
      Modulo.Differ(x, y, IDXWRAP);
    }
  }

  lemma NoneUsed(log: seq<nat>, seen: nat, chains: Chains)
    requires PendingOk(log, seen, chains, Used) && seen == |log|
    ensures forall h :: h in chains ==> chains[h].phase != Used
  {
  }

  lemma BusyExact(chains: Chains, serving: map<nat, nat>, busy: set<nat>, mem: map<nat, Block>, nblocks: nat)
    requires ServingOk(chains, serving, busy, mem, nblocks)
    ensures forall h :: h in chains ==> (chains[h].buf in busy <==> !chains[h].phase.Released?)
  {
  }

  // ---- The release of a used request ------------------------------------------------------------

  lemma UsedRequest(free: seq<bool>, role: seq<Role>, chains: Chains, n: nat, serving: map<nat, nat>, busy: set<nat>,
                    mem0: map<nat, Block>, nblocks: nat, mem: map<nat, Block>, h: nat)
    requires RolesOk(free, role, chains, n) && ServingOk(chains, serving, busy, mem0, nblocks) && mem.Keys == mem0.Keys
    requires h in chains && chains[h].phase == AtDevice
    ensures RolesOk(free, role, Moved(chains, h, Used), n) && ServingOk(Moved(chains, h, Used), serving, busy, mem, nblocks)
  {
    hide RolesOk, ServingOk, Moved;
    MoveRoles(free, role, chains, n, h, Used);
    MoveServing(chains, serving, busy, mem0, nblocks, h, Used, mem);
  }

  lemma UsedReport(posted: seq<nat>, fetched: nat, done: seq<nat>, seen: nat, chains: Chains, working: set<nat>, h: nat)
    requires PendingOk(posted, fetched, chains, Posted) && PendingOk(done, seen, chains, Used) && WorkingOk(chains, working)
    requires h in chains && chains[h].phase == AtDevice
    ensures PendingOk(posted, fetched, Moved(chains, h, Used), Posted) && PendingOk(done + [h], seen, Moved(chains, h, Used), Used)
    ensures WorkingOk(Moved(chains, h, Used), working - {h})
  {
    hide PendingOk, WorkingOk, Moved;
    MoveElsewhere(posted, fetched, chains, Posted, h, Used);
    MoveIn(done, seen, chains, Used, h);
    WorkingMove(chains, working, h, Used);
  }

  lemma ReleaseRequest(free: seq<bool>, role: seq<Role>, chains: Chains, n: nat, desc: seq<Desc>, ops: seq<Req>, info: seq<Info>,
                       serving: map<nat, nat>, busy: set<nat>, mem: map<nat, Block>, nblocks: nat, h: nat)
    requires RolesOk(free, role, chains, n) && ChainsOk(desc, ops, info, chains, n) && ServingOk(chains, serving, busy, mem, nblocks)
    requires h in chains && chains[h].phase == Used
    ensures RolesOk(free, role, Moved(chains, h, Released), n) && ChainsOk(desc, ops, info, Moved(chains, h, Released), n)
    ensures ServingOk(Moved(chains, h, Released), serving, busy - {chains[h].buf}, mem, nblocks)
  {
    hide RolesOk, ChainsOk, ServingOk, Moved;
    ChainAt(desc, ops, info, chains, n, h);
    SamePhaseChain(desc, ops, info, h, chains[h], Released);
    MoveRoles(free, role, chains, n, h, Released);
    MoveChains(desc, ops, info, chains, n, h, Released, info);
    MoveServing(chains, serving, busy, mem, nblocks, h, Released, mem);
  }

  lemma ReleaseReport(posted: seq<nat>, fetched: nat, ring: seq<nat>, done: seq<nat>, seen: nat, n: nat, chains: Chains, working: set<nat>)
    requires PendingOk(posted, fetched, chains, Posted) && PendingOk(done, seen, chains, Used) && RingOk(ring, done, seen, n)
    requires WorkingOk(chains, working) && seen < |done|
    ensures done[seen] in chains && RingOk(ring, done, seen + 1, n)
    ensures PendingOk(posted, fetched, Moved(chains, done[seen], Released), Posted)
    ensures PendingOk(done, seen + 1, Moved(chains, done[seen], Released), Used) && WorkingOk(Moved(chains, done[seen], Released), working)
  {
    hide PendingOk, RingOk, WorkingOk, Moved;
    RingAt(ring, done, seen, n);
    PendingAt(done, seen, chains, Used);
    MoveElsewhere(posted, fetched, chains, Posted, done[seen], Released);
    MoveOut(done, seen, chains, Used, done[seen], Released);
    WorkingMove(chains, working, done[seen], Released);
  }

  // ---- The handler and the device together ------------------------------------------------------

  function Rank(p: Phase): nat {
    match p case Posted => 0 case AtDevice => 1 case Used => 2 case Released => 3
  }

  /** The same requests, each at most further on. */
  ghost predicate Onward(chains0: Chains, chains: Chains) {
    chains.Keys == chains0.Keys && forall h :: h in chains ==>
      chains[h] == chains0[h].(phase := chains[h].phase) && Rank(chains0[h].phase) <= Rank(chains[h].phase)
  }

  /** The device moves requests on until they are used. */
  ghost predicate Ahead(chains0: Chains, chains: Chains) {
    Onward(chains0, chains) && forall h :: h in chains ==> (chains[h].phase == Released <==> chains0[h].phase == Released)
  }

  lemma AheadSame(chains: Chains)
    ensures Ahead(chains, chains)
  {
  }

  lemma AheadThrough(chains0: Chains, chains1: Chains, chains2: Chains)
    requires Ahead(chains0, chains1) && Ahead(chains1, chains2)
    ensures Ahead(chains0, chains2)
  {
  }

  lemma AheadMoved(chains: Chains, h: nat, phase: Phase)
    requires h in chains && Rank(chains[h].phase) <= Rank(phase) <= 2
    ensures Ahead(chains, Moved(chains, h, phase))
  {
  }

  /** Of the reports from seen0 on, exactly the requests of those before `seen` have been released. */
  ghost predicate Handled(chains0: Chains, chains: Chains, done: seq<nat>, seen0: nat, seen: nat) {
    && seen0 <= seen <= |done| && Onward(chains0, chains)
    && forall h :: h in chains ==> (chains[h].phase == Released <==> chains0[h].phase == Released || h in done[seen0..seen])
  }

  lemma HandledNone(chains: Chains, done: seq<nat>, seen: nat)
    requires seen <= |done|
    ensures Handled(chains, chains, done, seen, seen)
  {
  }

  lemma HandledAhead(chains0: Chains, chains1: Chains, chains2: Chains, done1: seq<nat>, done2: seq<nat>, seen0: nat, seen: nat)
    requires Handled(chains0, chains1, done1, seen0, seen) && Ahead(chains1, chains2) && done1 <= done2
    ensures Handled(chains0, chains2, done2, seen0, seen)
  {
    assert done2[seen0..seen] == done1[seen0..seen];
  }

  lemma HandledMore(chains0: Chains, chains: Chains, done: seq<nat>, seen0: nat, seen: nat)
    requires Handled(chains0, chains, done, seen0, seen) && seen < |done| && done[seen] in chains
    ensures Handled(chains0, Moved(chains, done[seen], Released), done, seen0, seen + 1)
  {
    assert done[seen0..seen + 1] == done[seen0..seen] + [done[seen]];
  }

  /** Nothing but the release of used requests. */
  ghost predicate OnlyReleased(chains0: Chains, chains: Chains) {
    chains.Keys == chains0.Keys && forall h :: h in chains ==>
      chains[h] == chains0[h] || (chains0[h].phase == Used && chains[h] == chains0[h].(phase := Released))
  }

  lemma OnlyReleasedNone(chains: Chains)
    ensures OnlyReleased(chains, chains)
  {
  }

  lemma ReleasedUsed(chains0: Chains, chains: Chains)
    requires OnlyReleased(chains0, chains) && forall h :: h in chains ==> chains[h].phase != Used
    ensures chains.Keys == chains0.Keys
    ensures forall h :: h in chains ==> chains[h] == if chains0[h].phase == Used then chains0[h].(phase := Released) else chains0[h]
  {
  }

  lemma OnlyReleasedMore(chains0: Chains, chains: Chains, h: nat)
    requires OnlyReleased(chains0, chains) && h in chains && chains[h].phase == Used
    ensures OnlyReleased(chains0, Moved(chains, h, Released))
  {
  }

  lemma WorkingPost(chains: Chains, working: set<nat>, h: nat, c: Chain)
    requires WorkingOk(chains, working) && h !in chains && c.phase == Posted
    ensures WorkingOk(chains[h := c], working)
  {
  }

  lemma WorkingMove(chains: Chains, working: set<nat>, h: nat, phase: Phase)
    requires WorkingOk(chains, working) && h in chains
    ensures WorkingOk(Moved(chains, h, phase), if phase == AtDevice then working + {h} else working - {h})
    ensures chains[h].phase != AtDevice ==> working - {h} == working
  {
  }

  lemma WorkingDrop(chains: Chains, working: set<nat>, h: nat)
    requires WorkingOk(chains, working) && h in chains && chains[h].phase != AtDevice
    ensures WorkingOk(chains - {h}, working)
  {
  }

  lemma WorkingAt(chains: Chains, working: set<nat>, h: nat)
    requires WorkingOk(chains, working)
    ensures h in working <==> h in chains && chains[h].phase == AtDevice
  {
  }

  // ---- A request goes away --------------------------------------------------------------------

  lemma DropRoles(free: seq<bool>, role: seq<Role>, chains: Chains, n: nat, h: nat, free': seq<bool>)
    requires RolesOk(free, role, chains, n) && h in chains && NoneHeld(role)
    requires h < n && chains[h].d1 < n && chains[h].d2 < n
    requires free' == free[h := true][chains[h].d1 := true][chains[h].d2 := true]
    ensures var role' := Set3(role, h, chains[h].d1, chains[h].d2, Free, Free, Free);
            RolesOk(free', role', chains - {h}, n) && NoneHeld(role')
  {
    hide Set3;
    var c := chains[h];
    var role' := Set3(role, h, c.d1, c.d2, Free, Free, Free);
    forall i | 0 <= i < n && role[i].Member? && role[i].head == h
      ensures i == h || i == c.d1 || i == c.d2
    {
    }
  }

  lemma DropChains(free: seq<bool>, role: seq<Role>, chains: Chains, n: nat, desc: seq<Desc>, ops: seq<Req>, info: seq<Info>, h: nat,
                   desc': seq<Desc>, info': seq<Info>)
    requires RolesOk(free, role, chains, n) && ChainsOk(desc, ops, info, chains, n) && h in chains
    requires |desc'| == |info'| == n
    requires forall i :: 0 <= i < n && i != h && i != chains[h].d1 && i != chains[h].d2 ==> desc'[i] == desc[i]
    requires forall i :: 0 <= i < n && i != h ==> info'[i] == info[i]
    ensures ChainsOk(desc', ops, info', chains - {h}, n)
  {
    forall k | k in chains && k != h
      ensures ChainOk(desc', ops, info', k, chains[k])
    {
      assert ChainOk(desc, ops, info, k, chains[k]);
    }
  }

  lemma DropServing(chains: Chains, serving: map<nat, nat>, busy: set<nat>, mem: map<nat, Block>, nblocks: nat, h: nat)
    requires ServingOk(chains, serving, busy, mem, nblocks) && h in chains && chains[h].phase.Released?
    ensures ServingOk(chains - {h}, serving - {chains[h].buf}, busy, mem, nblocks)
  {
  }

  lemma DropPending(log: seq<nat>, seen: nat, chains: Chains, phase: Phase, h: nat)
    requires PendingOk(log, seen, chains, phase) && h in chains && chains[h].phase != phase
    ensures PendingOk(log, seen, chains - {h}, phase)
  {
  }

  ghost predicate Distinct(s: seq<nat>) {
    forall i, j :: 0 <= i < j < |s| ==> s[i] != s[j]
  }

  /** The roles with the given descriptors taken by the turn in progress. */
  ghost function Taken(role: seq<Role>, idx: seq<nat>): seq<Role> {
    seq(|role|, i requires 0 <= i < |role| => if i in idx then Held else role[i])
  }

  lemma TakenNone(role: seq<Role>)
    ensures Taken(role, []) == role
  {
  }

  lemma TakenOne(role: seq<Role>, idx: seq<nat>, d: nat)
    requires d < |role|
    ensures Taken(role, idx + [d]) == Taken(role, idx)[d := Held]
  {
  }

  lemma TakenMembers(role: seq<Role>, idx: seq<nat>)
    ensures |Taken(role, idx)| == |role|
    ensures forall i :: 0 <= i < |role| && Taken(role, idx)[i].Member? ==> role[i] == Taken(role, idx)[i]
  {
  }

  lemma RolesSizes(free: seq<bool>, role: seq<Role>, chains: Chains, n: nat)
    requires RolesOk(free, role, chains, n)
    ensures |free| == n == |role|
  {
  }

  lemma TakenHeld(role: seq<Role>, idx: seq<nat>)
    requires forall k :: k in idx ==> k < |role|
    ensures forall k :: k in idx ==> Taken(role, idx)[k].Held?
  {
  }

  lemma FreeRoles(free: seq<bool>, role: seq<Role>, chains: Chains, n: nat)
    requires RolesOk(free, role, chains, n)
    ensures forall k :: 0 <= k < n && free[k] ==> role[k].Free?
  {
  }

  lemma ChainSizes(desc: seq<Desc>, ops: seq<Req>, info: seq<Info>, chains: Chains, n: nat)
    requires ChainsOk(desc, ops, info, chains, n)
    ensures |desc| == |ops| == |info| == n
  {
  }

  /** Changes to descriptors outside every chain do not matter. */
  lemma ChainsUntouched(free: seq<bool>, role: seq<Role>, chains: Chains, n: nat, desc: seq<Desc>, ops: seq<Req>, info: seq<Info>, desc': seq<Desc>)
    requires RolesOk(free, role, chains, n) && ChainsOk(desc, ops, info, chains, n) && |desc'| == n
    requires forall k :: 0 <= k < n && role[k].Member? ==> desc'[k] == desc[k]
    ensures ChainsOk(desc', ops, info, chains, n)
  {
    forall h | h in chains
      ensures ChainOk(desc', ops, info, h, chains[h])
    {
      assert ChainOk(desc, ops, info, h, chains[h]);
      assert role[h].Member? && role[chains[h].d1].Member? && role[chains[h].d2].Member?;
    }
  }

  lemma RingSize(ring: seq<nat>, log: seq<nat>, seen: nat, n: nat)
    requires RingOk(ring, log, seen, n)
    ensures |ring| == n > 0 && seen <= |log| <= seen + n
  {
  }

  /** A 16-bit index names the same ring entry as the full count. */
  lemma IndexPlace(idx: nat, count: nat, n: nat, turns: nat)
    requires NumOk(n, turns) && IndexOk(idx, count)
    ensures n >= 1 && idx % n == count % n && IndexOk((idx + 1) % IDXWRAP, count + 1)
  {
    Modulo.Through(count, IDXWRAP, n, turns);
  }

  lemma FewFree(free: seq<bool>, idx: seq<nat>)
    requires |idx| <= 2 && forall k :: 0 <= k < |free| && free[k] ==> k in idx
    ensures forall i, j, k :: 0 <= i < j < k < |free| ==> !(free[i] && free[j] && free[k])
  {
    forall i, j, k | 0 <= i < j < k < |free|
      ensures !(free[i] && free[j] && free[k])
    {
      assert free[i] ==> i in idx;
      assert free[j] ==> j in idx;
      assert free[k] ==> k in idx;
    }
  }

  class Disk {
    const num: nat        // NUM
    ghost const turns: nat  // the index range is a multiple of NUM

    // driver state
    var free: seq<bool>
    var desc: seq<Desc>
    var ops: seq<Req>
    var info: seq<Info>
    var availRing: seq<nat>
    var availIdx: nat
    var usedIdx: nat      // disk.used_idx, how far the driver has looked
    var busy: set<nat>    // the buffers with b->disk set
    var mem: map<nat, Block>  // the buffers' data

    // device state
    var deviceAvailIdx: nat  // how far the device has looked
    var usedRing: seq<nat>
    var deviceUsedIdx: nat  // disk.used->idx
    var platter: seq<Block>
    var working: set<nat>    // the requests it has taken and not reported

    ghost var role: seq<Role>
    ghost var chains: Chains
    ghost var serving: map<nat, nat>
    ghost var cargo: map<nat, Block>  // what each request is to move
    ghost var clashed: set<nat>  // the requests that have shared their block with another
    ghost var posted: seq<nat>   // every head ever put in the avail ring
    ghost var fetched: nat       // how many of them the device has taken
    ghost var done: seq<nat>     // every head ever put in the used ring
    ghost var seen: nat          // how many of them the driver has read

    ghost predicate Valid()
      reads this
    {
      && NumOk(num, turns)
      && RolesOk(free, role, chains, num)
      && NoneHeld(role)
      && ChainsOk(desc, ops, info, chains, num)
      && ServingOk(chains, serving, busy, mem, |platter|)
      && RingOk(availRing, posted, fetched, num) && PendingOk(posted, fetched, chains, Posted)
      && RingOk(usedRing, done, seen, num) && PendingOk(done, seen, chains, Used)
      && IndexOk(availIdx, |posted|) && IndexOk(deviceUsedIdx, |done|) && IndexOk(usedIdx, seen) && IndexOk(deviceAvailIdx, fetched) && WorkingOk(chains, working)
      && TransferOk(chains, cargo, clashed, mem, platter)
    }

    constructor (num: nat, ghost turns: nat, platter: seq<Block>, mem: map<nat, Block>)
      requires NumOk(num, turns)
      ensures Valid() && chains == map[] && busy == {} && this.platter == platter && this.mem == mem
    {
      this.num, this.turns, this.platter, this.mem := num, turns, platter, mem;
      free, desc := seq(num, _ => true), seq(num, _ => BLANK);
      ops, info := seq(num, _ => Req(0, 0)), seq(num, _ => Info(None, 0));
      availRing, availIdx, usedIdx := seq(num, _ => 0), 0, 0;
      usedRing, deviceUsedIdx, deviceAvailIdx, busy := seq(num, _ => 0), 0, 0, {};
      role, chains, serving, working := seq(num, _ => Free), map[], map[], {};
      posted, fetched, done, seen, cargo, clashed := [], 0, [], 0, map[], {};
    }

    /** Find a free descriptor and mark it non-free. */
    method AllocDesc() returns (r: Option<nat>)
      requires RolesOk(free, role, chains, num)
      modifies this`free, this`role
      ensures RolesOk(free, role, chains, num)
      ensures r.None? ==> free == old(free) && role == old(role) && forall i :: 0 <= i < num ==> !free[i]
      ensures r.Some? ==>
                && r.value < num && old(free)[r.value] && (forall i :: 0 <= i < r.value ==> !old(free)[i])
                && free == old(free)[r.value := false] && role == old(role)[r.value := Held]
    {
      var i := 0;
      while i < num
        invariant 0 <= i <= num && free == old(free) && role == old(role)
        invariant forall j :: 0 <= j < i ==> !free[j]
      {
        if free[i] {
          free := free[i := false];
          role := role[i := Held];
          return Some(i);
        }
        i := i + 1;
      }
      return None;
    }

    /** Mark a descriptor free. False is one of the free_desc panics. */
    method FreeDesc(i: nat) returns (ok: bool)
      requires |free| == |desc| == num
      modifies this`free, this`desc
      ensures ok <==> i < num && !old(free)[i]
      ensures ok ==> free == old(free)[i := true] && desc == old(desc)[i := BLANK]
    {
      if i >= num || free[i] {
        return false;
      }
      desc := desc[i := BLANK];
      free := free[i := true];
      return true;
    }

    /** Allocate three descriptors, or none if there are not three. */
    method Alloc3Desc() returns (r: Option<seq<nat>>)
      requires RolesOk(free, role, chains, num) && |desc| == num && NoneHeld(role)
      modifies this`free, this`role, this`desc
      ensures RolesOk(free, role, chains, num)
      ensures r.None? ==>
                && free == old(free) && role == old(role)
                && (forall i, j, k :: 0 <= i < j < k < num ==> !(free[i] && free[j] && free[k]))
      ensures r.Some? ==>
                && |r.value| == 3 && Distinct(r.value)
                && (forall k :: k in r.value ==> k < num && old(free)[k])
                && role == Taken(old(role), r.value)
      ensures |desc| == num && forall i :: 0 <= i < num && role[i].Member? ==> desc[i] == old(desc)[i]
    {
      hide RolesOk;
      RolesSizes(free, role, chains, num);
      var idx: seq<nat> := [];
      var i := 0;
      TakenNone(role);
      while i < 3
        invariant 0 <= i <= 3 && |idx| == i && Distinct(idx) && desc == old(desc)
        invariant forall k :: k in idx ==> k < num && old(free)[k]
        invariant RolesOk(free, role, chains, num) && |free| == num
        invariant role == Taken(old(role), idx)
        invariant forall k :: 0 <= k < num ==> (free[k] <==> old(free)[k] && k !in idx)
      {
        var d := AllocDesc();
        if d.None? {
          assert forall i, j, k :: 0 <= i < j < k < num ==> !(old(free)[i] && old(free)[j] && old(free)[k]) by {
            FewFree(old(free), idx);
          }
          GiveBack(idx, old(free), old(role));
          return None;
        }
        TakenOne(old(role), idx, d.value);
        idx := idx + [d.value];
        i := i + 1;
      }
      RolesSizes(free, role, chains, num);
      TakenMembers(old(role), idx);
      return Some(idx);
    }

    /** alloc3_desc's clean-up: free what it got. */
    method GiveBack(idx: seq<nat>, ghost free0: seq<bool>, ghost role0: seq<Role>)
      requires |free| == |free0| == |desc| == num && Distinct(idx) && RolesOk(free0, role0, chains, num)
      requires role == Taken(role0, idx)
      requires forall k :: k in idx ==> k < num && free0[k]
      requires forall k :: 0 <= k < num ==> (free[k] <==> free0[k] && k !in idx)
      modifies this`free, this`role, this`desc
      ensures free == free0 && role == role0 && |desc| == num
      ensures forall i :: 0 <= i < num && role[i].Member? ==> desc[i] == old(desc)[i]
    {
      var j := 0;
      assert idx[0..] == idx;
      while j < |idx|
        invariant 0 <= j <= |idx| && |free| == |desc| == num
        invariant forall k :: 0 <= k < num ==> (free[k] <==> free0[k] && k !in idx[j..])
        invariant forall i :: 0 <= i < num && !free0[i] ==> desc[i] == old(desc)[i]
      {
        assert idx[j..] == [idx[j]] + idx[j+1..];
        assert idx[j] in idx && idx[j] !in idx[j+1..];
        assert !free[idx[j]] && free0[idx[j]];
        var ok := FreeDesc(idx[j]);
        j := j + 1;
      }
      role := role0;
    }

    /** virtio_disk_rw up to its wait: post a request for the buffer, or sleep for want of descriptors.
        Whoever calls it holds the buffer, so the buffer has no request yet. The request is to move what
        is now in the buffer, if a write, or in the block. */
    method Submit(b: nat, blockno: nat, write: bool) returns (r: Option<nat>)
      requires Valid() && b !in serving && b in mem && blockno < |platter|
      modifies this`free, this`desc, this`ops, this`info, this`availRing, this`availIdx, this`busy,
               this`role, this`chains, this`serving, this`posted, this`cargo, this`clashed
      ensures Valid()
      ensures r.None? ==>
                && cargo == old(cargo) && clashed == old(clashed) && free == old(free) && chains == old(chains) && busy == old(busy) && posted == old(posted) && serving == old(serving)
                && (forall i, j, k :: 0 <= i < j < k < num ==> !(free[i] && free[j] && free[k]))
      ensures r.Some? ==>
                && r.value !in old(chains) && r.value in chains
                && chains == old(chains)[r.value := Chain(chains[r.value].d1, chains[r.value].d2, b, write, blockno, Posted)]
                && serving == old(serving)[b := r.value] && busy == old(busy) + {b} && posted == old(posted) + [r.value]
                && cargo == old(cargo)[r.value := if write then mem[b] else platter[blockno]]
                && clashed == Clashes(old(chains), old(clashed), r.value, blockno)
    {
      hide RolesOk, NoneHeld, ChainsOk, ChainOk, ServingOk, RingOk, PendingOk, Taken, Distinct, NumOk, IndexOk, WorkingOk, TransferOk, Clashes;
      ChainSizes(desc, ops, info, chains, num);
      RolesSizes(free, role, chains, num);
      ghost var role0 := role;
      var idx := Alloc3Desc();
      RolesSizes(free, role, chains, num);
      ChainsUntouched(free, role, chains, num, old(desc), ops, info, desc);
      if idx.None? {
        return None;
      }
      FreeRoles(old(free), role0, chains, num);
      Post(idx.value, b, blockno, write, role0);
      return Some(idx.value[0]);
    }

    /** Format the request, tell the device. */
    method Post(idx: seq<nat>, b: nat, blockno: nat, write: bool, ghost role0: seq<Role>)
      requires |idx| == 3 && Distinct(idx) && RolesOk(free, role, chains, num) && role == Taken(role0, idx) && |role0| == num
      requires (forall k :: k in idx ==> k < num && role0[k].Free?) && NoneHeld(role0)
      requires NumOk(num, turns) && ChainsOk(desc, ops, info, chains, num)
      requires ServingOk(chains, serving, busy, mem, |platter|) && b !in serving && b in mem && blockno < |platter|
      requires RingOk(availRing, posted, fetched, num) && PendingOk(posted, fetched, chains, Posted)
      requires RingOk(usedRing, done, seen, num) && PendingOk(done, seen, chains, Used)
      requires IndexOk(availIdx, |posted|) && IndexOk(deviceUsedIdx, |done|) && IndexOk(usedIdx, seen) && IndexOk(deviceAvailIdx, fetched)
      requires WorkingOk(chains, working) && TransferOk(chains, cargo, clashed, mem, platter)
      modifies this`desc, this`ops, this`info, this`availRing, this`availIdx, this`busy, this`role, this`chains, this`serving, this`posted,
               this`cargo, this`clashed
      ensures cargo == old(cargo)[idx[0] := if write then mem[b] else platter[blockno]]
      ensures clashed == Clashes(old(chains), old(clashed), idx[0], blockno)
      ensures Valid() && idx[0] !in old(chains) && posted == old(posted) + [idx[0]] && busy == old(busy) + {b}
      ensures chains == old(chains)[idx[0] := Chain(idx[1], idx[2], b, write, blockno, Posted)] && serving == old(serving)[b := idx[0]]
    {
      hide RolesOk, NoneHeld, ChainsOk, ChainOk, ServingOk, RingOk, PendingOk, Taken, Distinct, NumOk, IndexOk, WorkingOk, Disk.Valid, Set3,
           TransferOk, Clashes;
      Prepare(idx, b, blockno, write, role0);
      ghost var c := Chain(idx[1], idx[2], b, write, blockno, Posted);
      PostServing(chains, serving, old(busy), mem, |platter|, idx[0], c);
      PostReports(posted, fetched, done, seen, chains, working, idx[0], c);
      Load(idx[0], c);
      Publish(idx[0], c);
    }

    ghost method Load(h: nat, c: Chain)
      requires TransferOk(chains, cargo, clashed, mem, platter) && h !in chains && c.phase == Posted && c.buf in mem && c.blockno < |platter|
      modifies this`cargo, this`clashed
      ensures TransferOk(chains[h := c], cargo, clashed, mem, platter)
      ensures cargo == old(cargo)[h := if c.write then mem[c.buf] else platter[c.blockno]]
      ensures clashed == Clashes(chains, old(clashed), h, c.blockno)
    {
      TransferPost(chains, cargo, clashed, mem, platter, h, c);
      cargo, clashed := cargo[h := if c.write then mem[c.buf] else platter[c.blockno]], Clashes(chains, clashed, h, c.blockno);
    }

    ghost method Unload(h: nat)
      requires TransferOk(chains, cargo, clashed, mem, platter)
      modifies this`cargo, this`clashed
      ensures TransferOk(chains - {h}, cargo, clashed, mem, platter) && cargo == old(cargo) - {h} && clashed == old(clashed) - {h}
    {
      TransferDrop(chains, cargo, clashed, mem, platter, h);
      cargo, clashed := cargo - {h}, clashed - {h};
    }

    /** The descriptors say what the request is, and belong to it. */
    method Prepare(idx: seq<nat>, b: nat, blockno: nat, write: bool, ghost role0: seq<Role>)
      requires |idx| == 3 && Distinct(idx) && RolesOk(free, role, chains, num) && role == Taken(role0, idx) && |role0| == num
      requires (forall k :: k in idx ==> k < num && role0[k].Free?) && NoneHeld(role0)
      requires ChainsOk(desc, ops, info, chains, num)
      modifies this`desc, this`ops, this`info, this`busy, this`role
      ensures var c := Chain(idx[1], idx[2], b, write, blockno, Posted);
              && RolesOk(free, role, chains[idx[0] := c], num) && NoneHeld(role) && ChainsOk(desc, ops, info, chains[idx[0] := c], num)
              && idx[0] < num && idx[0] !in chains && (forall h :: h in chains ==> h < num) && busy == old(busy) + {b}
    {
      hide RolesOk, NoneHeld, ChainsOk, ChainOk, Taken, Distinct, Set3;
      TakenMembers(role0, idx);
      TakenHeld(role0, idx);
      ChainSizes(desc, ops, info, chains, num);
      ghost var d0, c := idx[0], Chain(idx[1], idx[2], b, write, blockno, Posted);
      Format(idx, b, blockno, write);
      PostChains(free, role, chains, num, idx, c, old(desc), old(ops), old(info), desc, ops, info);
      PostRoles(free, role0, role, chains, num, idx, c);
      HeadsBelow(free, role, chains, num);
      role := Set3(role, d0, c.d1, c.d2, Member(d0, 0), Member(d0, 1), Member(d0, 2));
    }

    /** The request becomes one that the device may take. */
    method Publish(d0: nat, ghost c: Chain)
      requires NumOk(num, turns) && d0 < num && d0 !in chains && (forall h :: h in chains ==> h < num)
      requires RolesOk(free, role, chains[d0 := c], num) && NoneHeld(role) && ChainsOk(desc, ops, info, chains[d0 := c], num)
      requires ServingOk(chains[d0 := c], serving[c.buf := d0], busy, mem, |platter|)
      requires RingOk(availRing, posted, fetched, num) && PendingOk(posted, fetched, chains, Posted)
      requires PendingOk(posted + [d0], fetched, chains[d0 := c], Posted)
      requires RingOk(usedRing, done, seen, num) && PendingOk(done, seen, chains[d0 := c], Used)
      requires IndexOk(availIdx, |posted|) && IndexOk(deviceUsedIdx, |done|) && IndexOk(usedIdx, seen) && IndexOk(deviceAvailIdx, fetched)
      requires WorkingOk(chains[d0 := c], working) && TransferOk(chains[d0 := c], cargo, clashed, mem, platter)
      modifies this`availRing, this`availIdx, this`chains, this`serving, this`posted
      ensures Valid() && posted == old(posted) + [d0] && chains == old(chains)[d0 := c] && serving == old(serving)[c.buf := d0]
    {
      hide RolesOk, NoneHeld, ChainsOk, ServingOk, RingOk, PendingOk, NumOk, IndexOk, WorkingOk, TransferOk;
      Announce(d0);
      chains, serving := chains[d0 := c], serving[c.buf := d0];
    }

    /** Format the three descriptors and record the buffer for the interrupt handler. */
    method Format(idx: seq<nat>, b: nat, blockno: nat, write: bool)
      requires |desc| == |ops| == |info| == num && |idx| == 3 && Distinct(idx) && forall k :: k in idx ==> k < num
      modifies this`desc, this`ops, this`info, this`busy
      ensures |desc| == |ops| == |info| == num && busy == old(busy) + {b}
      ensures ChainOk(desc, ops, info, idx[0], Chain(idx[1], idx[2], b, write, blockno, Posted))
      ensures forall k :: 0 <= k < num && k !in idx ==>
                desc[k] == old(desc)[k] && ops[k] == old(ops)[k] && info[k] == old(info)[k]
    {
      var d0, d1, d2 := idx[0], idx[1], idx[2];
      assert d0 in idx && d1 in idx && d2 in idx;
      ops := ops[d0 := Req(if write then BLK_OUT else BLK_IN, blockno * (BSIZE / 512))];
      desc := desc[d0 := Desc(Request(d0), REQSIZE, true, false, d1)];
      desc := desc[d1 := Desc(Data(b), BSIZE, true, !write, d2)];
      info := info[d0 := info[d0].(status := 0xff)];
      desc := desc[d2 := Desc(Status(d0), 1, false, true, 0)];
      busy := busy + {b};
      info := info[d0 := info[d0].(b := Some(b))];
    }

    /** Put the head in the avail ring; no entry the device has yet to read is overwritten. */
    method Announce(d0: nat)
      requires NumOk(num, turns) && d0 < num && d0 !in chains && IndexOk(availIdx, |posted|)
      requires RingOk(availRing, posted, fetched, num) && PendingOk(posted, fetched, chains, Posted)
      requires forall h :: h in chains ==> h < num
      modifies this`availRing, this`availIdx, this`posted
      ensures posted == old(posted) + [d0] && IndexOk(availIdx, |posted|)
      ensures RingOk(availRing, posted, fetched, num)
    {
      hide RingOk, PendingOk, NumOk, IndexOk, WorkingOk;
      NotPending(posted, fetched, chains, Posted, d0);
      RingHasRoom(posted, fetched, chains, Posted, availRing, num, d0);
      RingPush(availRing, posted, fetched, num, d0);
      RingSize(availRing, posted, fetched, num);
      IndexPlace(availIdx, |posted|, num, turns);
      availRing := availRing[availIdx % num := d0];
      availIdx := (availIdx + 1) % IDXWRAP;
      posted := posted + [d0];
    }

    /** The device takes the next request off the avail ring. */
    method DeviceFetch() returns (h: nat)
      requires Valid() && fetched < |posted|
      modifies this`deviceAvailIdx, this`fetched, this`chains, this`working
      ensures Valid() && fetched == old(fetched) + 1
      ensures h == posted[old(fetched)] && h in old(chains) && old(chains)[h].phase == Posted
      ensures chains == Moved(old(chains), h, AtDevice)
    {
      hide RolesOk, NoneHeld, ChainsOk, ChainOk, ServingOk, RingOk, PendingOk, NumOk, IndexOk, WorkingOk, Moved, TransferOk;
      RingSize(availRing, posted, fetched, num);
      RingAt(availRing, posted, fetched, num);
      PendingAt(posted, fetched, chains, Posted);
      IndexPlace(deviceAvailIdx, fetched, num, turns);
      h := availRing[deviceAvailIdx % num];
      deviceAvailIdx := (deviceAvailIdx + 1) % IDXWRAP;
      ChainAt(desc, ops, info, chains, num, h);
      SamePhaseChain(desc, ops, info, h, chains[h], AtDevice);
      MoveRoles(free, role, chains, num, h, AtDevice);
      MoveChains(desc, ops, info, chains, num, h, AtDevice, info);
      MoveServing(chains, serving, busy, mem, |platter|, h, AtDevice, mem);
      MoveOut(posted, fetched, chains, Posted, h, AtDevice);
      MoveElsewhere(done, seen, chains, Used, h, AtDevice);
      WorkingMove(chains, working, h, AtDevice);
      TransferMove(chains, cargo, clashed, mem, platter, h, AtDevice);
      working := working + {h};
      chains := Moved(chains, h, AtDevice);
      fetched := fetched + 1;
    }

    /** The device does what a request it has taken says, and reports it used. It goes by the type of the
        request; the descriptor of the data lets it write exactly when it has to. Any
        request it has taken may be the one. No report the driver has yet to read is overwritten. */
    method DeviceComplete(h: nat)
      requires Valid() && h in working
      modifies this`platter, this`mem, this`info, this`usedRing, this`deviceUsedIdx, this`done, this`chains, this`working
      ensures Valid() && done == old(done) + [h] && h in old(chains) && old(chains)[h].phase == AtDevice && chains == Moved(old(chains), h, Used)
      ensures var c := old(chains)[h];
              && c.buf in old(mem) && c.blockno < |old(platter)|
              && platter == (if c.write then old(platter)[c.blockno := old(mem)[c.buf]] else old(platter))
              && mem == (if c.write then old(mem) else old(mem)[c.buf := old(platter)[c.blockno]])
    {
      hide RolesOk, NoneHeld, ChainsOk, ServingOk, RingOk, PendingOk, NumOk, IndexOk, WorkingOk, Moved, TransferOk;
      WorkingAt(chains, working, h);
      ChainAt(desc, ops, info, chains, num, h);
      ServingAt(chains, serving, busy, mem, |platter|, h);
      ghost var info0, chains0 := info, chains;
      var req := ops[desc[h].addr.i];
      var dd := desc[desc[h].next];
      var sd := desc[dd.next];
      var blockno := req.sector / (BSIZE / 512);
      assert dd.deviceWrites <==> req.kind == BLK_IN;
      if req.kind == BLK_OUT {
        platter := platter[blockno := mem[dd.addr.buf]];
      } else {
        mem := mem[dd.addr.buf := platter[blockno]];
      }
      info := info[sd.addr.i := info[sd.addr.i].(status := 0)];
      MoveChains(desc, ops, info0, chains, num, h, Used, info);
      OwnBuffers(chains, serving, busy, old(mem), |old(platter)|, h);
      TransferDone(chains, cargo, clashed, old(mem), old(platter), h, mem, platter);
      FinishComplete(h, old(mem), |old(platter)|);
    }

    /** The device's entry in the used ring. */
    method PutUsed(h: nat)
      requires NumOk(num, turns) && h in chains && chains[h].phase == AtDevice && forall k :: k in chains ==> k < num
      requires RingOk(usedRing, done, seen, num) && PendingOk(done, seen, chains, Used) && IndexOk(deviceUsedIdx, |done|)
      modifies this`usedRing, this`deviceUsedIdx, this`done
      ensures RingOk(usedRing, done, seen, num) && IndexOk(deviceUsedIdx, |done|) && done == old(done) + [h]
    {
      hide RingOk, PendingOk, NumOk, IndexOk;
      NotPending(done, seen, chains, Used, h);
      RingHasRoom(done, seen, chains, Used, usedRing, num, h);
      RingPush(usedRing, done, seen, num, h);
      RingSize(usedRing, done, seen, num);
      IndexPlace(deviceUsedIdx, |done|, num, turns);
      usedRing := usedRing[deviceUsedIdx % num := h];
      deviceUsedIdx := (deviceUsedIdx + 1) % IDXWRAP;
      done := done + [h];
    }

    /** The device's report. */
    method FinishComplete(h: nat, ghost mem0: map<nat, Block>, ghost nblocks: nat)
      requires NumOk(num, turns) && h in chains && chains[h].phase == AtDevice
      requires RolesOk(free, role, chains, num) && NoneHeld(role)
      requires ChainsOk(desc, ops, info, Moved(chains, h, Used), num)
      requires ServingOk(chains, serving, busy, mem0, nblocks) && mem.Keys == mem0.Keys && |platter| == nblocks
      requires RingOk(availRing, posted, fetched, num) && PendingOk(posted, fetched, chains, Posted)
      requires RingOk(usedRing, done, seen, num) && PendingOk(done, seen, chains, Used)
      requires IndexOk(availIdx, |posted|) && IndexOk(deviceUsedIdx, |done|) && IndexOk(usedIdx, seen) && IndexOk(deviceAvailIdx, fetched)
      requires WorkingOk(chains, working) && TransferOk(Moved(chains, h, Used), cargo, clashed, mem, platter)
      modifies this`usedRing, this`deviceUsedIdx, this`done, this`chains, this`working
      ensures Valid() && done == old(done) + [h] && chains == Moved(old(chains), h, Used)
    {
      hide RolesOk, NoneHeld, ChainsOk, ServingOk, RingOk, PendingOk, NumOk, IndexOk, WorkingOk, Moved, TransferOk;
      HeadsBelow(free, role, chains, num);
      UsedRequest(free, role, chains, num, serving, busy, mem0, nblocks, mem, h);
      UsedReport(posted, fetched, done, seen, chains, working, h);
      PutUsed(h);
      working := working - {h};
      chains := Moved(chains, h, Used);
    }

    /** The request that the next used entry names: it has succeeded. */
    method ReadUsed() returns (id: nat)
      requires Valid() && seen < |done|
      ensures id == done[seen] && id < |info| && id in chains && chains[id].phase == Used
      ensures info[id] == Info(Some(chains[id].buf), 0)
    {
      hide RolesOk, NoneHeld, ChainsOk, ServingOk, RingOk, PendingOk, NumOk, IndexOk, WorkingOk, TransferOk;
      RingAt(usedRing, done, seen, num);
      PendingAt(done, seen, chains, Used);
      RingSize(usedRing, done, seen, num);
      IndexPlace(usedIdx, seen, num, turns);
      id := usedRing[usedIdx % num];
      ChainAt(desc, ops, info, chains, num, id);
    }

    /** One turn of the interrupt handler: the buffer of the request the used entry names is released.
        False is the "status" panic. */
    method IntrOne() returns (ok: bool)
      requires Valid() && seen < |done|
      modifies this`usedIdx, this`busy, this`seen, this`chains
      ensures ok && Valid() && seen == old(seen) + 1
      ensures done[old(seen)] in old(chains) && chains == Moved(old(chains), done[old(seen)], Released)
      ensures busy == old(busy) - {old(chains)[done[old(seen)]].buf}
    {
      hide RolesOk, NoneHeld, ChainsOk, ChainOk, ServingOk, RingOk, PendingOk, NumOk, IndexOk, WorkingOk, Moved, TransferOk;
      var id := ReadUsed();
      if info[id].status != 0 {
        return false;
      }
      IndexPlace(usedIdx, seen, num, turns);
      ReleaseRequest(free, role, chains, num, desc, ops, info, serving, busy, mem, |platter|, id);
      ReleaseReport(posted, fetched, usedRing, done, seen, num, chains, working);
      TransferMove(chains, cargo, clashed, mem, platter, id, Released);
      var b := info[id].b;
      busy := busy - {b.value};
      usedIdx := (usedIdx + 1) % IDXWRAP;
      seen := seen + 1;
      chains := Moved(chains, id, Released);
      ok := true;
    }

    /** The device goes on with its work: it takes a request if one is waiting, or reports one it has
        taken. */
    method DeviceRuns(steps: seq<DeviceStep>)
      requires Valid() && num < IDXWRAP
      modifies this`deviceAvailIdx, this`fetched, this`platter, this`mem, this`info, this`usedRing, this`deviceUsedIdx, this`done, this`chains, this`working
      ensures Valid() && Ahead(old(chains), chains) && old(done) <= done && (steps == [] ==> chains == old(chains) && done == old(done))
    {
      hide RolesOk, NoneHeld, ChainsOk, ServingOk, RingOk, PendingOk, NumOk, IndexOk, WorkingOk, Moved, Ahead, Disk.Valid;
      AheadSame(chains);
      var k := 0;
      while k < |steps|
        invariant 0 <= k <= |steps| && Valid() && Ahead(old(chains), chains) && old(done) <= done
        invariant k == 0 ==> chains == old(chains) && done == old(done)
      {
        ghost var before := chains;
        DeviceMay(steps[k]);
        AheadThrough(old(chains), before, chains);
        k := k + 1;
      }
    }

    method DeviceMay(step: DeviceStep)
      requires Valid() && num < IDXWRAP
      modifies this`deviceAvailIdx, this`fetched, this`platter, this`mem, this`info, this`usedRing, this`deviceUsedIdx, this`done, this`chains, this`working
      ensures Valid() && Ahead(old(chains), chains) && old(done) <= done
    {
      hide RolesOk, NoneHeld, ChainsOk, ServingOk, RingOk, PendingOk, NumOk, IndexOk, WorkingOk, Moved, Ahead, TransferOk;
      AheadSame(chains);
      if step.Fetch? {
        RingSize(availRing, posted, fetched, num);
        IndicesMeet(deviceAvailIdx, fetched, availIdx, |posted|, num, turns);
        if deviceAvailIdx != availIdx {
          var h := DeviceFetch();
          AheadMoved(old(chains), h, AtDevice);
        }
      } else if step.h in working {
        DeviceComplete(step.h);
        AheadMoved(old(chains), step.h, Used);
      }
    }

    /** The interrupt handler, while the device goes on: before each look at the used index it takes some
        steps. Exactly the requests the device has reported are released. */
    method Intr(device: seq<seq<DeviceStep>>) returns (ok: bool)
      requires Valid() && num < IDXWRAP
      modifies this`usedIdx, this`busy, this`seen, this`chains, this`deviceAvailIdx, this`fetched, this`platter, this`mem, this`info, this`usedRing,
               this`deviceUsedIdx, this`done, this`working
      ensures ok && Valid() && old(done) <= done && old(seen) <= seen == |done|
      ensures Handled(old(chains), chains, done, old(seen), seen)
      ensures forall h :: h in chains ==> chains[h].phase != Used && (chains[h].buf in busy <==> !chains[h].phase.Released?)
      ensures device == [] ==>
                && done == old(done) && chains.Keys == old(chains).Keys
                && forall h :: h in chains ==>
                     chains[h] == if old(chains)[h].phase == Used then old(chains)[h].(phase := Released) else old(chains)[h]
    {
      hide RolesOk, NoneHeld, ChainsOk, ServingOk, RingOk, PendingOk, NumOk, IndexOk, WorkingOk, Handled, Ahead, Onward, Moved, OnlyReleased, Disk.Valid;
      SeenBound();
      HandledNone(chains, done, seen);
      OnlyReleasedNone(chains);
      var k := 0;
      while true
        invariant 0 <= k <= |device| && Valid() && old(done) <= done && old(seen) <= seen <= |done|
        invariant Handled(old(chains), chains, done, old(seen), seen)
        invariant device == [] ==> done == old(done) && OnlyReleased(old(chains), chains)
        decreases |device| - k, |done| - seen
      {
        ghost var before, done0 := chains, done;
        if k < |device| {
          DeviceRuns(device[k]);
          HandledAhead(old(chains), before, chains, done0, done, old(seen), seen);
          k := k + 1;
        }
        SeenBound();
        if usedIdx == deviceUsedIdx {
          break;
        }
        before := chains;
        NextUsed();
        ok := IntrOne();
        HandledMore(old(chains), before, done, old(seen), seen - 1);
        if device == [] {
          OnlyReleasedMore(old(chains), before, done[seen - 1]);
        }
      }
      AllReleased();
      if device == [] {
        ReleasedUsed(old(chains), chains);
      }
      ok := true;
    }

    lemma NextUsed()
      requires Valid() && seen < |done|
      ensures done[seen] in chains && chains[done[seen]].phase == Used
    {
      PendingAt(done, seen, chains, Used);
    }

    lemma AllReleased()
      requires Valid() && seen == |done|
      ensures forall h :: h in chains ==> chains[h].phase != Used && (chains[h].buf in busy <==> !chains[h].phase.Released?)
    {
      NoneUsed(done, seen, chains);
      BusyExact(chains, serving, busy, mem, |platter|);
    }

    lemma SeenBound()
      requires Valid() && num < IDXWRAP
      ensures seen <= |done| && (usedIdx == deviceUsedIdx <==> seen == |done|)
    {
      hide RolesOk, NoneHeld, ChainsOk, ServingOk, RingOk, PendingOk, NumOk, IndexOk, WorkingOk, TransferOk;
      RingSize(usedRing, done, seen, num);
      IndicesMeet(usedIdx, seen, deviceUsedIdx, |done|, num, turns);
    }

    /** Free a chain of descriptors, following the links. False is one of the free_desc panics. */
    method FreeChain(h: nat) returns (ok: bool)
      requires RolesOk(free, role, chains, num) && ChainsOk(desc, ops, info, chains, num) && h in chains
      modifies this`free, this`desc
      ensures ok && |free| == |desc| == num
      ensures var c := chains[h];
              && free == old(free)[h := true][c.d1 := true][c.d2 := true]
              && desc == old(desc)[h := BLANK][c.d1 := BLANK][c.d2 := BLANK]
    {
      var i := h;
      ghost var pos, c := 0, chains[h];
      ghost var f0, d0 := free, desc;
      assert ChainOk(desc, ops, info, h, c);
      assert h != c.d1 && h != c.d2 && c.d1 != c.d2 && !free[h] && !free[c.d1] && !free[c.d2];
      hide RolesOk, ChainsOk;
      while true
        invariant 0 <= pos <= 2 && i == MemberAt(h, c, pos) && |free| == |desc| == num
        invariant free == (if pos == 0 then f0 else if pos == 1 then f0[h := true] else f0[h := true][c.d1 := true])
        invariant desc == (if pos == 0 then d0 else if pos == 1 then d0[h := BLANK] else d0[h := BLANK][c.d1 := BLANK])
        decreases 3 - pos
      {
        var flag := desc[i].hasNext;
        var nxt := desc[i].next;
        ok := FreeDesc(i);
        if !ok {
          return;
        }
        if flag {
          i := nxt;
          pos := pos + 1;
        } else {
          break;
        }
      }
    }

    /** The end of virtio_disk_rw, once the buffer is released: the request's descriptors are free
        again and the buffer may be used for another one. If no other request was for the same block
        meanwhile, what was to be moved is in the buffer and on the disk. */
    method Finish(h: nat) returns (ok: bool)
      requires Valid() && h in chains && chains[h].phase == Released
      modifies this`info, this`free, this`desc, this`role, this`chains, this`serving, this`cargo, this`clashed
      ensures ok && Valid()
      ensures h !in old(clashed) ==>
                var c := old(chains)[h];
                && h in old(cargo) && c.buf in mem && c.blockno < |platter|
                && mem[c.buf] == old(cargo)[h] == platter[c.blockno]
      ensures cargo == old(cargo) - {h} && clashed == old(clashed) - {h}
      ensures chains == old(chains) - {h} && serving == old(serving) - {old(chains)[h].buf}
      ensures free == old(free)[h := true][old(chains)[h].d1 := true][old(chains)[h].d2 := true]
    {
      hide RolesOk, NoneHeld, ChainsOk, ChainOk, ServingOk, RingOk, PendingOk, NumOk, IndexOk, WorkingOk, TransferOk;
      if h !in clashed { TransferAt(chains, cargo, clashed, mem, platter, h); }
      ChainAt(desc, ops, info, chains, num, h);
      ChainMembers(desc, ops, info, h, chains[h]);
      RolesSizes(free, role, chains, num);
      ok := FreeChain(h);
      info := info[h := info[h].(b := None)];
      DropRoles(old(free), role, chains, num, h, free);
      DropChains(old(free), role, chains, num, old(desc), ops, old(info), h, desc, info);
      Retire(h, Set3(role, h, chains[h].d1, chains[h].d2, Free, Free, Free));
    }

    /** Bookkeeping for a request whose descriptors have just been freed. */
    ghost method Retire(h: nat, role1: seq<Role>)
      requires h in chains && chains[h].phase == Released && NumOk(num, turns)
      requires RolesOk(free, role1, chains - {h}, num) && NoneHeld(role1) && ChainsOk(desc, ops, info, chains - {h}, num)
      requires ServingOk(chains, serving, busy, mem, |platter|)
      requires RingOk(availRing, posted, fetched, num) && PendingOk(posted, fetched, chains, Posted)
      requires RingOk(usedRing, done, seen, num) && PendingOk(done, seen, chains, Used)
      requires IndexOk(availIdx, |posted|) && IndexOk(deviceUsedIdx, |done|) && IndexOk(usedIdx, seen) && IndexOk(deviceAvailIdx, fetched)
      requires WorkingOk(chains, working) && TransferOk(chains, cargo, clashed, mem, platter)
      modifies this`role, this`chains, this`serving, this`cargo, this`clashed
      ensures cargo == old(cargo) - {h} && clashed == old(clashed) - {h}
      ensures Valid() && chains == old(chains) - {h} && serving == old(serving) - {old(chains)[h].buf}
    {
      hide RolesOk, NoneHeld, ChainsOk, ServingOk, RingOk, PendingOk, NumOk, IndexOk, WorkingOk, TransferOk;
      DropServing(chains, serving, busy, mem, |platter|, h);
      DropPending(posted, fetched, chains, Posted, h);
      DropPending(done, seen, chains, Used, h);
      WorkingDrop(chains, working, h);
      Unload(h);
      role, serving, chains := role1, serving - {chains[h].buf}, chains - {h};
    }
  }
}
