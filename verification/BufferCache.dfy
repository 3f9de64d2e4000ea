// The buffer cache: a fixed pool of buffers on a circular doubly linked list kept in order of
// last release. Buffers are named by their index; index `nbuf` is the list head.
module BufferCache {
  import opened Options
  import opened Blocks
  import opened Counting

  /** What becomes of a bread. */
  datatype Fetch = Got(b: nat) | Asleep(b: nat) | NoBuffers

  datatype Buf = Buf(valid: bool, dev: nat, blockno: nat, locked: bool, refcnt: nat, data: Block)

  // ---- The prev/next ring -------------------------------------------------------------------

  /** Distinct nodes, none of them the head. */
  ghost predicate Nodes(order: seq<nat>, head: nat, n: nat) {
    && head < n
    && (forall i :: 0 <= i < |order| ==> order[i] < n && order[i] != head)
    && (forall i, j :: 0 <= i < j < |order| ==> order[i] != order[j])
  }

  /** `next` and `prev` link exactly the nodes of `order`, in that order, through the head. */
  ghost predicate IsRing(order: seq<nat>, head: nat, prev: seq<nat>, next: seq<nat>) {
    && |prev| == |next|
    && Nodes(order, head, |next|)
    && (forall i, j :: 0 <= i < j < |order| && j == i + 1 ==> next[order[i]] == order[j] && prev[order[j]] == order[i])
    && next[head] == (if order == [] then head else order[0])
    && prev[head] == (if order == [] then head else order[|order|-1])
    && (order != [] ==> prev[order[0]] == head && next[order[|order|-1]] == head)
  }

  ghost function Without(order: seq<nat>, k: nat): (rest: seq<nat>)
    requires k < |order|
    ensures |rest| == |order| - 1
    ensures forall i :: 0 <= i < |rest| ==> rest[i] == if i < k then order[i] else order[i+1]
  {
    order[..k] + order[k+1..]
  }

  lemma WithoutKeepsNodes(order: seq<nat>, head: nat, n: nat, k: nat)
    requires Nodes(order, head, n) && k < |order|
    ensures Nodes(Without(order, k), head, n) && order[k] !in Without(order, k)
  {
  }

  lemma UnlinkKeepsRing(order: seq<nat>, head: nat, prev: seq<nat>, next: seq<nat>, k: nat)
    requires IsRing(order, head, prev, next) && k < |order|
    ensures var b := order[k];
            && next[b] < |prev| && prev[b] < |next|
            && IsRing(Without(order, k), head, prev[next[b] := prev[b]], next[prev[b] := next[b]])
  {
    WithoutKeepsNodes(order, head, |next|, k);
    var b := order[k];
    assert k + 1 < |order| ==> next[b] == order[k+1];
    assert k > 0 ==> prev[b] == order[k-1];
  }

  lemma PushFrontKeepsRing(order: seq<nat>, head: nat, prev: seq<nat>, next: seq<nat>, b: nat)
    requires IsRing(order, head, prev, next)
    requires b < |next| && b != head && b !in order
    ensures next[head] < |prev|
    ensures IsRing([b] + order, head, prev[b := head][next[head] := b], next[b := next[head]][head := b])
  {
    var all := [b] + order;
    var prev' := prev[b := head][next[head] := b];
    var next' := next[b := next[head]][head := b];
    forall i, j | 0 <= i < j < |all| && j == i + 1
      ensures next'[all[i]] == all[j] && prev'[all[j]] == all[i]
    {
      assert all[j] == order[i];
      if i > 0 {
        assert all[i] == order[i-1];
      }
    }
  }

  // ---- Bindings and contents ------------------------------------------------------------------

  /** Every buffer is unbound (device 0) or is the only one bound to its block. */
  ghost predicate Bound(buf: seq<Buf>, index: map<nat, nat>, dev: nat, size: nat) {
    && dev != 0
    && (forall i :: 0 <= i < |buf| && buf[i].dev != 0 ==>
          buf[i].dev == dev && buf[i].blockno < size &&
          buf[i].blockno in index && index[buf[i].blockno] == i)
    && (forall b :: b in index ==> index[b] < |buf| && buf[index[b]].dev == dev && buf[index[b]].blockno == b)
  }

  /** The logical contents of block b: the cached copy if there is one, the disk's otherwise. */
  ghost function Contents(buf: seq<Buf>, index: map<nat, nat>, disk: seq<Block>, b: nat): Block
    requires b < |disk|
  {
    if b in index && index[b] < |buf| && buf[index[b]].valid then buf[index[b]].data else disk[b]
  }

  /** `view` is the logical contents, and unreferenced buffers are clean. */
  ghost predicate Coherent(buf: seq<Buf>, index: map<nat, nat>, disk: seq<Block>, view: seq<Block>)
  {
    && |view| == |disk|
    && (forall b :: 0 <= b < |disk| ==> view[b] == Contents(buf, index, disk, b))
    && (forall b :: b in index && b < |disk| && index[b] < |buf| && buf[index[b]].refcnt == 0 ==> view[b] == disk[b])
  }

  /** `held` are the blocks whose buffer is locked, `pinned` the pins on each block, and `waiting` the
      processes that have a reference and wait for the lock: a buffer has exactly these references, and
      only bound buffers are referenced. */
  ghost predicate Counted(buf: seq<Buf>, index: map<nat, nat>, held: set<nat>, pinned: multiset<nat>, waiting: multiset<nat>) {
    && (forall i :: 0 <= i < |buf| && buf[i].dev == 0 ==> buf[i].refcnt == 0 && !buf[i].locked)
    && (forall b :: b in index && index[b] < |buf| ==>
          && (b in held <==> buf[index[b]].locked)
          && buf[index[b]].refcnt == pinned[b] + waiting[b] + if b in held then 1 else 0)
    && (forall b :: b in held ==> b in index)
    && (forall b :: b in pinned ==> b in index)
    && (forall b :: b in waiting ==> b in index)
  }

  /** The blocks some process refers to. */
  ghost function Referenced(held: set<nat>, pinned: multiset<nat>, waiting: multiset<nat>): (r: set<nat>)
    ensures forall b :: b in r <==> b in held || b in pinned || b in waiting
  {
    held + (set b | b in pinned) + (set b | b in waiting)
  }

  /** bget finds no buffer for the block. */
  ghost predicate NoBuffer(held: set<nat>, pinned: multiset<nat>, waiting: multiset<nat>, nbuf: nat, blockno: nat) {
    blockno !in Referenced(held, pinned, waiting) && |Referenced(held, pinned, waiting)| >= nbuf
  }

  /** The ring holds every buffer, the most recently released one first. */
  ghost predicate Aged(order: seq<nat>, stamp: seq<nat>, clock: nat) {
    && |order| == |stamp|
    && (forall i :: 0 <= i < |order| ==> order[i] < |stamp|)
    && (forall i :: 0 <= i < |stamp| ==> stamp[i] < clock)
    && (forall i, j :: 0 <= i < j < |order| ==> stamp[order[i]] > stamp[order[j]])
  }

  lemma AgedHasAll(order: seq<nat>, stamp: seq<nat>, clock: nat, i: nat)
    requires Aged(order, stamp, clock) && i < |stamp|
    ensures i in order
  {
    HasAll(order, |stamp|, i);
  }

  ghost predicate Free(buf: seq<Buf>, i: int) {
    0 <= i < |buf| && buf[i].refcnt == 0
  }

  lemma FreeIs(buf: seq<Buf>, i: nat)
    requires i < |buf|
    ensures Free(buf, i) <==> buf[i].refcnt == 0
  {
  }

  lemma RingSizes(order: seq<nat>, stamp: seq<nat>, clock: nat, head: nat, prev: seq<nat>, next: seq<nat>)
    requires Aged(order, stamp, clock) && IsRing(order, head, prev, next) && |stamp| == head && |prev| == head + 1
    ensures |order| == head && forall i :: 0 <= i < |order| ==> order[i] < head
  {
  }

  /** Going back from the buffer at place k, or from the head if that is the length. */
  lemma RingBack(order: seq<nat>, head: nat, prev: seq<nat>, next: seq<nat>, k: nat)
    requires IsRing(order, head, prev, next) && k <= |order|
    ensures var b := if k < |order| then order[k] else head;
            b < |prev| && prev[b] == if k > 0 then order[k-1] else head
  {
  }

  /** The last of the ring that is free has been free for longest. */
  lemma OldestFree(order: seq<nat>, stamp: seq<nat>, clock: nat, buf: seq<Buf>, k: nat)
    requires Aged(order, stamp, clock) && |stamp| == |buf| == |order| && 0 < k <= |order| && order[k-1] < |buf|
    requires forall j :: k <= j < |order| ==> !Free(buf, order[j])
    ensures forall i :: Free(buf, i) ==> 0 <= i < |stamp| && stamp[order[k-1]] <= stamp[i]
  {
    forall i | Free(buf, i)
      ensures stamp[order[k-1]] <= stamp[i]
    {
      AgedHasAll(order, stamp, clock, i);
      var j :| 0 <= j < |order| && order[j] == i;
      assert j <= k - 1;
    }
  }

  lemma NoneFree(order: seq<nat>, stamp: seq<nat>, clock: nat, buf: seq<Buf>)
    requires Aged(order, stamp, clock) && |stamp| == |buf| == |order|
    requires forall j :: 0 <= j < |order| ==> !Free(buf, order[j])
    ensures forall i :: 0 <= i < |buf| ==> !Free(buf, i)
  {
    forall i | 0 <= i < |buf|
      ensures !Free(buf, i)
    {
      AgedHasAll(order, stamp, clock, i);
    }
  }

  /** The position of b in the ring; the length if it is not there. */
  ghost function Position(order: seq<nat>, b: nat): (k: nat)
    ensures k <= |order|
    ensures k < |order| ==> order[k] == b
    ensures k == |order| ==> b !in order
  {
    if order == [] then 0 else if order[0] == b then 0 else 1 + Position(order[1..], b)
  }

  ghost function MoveToFront(order: seq<nat>, b: nat): seq<nat> {
    var k := Position(order, b);
    if k < |order| then [b] + Without(order, k) else order
  }

  lemma MoveToFrontAt(order: seq<nat>, b: nat, i: nat)
    requires b in order && i < |order|
    ensures |MoveToFront(order, b)| == |order|
    ensures MoveToFront(order, b)[i] ==
            if i == 0 then b else if i <= Position(order, b) then order[i-1] else order[i]
  {
  }

  lemma MoveToFrontKeepsAge(order: seq<nat>, stamp: seq<nat>, clock: nat, b: nat)
    requires Aged(order, stamp, clock) && b in order
    ensures Aged(MoveToFront(order, b), stamp[b := clock], clock + 1)
  {
    hide MoveToFront;
    var k := Position(order, b);
    var order' := MoveToFront(order, b);
    MoveToFrontAt(order, b, 0);
    forall i | 0 <= i < |order'|
      ensures order'[i] < |stamp|
    {
      MoveToFrontAt(order, b, i);
    }
    forall i, j | 0 <= i < j < |order'|
      ensures stamp[b := clock][order'[i]] > stamp[b := clock][order'[j]]
    {
      MoveToFrontAt(order, b, i);
      MoveToFrontAt(order, b, j);
      var j0 := if j <= k then j - 1 else j;
      assert stamp[order[j0]] != stamp[order[k]];
      if i > 0 {
        var i0 := if i <= k then i - 1 else i;
        assert stamp[order[i0]] != stamp[order[k]];
        assert stamp[order[i0]] > stamp[order[j0]];
      }
    }
  }

  lemma MoveToFrontKeepsRing(order: seq<nat>, head: nat, prev: seq<nat>, next: seq<nat>, b: nat)
    requires IsRing(order, head, prev, next) && b in order
    ensures b < |next| == |prev| && next[b] < |prev| && prev[b] < |next|
    ensures var prev1, next1 := prev[next[b] := prev[b]], next[prev[b] := next[b]];
            && next1[head] < |prev|
            && IsRing(MoveToFront(order, b), head, prev1[b := head][next1[head] := b], next1[b := next1[head]][head := b])
  {
    var k := Position(order, b);
    UnlinkKeepsRing(order, head, prev, next, k);
    WithoutKeepsNodes(order, head, |next|, k);
    var prev1, next1 := prev[next[b] := prev[b]], next[prev[b] := next[b]];
    hide IsRing;
    PushFrontKeepsRing(Without(order, k), head, prev1, next1, b);
  }

  ghost function Unbind(index: map<nat, nat>, b: Buf): map<nat, nat> {
    if b.dev != 0 then index - {b.blockno} else index
  }

  lemma RebindKeeps(buf: seq<Buf>, index: map<nat, nat>, disk: seq<Block>, view: seq<Block>, dev: nat, i: nat, blockno: nat)
    requires Bound(buf, index, dev, |disk|) && Coherent(buf, index, disk, view)
    requires i < |buf| && buf[i].refcnt == 0 && blockno < |disk| && blockno !in index
    ensures var buf' := buf[i := buf[i].(dev := dev, blockno := blockno, valid := false, refcnt := 1)];
            var index' := Unbind(index, buf[i])[blockno := i];
            Bound(buf', index', dev, |disk|) && Coherent(buf', index', disk, view)
  {
    var buf' := buf[i := buf[i].(dev := dev, blockno := blockno, valid := false, refcnt := 1)];
    var index' := Unbind(index, buf[i])[blockno := i];
    forall b | 0 <= b < |disk|
      ensures view[b] == Contents(buf', index', disk, b)
    {
      assert view[b] == Contents(buf, index, disk, b);
    }
  }

  /** Changing a buffer's counts and lock, or filling it with its block, keeps bindings and contents. */
  lemma TouchKeeps(buf: seq<Buf>, index: map<nat, nat>, disk: seq<Block>, view: seq<Block>, dev: nat, i: nat, b: Buf)
    requires Bound(buf, index, dev, |disk|) && Coherent(buf, index, disk, view)
    requires i < |buf| && b.dev == buf[i].dev && b.blockno == buf[i].blockno
    requires (b.valid == buf[i].valid && b.data == buf[i].data) ||
             (b.dev == dev && b.valid && b.data == view[b.blockno])
    requires b.refcnt == 0 && b.dev == dev ==> view[b.blockno] == disk[b.blockno]
    ensures Bound(buf[i := b], index, dev, |disk|) && Coherent(buf[i := b], index, disk, view)
  {
    forall c | 0 <= c < |disk|
      ensures view[c] == Contents(buf[i := b], index, disk, c)
    {
      assert view[c] == Contents(buf, index, disk, c);
    }
  }

  /** Reading the disk into an invalid buffer gives it its block's logical contents. */
  lemma FillKeeps(buf: seq<Buf>, index: map<nat, nat>, disk: seq<Block>, view: seq<Block>, dev: nat, i: nat)
    requires Bound(buf, index, dev, |disk|) && Coherent(buf, index, disk, view)
    requires i < |buf| && buf[i].dev == dev && buf[i].refcnt > 0
    ensures buf[i].blockno < |disk| && |view| == |disk|
    ensures view[buf[i].blockno] == if buf[i].valid then buf[i].data else disk[buf[i].blockno]
    ensures var b := buf[i].(valid := true, data := view[buf[i].blockno]);
            Bound(buf[i := b], index, dev, |disk|) && Coherent(buf[i := b], index, disk, view)
  {
    assert view[buf[i].blockno] == Contents(buf, index, disk, buf[i].blockno);
    TouchKeeps(buf, index, disk, view, dev, i, buf[i].(valid := true, data := view[buf[i].blockno]));
  }

  /** Rebinding a free buffer loses no lock and no pin. */
  lemma RebindKeepsCounts(buf: seq<Buf>, index: map<nat, nat>, held: set<nat>, pinned: multiset<nat>, waiting: multiset<nat>,
                          dev: nat, size: nat, i: nat, blockno: nat)
    requires Bound(buf, index, dev, size) && Counted(buf, index, held, pinned, waiting)
    requires i < |buf| && buf[i].refcnt == 0 && blockno !in index
    ensures var buf' := buf[i := buf[i].(dev := dev, blockno := blockno, valid := false, refcnt := 1)];
            var index' := Unbind(index, buf[i])[blockno := i];
            Counted(buf', index', held, pinned, waiting + multiset{blockno})
    ensures !buf[i].locked && blockno !in pinned && blockno !in held && blockno !in waiting
  {
    hide Bound, Unbind;
    RebindIndex(buf, index, dev, size, i, blockno);
    OneMore(waiting, blockno);
  }

  lemma RebindIndex(buf: seq<Buf>, index: map<nat, nat>, dev: nat, size: nat, i: nat, blockno: nat)
    requires Bound(buf, index, dev, size) && i < |buf| && blockno !in index
    ensures var index' := Unbind(index, buf[i])[blockno := i];
            && (forall b :: b in index' ==> b == blockno || (b in index && index[b] != i && index[b] < |buf| && index'[b] == index[b]))
            && (forall b :: b in index && index[b] != i ==> b in index')
            && index'[blockno] == i
    ensures dev != 0 && (buf[i].dev != 0 ==> buf[i].blockno in index && index[buf[i].blockno] == i)
    ensures forall b :: b in index && index[b] == i ==> buf[i].dev != 0
  {
  }

  lemma OneLess(waiting: multiset<nat>, blockno: nat)
    ensures waiting + multiset{blockno} - multiset{blockno} == waiting && blockno in waiting + multiset{blockno}
  {
  }

  lemma OneMore(waiting: multiset<nat>, blockno: nat)
    ensures forall b :: (waiting + multiset{blockno})[b] == waiting[b] + if b == blockno then 1 else 0
  {
  }

  lemma LockedIsBound(buf: seq<Buf>, index: map<nat, nat>, held: set<nat>, pinned: multiset<nat>, waiting: multiset<nat>, i: nat)
    requires Counted(buf, index, held, pinned, waiting) && i < |buf| && buf[i].locked
    ensures buf[i].dev != 0
  {
  }

  /** New bytes in a referenced buffer are the block's new logical contents. */
  lemma RewriteKeeps(buf: seq<Buf>, index: map<nat, nat>, disk: seq<Block>, view: seq<Block>, dev: nat, i: nat, data: Block)
    requires Bound(buf, index, dev, |disk|) && Coherent(buf, index, disk, view)
    requires i < |buf| && buf[i].dev == dev && buf[i].refcnt > 0 && buf[i].valid && buf[i].blockno < |view|
    ensures var buf' := buf[i := buf[i].(data := data)];
            Bound(buf', index, dev, |disk|) && Coherent(buf', index, disk, view[buf[i].blockno := data])
  {
    var buf', view' := buf[i := buf[i].(data := data)], view[buf[i].blockno := data];
    forall c | 0 <= c < |disk|
      ensures view'[c] == Contents(buf', index, disk, c)
    {
      assert view[c] == Contents(buf, index, disk, c);
    }
  }

  /** Writing a buffer to disk does not change any block's logical contents. */
  lemma WriteKeeps(buf: seq<Buf>, index: map<nat, nat>, disk: seq<Block>, view: seq<Block>, dev: nat, i: nat)
    requires Bound(buf, index, dev, |disk|) && Coherent(buf, index, disk, view)
    requires i < |buf| && buf[i].dev == dev && buf[i].valid && buf[i].blockno < |disk|
    ensures Coherent(buf, index, disk[buf[i].blockno := buf[i].data], view)
  {
    var disk' := disk[buf[i].blockno := buf[i].data];
    forall c | 0 <= c < |disk|
      ensures view[c] == Contents(buf, index, disk', c)
    {
      assert view[c] == Contents(buf, index, disk, c);
    }
  }

  lemma CountAt(buf: seq<Buf>, index: map<nat, nat>, held: set<nat>, pinned: multiset<nat>, waiting: multiset<nat>, dev: nat, size: nat, i: nat)
    requires Bound(buf, index, dev, size) && Counted(buf, index, held, pinned, waiting)
    requires i < |buf| && buf[i].dev != 0
    ensures buf[i].dev == dev && buf[i].blockno < size
    ensures buf[i].blockno in held <==> buf[i].locked
    ensures buf[i].refcnt == pinned[buf[i].blockno] + waiting[buf[i].blockno] + if buf[i].locked then 1 else 0
  {
  }

  /** New counts on one bound buffer. */
  lemma RecountKeeps(buf: seq<Buf>, index: map<nat, nat>, held: set<nat>, pinned: multiset<nat>, waiting: multiset<nat>, dev: nat, size: nat,
                     i: nat, b: Buf, held': set<nat>, pinned': multiset<nat>, waiting': multiset<nat>)
    requires Bound(buf, index, dev, size) && Counted(buf, index, held, pinned, waiting)
    requires i < |buf| && b.dev == buf[i].dev != 0 && b.blockno == buf[i].blockno
    requires b.blockno in held' <==> b.locked
    requires forall c :: c != b.blockno ==> (c in held' <==> c in held)
    requires forall c :: c != b.blockno ==> pinned'[c] == pinned[c] && waiting'[c] == waiting[c]
    requires b.refcnt == pinned'[b.blockno] + waiting'[b.blockno] + if b.locked then 1 else 0
    ensures Counted(buf[i := b], index, held', pinned', waiting')
  {
    assert forall c :: c != b.blockno ==> (c in pinned' <==> c in pinned) && (c in waiting' <==> c in waiting);
  }

  /** The buffers of the given cached blocks. */
  ghost function BuffersOf(index: map<nat, nat>, blocks: set<nat>): (s: set<nat>)
    requires forall b :: b in blocks ==> b in index
  {
    set b | b in blocks :: index[b]
  }

  lemma {:induction false} BuffersCount(buf: seq<Buf>, index: map<nat, nat>, dev: nat, size: nat, blocks: set<nat>)
    requires Bound(buf, index, dev, size) && forall b :: b in blocks ==> b in index
    ensures |BuffersOf(index, blocks)| == |blocks| && forall i :: i in BuffersOf(index, blocks) ==> i < |buf|
  {
    if blocks != {} {
      var b :| b in blocks;
      var rest := blocks - {b};
      BuffersCount(buf, index, dev, size, rest);
      assert BuffersOf(index, blocks) == BuffersOf(index, rest) + {index[b]};
      assert forall c :: c in rest ==> buf[index[c]].blockno == c;
    }
  }

  /** Every buffer is referenced exactly when as many blocks are referenced as there are buffers. */
  lemma AllReferenced(buf: seq<Buf>, index: map<nat, nat>, held: set<nat>, pinned: multiset<nat>, waiting: multiset<nat>, dev: nat, size: nat)
    requires Bound(buf, index, dev, size) && Counted(buf, index, held, pinned, waiting)
    ensures |Referenced(held, pinned, waiting)| >= |buf| <==> forall i :: 0 <= i < |buf| ==> !Free(buf, i)
    ensures forall b :: b in Referenced(held, pinned, waiting) ==> b in index
    ensures forall b :: b in index && !Free(buf, index[b]) ==> b in Referenced(held, pinned, waiting)
  {
    var r := Referenced(held, pinned, waiting);
    var s := BuffersOf(index, r);
    BuffersCount(buf, index, dev, size, r);
    assert s <= Below(|buf|);
    ReferencedBuffers(buf, index, held, pinned, waiting, dev, size);
    assert (forall i :: 0 <= i < |buf| ==> !Free(buf, i)) ==> s == Below(|buf|);
    if |r| >= |buf| { FullSubset(s, |buf|); }
  }

  lemma ReferencedBuffers(buf: seq<Buf>, index: map<nat, nat>, held: set<nat>, pinned: multiset<nat>, waiting: multiset<nat>, dev: nat, size: nat)
    requires Bound(buf, index, dev, size) && Counted(buf, index, held, pinned, waiting)
    ensures forall i :: 0 <= i < |buf| ==> (i in BuffersOf(index, Referenced(held, pinned, waiting)) <==> !Free(buf, i))
  {
    var r := Referenced(held, pinned, waiting);
    forall i | 0 <= i < |buf| ensures i in BuffersOf(index, r) <==> !Free(buf, i) {
      assert buf[i].refcnt > 0 ==> buf[i].blockno in r && index[buf[i].blockno] == i;
    }
  }

  lemma FullSubset(s: set<nat>, n: nat)
    requires s <= Below(n) && |s| >= n
    ensures s == Below(n)
  {
    if i: nat :| i < n && i !in s {
      SubsetSize(s, Below(n) - {i});
    }
  }

  lemma HeldHasBuffer(buf: seq<Buf>, index: map<nat, nat>, held: set<nat>, pinned: multiset<nat>, waiting: multiset<nat>, dev: nat, size: nat, blockno: nat)
    requires Bound(buf, index, dev, size) && Counted(buf, index, held, pinned, waiting)
    ensures blockno in held ==> blockno in index
    ensures forall i :: 0 <= i < |buf| && buf[i].locked ==> buf[i].dev != 0
    ensures forall i :: 0 <= i < |buf| && buf[i].locked && blockno in index && index[blockno] == i ==> buf[i].blockno == blockno
    ensures forall i :: 0 <= i < |buf| && Free(buf, i) ==> !buf[i].locked
  {
    forall i | 0 <= i < |buf| && Free(buf, i) ensures !buf[i].locked {
      if buf[i].dev != 0 { CountAt(buf, index, held, pinned, waiting, dev, size, i); }
    }
  }

  /** bget's panic, said of the references alone. */
  lemma NoBufferIs(buf: seq<Buf>, index: map<nat, nat>, held: set<nat>, pinned: multiset<nat>, waiting: multiset<nat>, dev: nat, size: nat, blockno: nat)
    requires Bound(buf, index, dev, size) && Counted(buf, index, held, pinned, waiting)
    ensures NoBuffer(held, pinned, waiting, |buf|, blockno) <==> blockno !in index && forall i :: 0 <= i < |buf| ==> !Free(buf, i)
  {
    hide Counted, Referenced, Free;
    AllReferenced(buf, index, held, pinned, waiting, dev, size);
    assert blockno in index ==> index[blockno] < |buf|;
  }

  function Unbound(): Buf {
    Buf(false, 0, 0, false, 0, ZeroBlock())
  }

  ghost function Descending(n: nat): seq<nat> {
    seq(n, i requires 0 <= i < n => n - 1 - i)
  }

  lemma DescendingAged(n: nat)
    ensures Aged(Descending(n), seq(n, i => i), n)
  {
  }

  /** Build the list by pushing every buffer right after the head. */
  method LinkAll(nbuf: nat) returns (prev: seq<nat>, next: seq<nat>)
    ensures |prev| == |next| == nbuf + 1
    ensures IsRing(Descending(nbuf), nbuf, prev, next)
  {
    prev := seq(nbuf + 1, _ => nbuf);
    next := seq(nbuf + 1, _ => nbuf);
    assert Descending(0) == [];
    var b := 0;
    while b < nbuf
      invariant 0 <= b <= nbuf && |prev| == |next| == nbuf + 1
      invariant IsRing(Descending(b), nbuf, prev, next)
    {
      PushFrontKeepsRing(Descending(b), nbuf, prev, next, b);
      assert [b] + Descending(b) == Descending(b+1);
      hide IsRing, Descending;
      next := next[b := next[nbuf]];
      prev := prev[b := nbuf];
      prev := prev[next[nbuf] := b];
      next := next[nbuf := b];
      b := b + 1;
    }
  }

  // ---- The cache ------------------------------------------------------------------------------

  class Bcache {
    const nbuf: nat
    const dev: nat               // the one disk device

    var disk: seq<Block>         // what is on the platter
    var buf: seq<Buf>
    var prev: seq<nat>
    var next: seq<nat>

    // Ghost state: the logical contents of every block, the ring in order, the buffer bound to
    // each cached block, the blocks whose buffer is locked, the pins on each block and the processes
    // that wait for its lock, when each buffer was last moved to the front, and the disk after every block write so far.
    ghost var view: seq<Block>
    ghost var order: seq<nat>
    ghost var index: map<nat, nat>
    ghost var held: set<nat>
    ghost var pinned: multiset<nat>
    ghost var waiting: multiset<nat>
    ghost var stamp: seq<nat>
    ghost var clock: nat
    ghost var history: seq<seq<Block>>

    ghost predicate Valid()
      reads this
    {
      && dev != 0
      && |buf| == nbuf && |stamp| == nbuf && |prev| == nbuf + 1 && |next| == nbuf + 1
      && IsRing(order, nbuf, prev, next)
      && Aged(order, stamp, clock)
      && Bound(buf, index, dev, |disk|)
      && Coherent(buf, index, disk, view)
      && Counted(buf, index, held, pinned, waiting)
      && history != [] && history[|history|-1] == disk
    }

    constructor (nbuf: nat, dev: nat, disk: seq<Block>)
      requires dev != 0
      ensures Valid() && this.nbuf == nbuf && this.dev == dev && this.disk == disk && view == disk
      ensures buf == seq(nbuf, _ => Unbound()) && held == {} && pinned == multiset{} == waiting
      ensures history == [disk] && index == map[] && order == Descending(nbuf)
    {
      hide IsRing, Aged, Descending;
      this.nbuf, this.dev, this.disk, this.view := nbuf, dev, disk, disk;
      this.buf := seq(nbuf, _ => Unbound());
      this.held, this.pinned, this.waiting := {}, multiset{}, multiset{};
      this.history := [disk];
      this.index := map[];
      var p, n := LinkAll(nbuf);
      this.prev, this.next := p, n;
      this.order := Descending(nbuf);
      this.stamp := seq(nbuf, i => i);
      this.clock := nbuf;
      DescendingAged(nbuf);
    }

    /** First scan of a lookup: forwards from the head for the block's buffer. */
    method FindCached(blockno: nat) returns (b: nat)
      requires Valid()
      ensures b == nbuf <==> blockno !in index
      ensures blockno in index ==> b == index[blockno]
      ensures b <= nbuf && (b < nbuf ==> buf[b].dev == dev && buf[b].blockno == blockno)
    {
      b := next[nbuf];
      ghost var k := 0;
      while b != nbuf
        invariant 0 <= k <= nbuf && b == (if k < nbuf then order[k] else nbuf)
        invariant forall j :: 0 <= j < k ==> !(buf[order[j]].dev == dev && buf[order[j]].blockno == blockno)
        decreases nbuf - k
      {
        assert k < nbuf && b == order[k];
        if buf[b].dev == dev && buf[b].blockno == blockno {
          return;
        }
        assert k + 1 < nbuf ==> next[order[k]] == order[k+1];
        b := next[b];
        k := k + 1;
      }
      ghost var i := if blockno in index then index[blockno] else nbuf;
      if i < nbuf {
        AgedHasAll(order, stamp, clock, i);
      }
    }

    /** Second scan: backwards from the head for a free buffer; it finds the one released longest ago. */
    method FindFree() returns (b: nat)
      requires Valid()
      ensures b <= nbuf
      ensures b < nbuf ==> Free(buf, b) && forall i :: Free(buf, i) ==> stamp[b] <= stamp[i]
      ensures b == nbuf <==> forall i :: 0 <= i < nbuf ==> !Free(buf, i)
    {
      hide IsRing, Aged, Bound, Coherent, Counted, Free;
      RingSizes(order, stamp, clock, nbuf, prev, next);
      RingBack(order, nbuf, prev, next, nbuf);
      b := prev[nbuf];
      ghost var k := nbuf;
      while b != nbuf
        invariant 0 <= k <= nbuf && b == (if k > 0 then order[k-1] else nbuf)
        invariant forall j :: k <= j < nbuf ==> !Free(buf, order[j])
        decreases k
      {
        FreeIs(buf, b);
        if buf[b].refcnt == 0 {
          OldestFree(order, stamp, clock, buf, k);
          return;
        }
        RingBack(order, nbuf, prev, next, k - 1);
        b := prev[b];
        k := k - 1;
      }
      NoneFree(order, stamp, clock, buf);
    }

    /** The locked part of a lookup: take a reference to the block's buffer, or rebind the free
        buffer released longest ago. None is the "no buffers" panic. */
    method Bget(blockno: nat) returns (r: Option<nat>)
      requires Valid() && blockno < |disk|
      modifies this`buf, this`index, this`waiting
      ensures Valid()
      ensures r.Some? ==> r.value < nbuf && buf[r.value].dev == dev && buf[r.value].blockno == blockno
      ensures r.Some? ==> (buf[r.value].locked <==> blockno in held) && waiting == old(waiting) + multiset{blockno}
      // panics exactly when the block is not cached and no buffer is free
      ensures r.None? <==> blockno !in old(index) && forall i :: 0 <= i < nbuf ==> !Free(old(buf), i)
      ensures r.None? ==> buf == old(buf) && index == old(index) && waiting == old(waiting)
      // already cached
      ensures blockno in old(index) ==>
                && index == old(index) && r == Some(index[blockno])
                && buf == old(buf)[r.value := old(buf)[r.value].(refcnt := old(buf)[r.value].refcnt + 1)]
      // recycled
      ensures blockno !in old(index) && r.Some? ==>
                && Free(old(buf), r.value)
                && (forall i :: Free(old(buf), i) ==> stamp[r.value] <= stamp[i])
                && index == Unbind(old(index), old(buf)[r.value])[blockno := r.value]
                && buf == old(buf)[r.value := old(buf)[r.value].(dev := dev, blockno := blockno, valid := false, refcnt := 1)]
    {
      hide IsRing, Aged, Bound, Coherent, Counted;
      var b := FindCached(blockno);
      if b != nbuf {
        CountAt(buf, index, held, pinned, waiting, dev, |disk|, b);
        ghost var more := buf[b].(refcnt := buf[b].refcnt + 1);
        TouchKeeps(buf, index, disk, view, dev, b, more);
        RecountKeeps(buf, index, held, pinned, waiting, dev, |disk|, b, more, held, pinned, waiting + multiset{blockno});
        buf := buf[b := buf[b].(refcnt := buf[b].refcnt + 1)];
        waiting := waiting + multiset{blockno};
        return Some(b);
      }
      b := FindFree();
      if b == nbuf {
        return None;
      }
      RebindKeeps(buf, index, disk, view, dev, b, blockno);
      RebindKeepsCounts(buf, index, held, pinned, waiting, dev, |disk|, b, blockno);
      index := Unbind(index, buf[b])[blockno := b];
      buf := buf[b := buf[b].(dev := dev, blockno := blockno, valid := false, refcnt := 1)];
      waiting := waiting + multiset{blockno};
      return Some(b);
    }

    /** The caller holds buffer i, filled with block b. */
    ghost predicate Holds(i: nat, b: nat)
      reads this
    {
      && i < nbuf == |buf| && b < |view| == |disk|
      && buf[i] == Buf(true, dev, b, true, buf[i].refcnt, view[b])
      && b in held
    }

    /** One try at the buffer's sleep lock, by a process that waits for it: it gets the lock exactly when
        no one else has it, and otherwise goes on waiting. */
    method AcquireSleep(b: nat) returns (got: bool)
      requires Valid() && b < nbuf && buf[b].dev != 0 && buf[b].blockno in waiting
      modifies this`buf, this`held, this`waiting
      ensures Valid() && (got <==> !old(buf)[b].locked)
      ensures got ==>
                && held == old(held) + {buf[b].blockno} && waiting == old(waiting) - multiset{buf[b].blockno}
                && buf == old(buf)[b := old(buf)[b].(locked := true)]
      ensures !got ==> buf == old(buf) && held == old(held) && waiting == old(waiting)
    {
      hide IsRing, Aged, Bound, Coherent, Counted;
      CountAt(buf, index, held, pinned, waiting, dev, |disk|, b);
      if buf[b].locked {
        return false;
      }
      ghost var taken := buf[b].(locked := true);
      TouchKeeps(buf, index, disk, view, dev, b, taken);
      RecountKeeps(buf, index, held, pinned, waiting, dev, |disk|, b, taken, held + {taken.blockno}, pinned, waiting - multiset{taken.blockno});
      held, waiting := held + {buf[b].blockno}, waiting - multiset{buf[b].blockno};
      buf := buf[b := buf[b].(locked := true)];
      return true;
    }

    /** A locked buffer with the latest contents of the block; or the caller sleeps on the buffer, which
        is locked; or bget panics. */
    method Bread(blockno: nat) returns (r: Fetch)
      requires Valid() && blockno < |disk|
      modifies this`buf, this`index, this`held, this`waiting
      ensures Valid()
      ensures r.Got? ==> Holds(r.b, blockno) && held == old(held) + {blockno} && waiting == old(waiting)
      ensures forall i :: 0 <= i < nbuf && ((old(buf)[i].locked && old(buf)[i].blockno != blockno) || (!r.NoBuffers? && i != r.b)) ==> buf[i] == old(buf)[i]
      ensures r.Asleep? <==> blockno in old(held)
      ensures r.Asleep? ==> held == old(held) && waiting == old(waiting) + multiset{blockno}
      // panics exactly when as many blocks are referenced as there are buffers, and not this one
      ensures r.NoBuffers? <==> NoBuffer(old(held), pinned, old(waiting), nbuf, blockno)
      ensures r.NoBuffers? ==> buf == old(buf) && held == old(held) && waiting == old(waiting)
    {
      hide Bcache.Valid, NoBuffer;
      r := Claim(blockno);
      if r.Got? {
        Fill(r.b);
      }
    }

    /** The block's buffer, locked by this caller, or not. */
    method Claim(blockno: nat) returns (r: Fetch)
      requires Valid() && blockno < |disk|
      modifies this`buf, this`index, this`held, this`waiting
      ensures Valid()
      ensures r.Got? ==>
                && r.b < nbuf == |buf| && buf[r.b].locked && buf[r.b].blockno == blockno
                && held == old(held) + {blockno} && waiting == old(waiting)
      ensures forall i :: 0 <= i < nbuf && ((old(buf)[i].locked && old(buf)[i].blockno != blockno) || (!r.NoBuffers? && i != r.b)) ==> buf[i] == old(buf)[i]
      ensures r.Asleep? <==> blockno in old(held)
      ensures r.Asleep? ==> held == old(held) && waiting == old(waiting) + multiset{blockno}
      ensures r.NoBuffers? <==> NoBuffer(old(held), pinned, old(waiting), nbuf, blockno)
      ensures r.NoBuffers? ==> buf == old(buf) && held == old(held) && waiting == old(waiting)
    {
      hide Bcache.Valid, Free, NoBuffer;
      BeforeBread(blockno);
      OneLess(waiting, blockno);
      var b := Bget(blockno);
      if b.None? {
        return NoBuffers;
      }
      var got := AcquireSleep(b.value);
      return if got then Got(b.value) else Asleep(b.value);
    }

    lemma BeforeBread(blockno: nat)
      requires Valid() && blockno < |disk|
      ensures |buf| == nbuf && dev != 0
      ensures NoBuffer(held, pinned, waiting, nbuf, blockno) <==> blockno !in index && forall i :: 0 <= i < nbuf ==> !Free(buf, i)
      ensures blockno in held ==> blockno in index
      ensures forall i :: 0 <= i < nbuf && buf[i].locked && blockno in index && index[blockno] == i ==> buf[i].blockno == blockno
      ensures forall i :: 0 <= i < nbuf && Free(buf, i) ==> !buf[i].locked
    {
      hide IsRing, Aged, Bound, Coherent, Counted, Free, NoBuffer;
      NoBufferIs(buf, index, held, pinned, waiting, dev, |disk|, blockno);
      HeldHasBuffer(buf, index, held, pinned, waiting, dev, |disk|, blockno);
    }

    /** Read the disk into a buffer that does not have its block yet. */
    method Fill(b: nat)
      requires Valid() && b < nbuf && buf[b].locked
      modifies this`buf
      ensures Valid() && Holds(b, old(buf)[b].blockno)
      ensures forall i :: 0 <= i < nbuf && i != b ==> buf[i] == old(buf)[i]
    {
      hide IsRing, Aged, Bound, Coherent, Counted;
      LockedIsBound(buf, index, held, pinned, waiting, b);
      CountAt(buf, index, held, pinned, waiting, dev, |disk|, b);
      FillKeeps(buf, index, disk, view, dev, b);
      if !buf[b].valid {
        ghost var filled := buf[b].(valid := true, data := view[buf[b].blockno]);
        RecountKeeps(buf, index, held, pinned, waiting, dev, |disk|, b, filled, held, pinned, waiting);
        ghost var was := buf;
        buf := buf[b := buf[b].(data := disk[buf[b].blockno])];
        buf := buf[b := buf[b].(valid := true)];
        assert buf == was[b := filled];
      }
    }

    /** The holder overwrites the cached bytes. */
    method SetData(b: nat, ghost blockno: nat, data: Block)
      requires Valid() && Holds(b, blockno)
      modifies this`buf, this`view
      ensures Valid() && Holds(b, blockno) && view == old(view)[blockno := data]
      ensures forall i :: 0 <= i < nbuf && i != b ==> buf[i] == old(buf)[i]
      ensures |buf| == |old(buf)| && buf[b].refcnt == old(buf)[b].refcnt
    {
      hide IsRing, Aged, Bound, Coherent, Counted;
      CountAt(buf, index, held, pinned, waiting, dev, |disk|, b);
      ghost var changed := buf[b].(data := data);
      RecountKeeps(buf, index, held, pinned, waiting, dev, |disk|, b, changed, held, pinned, waiting);
      RewriteKeeps(buf, index, disk, view, dev, b, data);
      buf := buf[b := buf[b].(data := data)];
      view := view[blockno := data];
    }

    /** One atomic block write: the disk gets the buffer's bytes. */
    method Bwrite(b: nat, ghost blockno: nat)
      requires Valid() && Holds(b, blockno)
      modifies this`disk, this`history
      ensures Valid()
      ensures disk == old(disk)[blockno := view[blockno]]
      ensures history == old(history) + [disk]
    {
      hide IsRing, Aged, Bound, Coherent, Counted;
      CountAt(buf, index, held, pinned, waiting, dev, |disk|, b);
      WriteKeeps(buf, index, disk, view, dev, b);
      disk := disk[buf[b].blockno := buf[b].data];
      history := history + [disk];
    }

    /** Unlink b and relink it right after the head. */
    method MoveToHead(b: nat)
      requires Valid() && b < nbuf
      modifies this`prev, this`next, this`order, this`stamp, this`clock
      ensures Valid()
      ensures order == MoveToFront(old(order), b) && stamp == old(stamp)[b := old(clock)]
    {
      hide IsRing, Aged, Bound, Coherent, Counted, MoveToFront;
      AgedHasAll(order, stamp, clock, b);
      MoveToFrontKeepsRing(order, nbuf, prev, next, b);
      MoveToFrontKeepsAge(order, stamp, clock, b);
      var n, p := next[b], prev[b];
      prev := prev[n := p];
      next := next[p := n];
      next := next[b := next[nbuf]];
      prev := prev[b := nbuf];
      prev := prev[next[nbuf] := b];
      next := next[nbuf := b];
      order := MoveToFront(order, b);
      stamp := stamp[b := clock];
      clock := clock + 1;
    }

    /** Drop the lock and the reference; the last reference moves the buffer to the front, and must
        leave nothing that is not on the disk. */
    method Brelse(b: nat, ghost blockno: nat)
      requires Valid() && Holds(b, blockno)
      requires buf[b].refcnt == 1 ==> view[blockno] == disk[blockno]
      modifies this`buf, this`held, this`prev, this`next, this`order, this`stamp, this`clock
      ensures Valid() && held == old(held) - {blockno}
      ensures buf == old(buf)[b := old(buf)[b].(locked := false, refcnt := old(buf)[b].refcnt - 1)]
      ensures order == if buf[b].refcnt == 0 then MoveToFront(old(order), b) else old(order)
      ensures stamp == if buf[b].refcnt == 0 then old(stamp)[b := old(clock)] else old(stamp)
    {
      hide IsRing, Aged, Bound, Coherent, Counted, MoveToFront;
      CountAt(buf, index, held, pinned, waiting, dev, |disk|, b);
      ghost var left := buf[b].(locked := false, refcnt := buf[b].refcnt - 1);
      TouchKeeps(buf, index, disk, view, dev, b, left);
      RecountKeeps(buf, index, held, pinned, waiting, dev, |disk|, b, left, held - {blockno}, pinned, waiting);
      held := held - {blockno};
      buf := buf[b := buf[b].(locked := false)];
      buf := buf[b := buf[b].(refcnt := buf[b].refcnt - 1)];
      assert buf == old(buf)[b := left];
      if buf[b].refcnt == 0 {
        MoveToHead(b);
      }
    }

    method Bpin(b: nat, ghost blockno: nat)
      requires Valid() && b < nbuf && buf[b].dev != 0 && buf[b].blockno == blockno
      modifies this`buf, this`pinned
      ensures Valid() && pinned == old(pinned) + multiset{blockno}
      ensures buf == old(buf)[b := old(buf)[b].(refcnt := old(buf)[b].refcnt + 1)]
    {
      hide IsRing, Aged, Bound, Coherent, Counted;
      CountAt(buf, index, held, pinned, waiting, dev, |disk|, b);
      ghost var more := buf[b].(refcnt := buf[b].refcnt + 1);
      TouchKeeps(buf, index, disk, view, dev, b, more);
      RecountKeeps(buf, index, held, pinned, waiting, dev, |disk|, b, more, held, pinned + multiset{blockno}, waiting);
      buf := buf[b := buf[b].(refcnt := buf[b].refcnt + 1)];
      pinned := pinned + multiset{blockno};
    }

    method Bunpin(b: nat, ghost blockno: nat)
      requires Valid() && b < nbuf && buf[b].dev != 0 && buf[b].blockno == blockno && blockno in pinned
      requires buf[b].refcnt == 1 ==> view[blockno] == disk[blockno]
      modifies this`buf, this`pinned
      ensures Valid() && pinned == old(pinned) - multiset{blockno}
      ensures buf == old(buf)[b := old(buf)[b].(refcnt := old(buf)[b].refcnt - 1)]
    {
      hide IsRing, Aged, Bound, Coherent, Counted;
      CountAt(buf, index, held, pinned, waiting, dev, |disk|, b);
      ghost var less := buf[b].(refcnt := buf[b].refcnt - 1);
      TouchKeeps(buf, index, disk, view, dev, b, less);
      RecountKeeps(buf, index, held, pinned, waiting, dev, |disk|, b, less, held, pinned - multiset{blockno}, waiting);
      buf := buf[b := buf[b].(refcnt := buf[b].refcnt - 1)];
      pinned := pinned - multiset{blockno};
    }
  }
}
