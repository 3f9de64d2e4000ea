// Space on the disk and in the log: which slots of a file a write needs filled, how many blocks are
// free for them, and exactly which blocks the allocation and the write log.
module FsSpace {
  import opened Blocks
  import opened Counting
  import opened FsState

  // ---- Free blocks ----------------------------------------------------------------------------

  function FreeBlocks(view: seq<Block>, l: Layout): set<nat>
    requires LayoutOk(l) && |view| == l.size
  {
    set b: nat | b < l.size && !BitSet(view, l, b)
  }

  function DataBlocks(l: Layout): set<nat> {
    Below(l.size) - Below(l.nmeta)
  }

  lemma DataCount(l: Layout)
    requires l.nmeta <= l.size
    ensures |DataBlocks(l)| == l.size - l.nmeta
  {
    hide Below;
    assert Below(l.nmeta) <= Below(l.size);
  }

  /** A block is free, owned by a slot, or metadata. */
  lemma FreeCount(view: seq<Block>, inodes: seq<Inode>, l: Layout, owner: Owner)
    requires Owns(view, inodes, l, owner, {}, {})
    ensures FreeBlocks(view, l) == DataBlocks(l) - owner.Keys
    ensures |FreeBlocks(view, l)| == l.size - l.nmeta - |owner|
  {
    hide BitSet, Mapped, Below;
    DataCount(l);
    assert owner.Keys <= DataBlocks(l);
    assert |owner.Keys| == |owner|;
    assert FreeBlocks(view, l) == DataBlocks(l) - owner.Keys;
  }

  lemma NoneFree(view: seq<Block>, l: Layout)
    requires LayoutOk(l) && |view| == l.size && forall b :: 0 <= b < l.size ==> BitSet(view, l, b)
    ensures |FreeBlocks(view, l)| == 0
  {
    hide BitSet;
    assert FreeBlocks(view, l) == {};
  }

  lemma OneFree(view: seq<Block>, l: Layout, b: nat)
    requires LayoutOk(l) && |view| == l.size && b < l.size && !BitSet(view, l, b)
    ensures |FreeBlocks(view, l)| > 0
  {
    hide BitSet;
    assert b in FreeBlocks(view, l);
  }

  // ---- Slots ----------------------------------------------------------------------------------

  /** The slots in use for block bn of a file. */
  function Wanted(bn: nat): set<nat> {
    if bn < NDIRECT then {bn} else {NDIRECT, bn + 1}
  }

  /** The slots in use for n blocks from block `first` on. */
  function WantedRange(first: nat, n: nat): set<nat> {
    if n == 0 then {} else WantedRange(first, n-1) + Wanted(first + n - 1)
  }

  function Filled(view: seq<Block>, ino: Inode): set<nat>
    requires |ino.addrs| == NDIRECT + 1
  {
    set s: nat | s < SLOTS && Addr(view, ino, s) != 0
  }

  lemma EmptySlot(view: seq<Block>, ino: Inode, s: nat)
    requires |ino.addrs| == NDIRECT + 1 && s < SLOTS && (s <= NDIRECT ==> ino.addrs[s] == 0) && (s > NDIRECT ==> Addr(view, ino, s) == 0)
    ensures s !in Filled(view, ino)
  {
  }

  lemma SlotFilled(view: seq<Block>, ino: Inode, s: nat)
    requires |ino.addrs| == NDIRECT + 1 && s < SLOTS
    ensures s in Filled(view, ino) <==> Addr(view, ino, s) != 0
    ensures Lacking({s}, Filled(view, ino)) == if Addr(view, ino, s) != 0 then 0 else 1
  {
    hide Addr;
    OneLacking(s, Filled(view, ino));
  }

  /** An entry and its indirect block need two blocks, one or none. */
  lemma EntrySlots(view: seq<Block>, ino: Inode, s: nat)
    requires |ino.addrs| == NDIRECT + 1 && NDIRECT < s < SLOTS
    ensures Lacking(Wanted(s - 1), Filled(view, ino)) ==
            (if ino.addrs[NDIRECT] == 0 then 1 else 0) + (if Addr(view, ino, s) != 0 then 0 else 1)
    ensures s in Filled(view, ino) <==> Addr(view, ino, s) != 0
    ensures Addr(view, ino, s) != 0 ==> ino.addrs[NDIRECT] != 0
  {
    SlotFilled(view, ino, NDIRECT);
    SlotFilled(view, ino, s);
    PairMissing(NDIRECT, s, Filled(view, ino));
  }

  lemma EntryEmpty(view: seq<Block>, ino: Inode, s: nat, filled0: set<nat>)
    requires |ino.addrs| == NDIRECT + 1 && NDIRECT < s < SLOTS && Filled(view, ino) == filled0 + {NDIRECT}
    ensures s in filled0 <==> Addr(view, ino, s) != 0
  {
    SlotFilled(view, ino, s);
    hide Addr, Filled;
  }

  lemma EntryWants(j: nat)
    ensures Wanted(NDIRECT + j) == {NDIRECT} + {NDIRECT + 1 + j}
  {
  }

  lemma FilledSame(view: seq<Block>, view': seq<Block>, ino: Inode)
    requires |ino.addrs| == NDIRECT + 1 && forall s :: 0 <= s < SLOTS ==> Addr(view', ino, s) == Addr(view, ino, s)
    ensures Filled(view', ino) == Filled(view, ino)
  {
    hide Addr;
  }

  lemma FilledSized(view: seq<Block>, ino: Inode, size: nat)
    requires |ino.addrs| == NDIRECT + 1
    ensures Filled(view, ino.(size := size)) == Filled(view, ino)
  {
    hide Addr;
    forall s: nat | s < SLOTS
      ensures Addr(view, ino.(size := size), s) == Addr(view, ino, s)
    {
      AddrOfSized(view, ino, size, s);
    }
  }

  /** The slots in use depend on the owners only. */
  lemma FilledExtends(view: seq<Block>, inodes: seq<Inode>, l: Layout, owner: Owner, view': seq<Block>, i: nat)
    requires Owns(view, inodes, l, owner, {}, {}) && Owns(view', inodes, l, owner, {}, {}) && i < |inodes|
    ensures Filled(view', inodes[i]) == Filled(view, inodes[i])
  {
    hide Addr, Marked;
  }

  /** How many blocks writei gets to, when the bytes from `readable` on cannot be copied in. */
  function Visited(off: nat, n: nat, readable: nat): nat {
    Touched(off, if n <= readable then n else readable + 1)
  }

  /** How many slots a write of n bytes at off has to fill. */
  function Missing(view: seq<Block>, ino: Inode, off: nat, n: nat, readable: nat): nat
    requires |ino.addrs| == NDIRECT + 1
  {
    Lacking(WantedRange(off / BSIZE, Visited(off, n, readable)), Filled(view, ino))
  }

  lemma {:induction false} WantedIs(first: nat, n: nat, s: nat)
    ensures s in WantedRange(first, n) <==>
              if s == NDIRECT then n > 0 && first + n > NDIRECT
              else var bn := if s < NDIRECT then s else s - 1; first <= bn < first + n
  {
    if n > 0 {
      WantedIs(first, n-1, s);
    }
  }

  lemma {:induction false} WantedSize(first: nat, n: nat)
    ensures |WantedRange(first, n)| == n + if n > 0 && first + n > NDIRECT then 1 else 0
  {
    if n > 0 {
      var bn, before := first + n - 1, WantedRange(first, n-1);
      WantedSize(first, n-1);
      WantedIs(first, n-1, NDIRECT);
      WantedIs(first, n-1, FileSlot(bn));
      hide WantedRange;
      WantedMore(first, n);
      SizeAdd(before, Wanted(bn), FileSlot(bn));
    }
  }

  lemma WantedMore(first: nat, n: nat)
    requires n > 0
    ensures WantedRange(first, n) == WantedRange(first, n-1) + Wanted(first + n - 1)
  {
  }

  lemma SizeAdd(before: set<nat>, more: set<nat>, s: nat)
    requires s !in before && (more == {s} || more == {NDIRECT, s}) && s != NDIRECT
    ensures |before + more| == |before| + if more == {s} || NDIRECT in before then 1 else 2
  {
    if more == {s} || NDIRECT in before {
      assert before + more == before + {s};
    } else {
      assert before + more == before + {NDIRECT} + {s};
    }
  }

  lemma {:induction false} WantedGrows(first: nat, n: nat, m: nat)
    requires n <= m
    ensures WantedRange(first, n) <= WantedRange(first, m)
  {
    if n < m {
      WantedGrows(first, n, m-1);
    }
  }

  // ---- What an allocation does ----------------------------------------------------------------

  function BitmapOf(l: Layout, blocks: set<nat>): set<nat> {
    set b | b in blocks :: BBlock(l, b)
  }

  ghost function Added(owner0: Owner, owner: Owner): set<nat> {
    owner.Keys - owner0.Keys
  }

  /** One of the new blocks is an entry of an indirect block. */
  ghost predicate AddsEntry(owner0: Owner, owner: Owner) {
    exists b :: b in Added(owner0, owner) && owner[b].1 > NDIRECT
  }

  /** What giving a file new blocks logs: each block, which is zeroed, its bitmap block, and the indirect
      block x if one of them is an entry there. */
  ghost function AllocLog(l: Layout, owner0: Owner, owner: Owner, x: nat): set<nat> {
    Added(owner0, owner) + BitmapOf(l, Added(owner0, owner)) + if AddsEntry(owner0, owner) then {x} else {}
  }

  /** Inode i has been given blocks for those of `slots` that were empty, and for no others. x is its
      indirect block. */
  ghost predicate Grew(i: nat, slots: set<nat>, owner0: Owner, filled0: set<nat>, owner: Owner, filled: set<nat>, x: nat) {
    && (forall b :: b in owner0 ==> b in owner && owner[b] == owner0[b])
    && (forall b :: b in owner && b !in owner0 ==> owner[b].0 == i && owner[b].1 in slots - filled0)
    && (AddsEntry(owner0, owner) ==> x != 0)
    && |owner| == |owner0| + Lacking(slots, filled0)
    && filled == filled0 + slots
  }

  lemma GrewEntry(i: nat, slots: set<nat>, owner0: Owner, filled0: set<nat>, owner: Owner, filled: set<nat>, x: nat)
    requires Grew(i, slots, owner0, filled0, owner, filled, x)
    ensures AddsEntry(owner0, owner) ==> x != 0
  {
  }

  /** This, with what it logs; `also` is logged besides. */
  ghost predicate Given(l: Layout, i: nat, slots: set<nat>, also: set<nat>, owner0: Owner, filled0: set<nat>, logged0: set<nat>,
                        owner: Owner, filled: set<nat>, x: nat, logged: set<nat>)
  {
    && Grew(i, slots, owner0, filled0, owner, filled, x)
    && logged == logged0 + AllocLog(l, owner0, owner, x) + also
  }

  lemma GivenNothing(l: Layout, i: nat, slots: set<nat>, owner: Owner, filled: set<nat>, x: nat, logged: set<nat>)
    requires slots <= filled
    ensures Given(l, i, slots, {}, owner, filled, logged, owner, filled, x, logged)
  {
    assert slots - filled == {};
    assert Added(owner, owner) == {};
    assert AllocLog(l, owner, owner, x) == {};
    assert filled == filled + slots;
  }

  lemma GivenFilled(l: Layout, i: nat, slots: set<nat>, also: set<nat>, o0: Owner, f0: set<nat>, g0: set<nat>, o: Owner, f: set<nat>, x: nat, g: set<nat>)
    requires Given(l, i, slots, also, o0, f0, g0, o, f, x, g)
    ensures f == f0 + slots && |o| == |o0| + Lacking(slots, f0)
  {
  }

  lemma GivenLogs(l: Layout, i: nat, slots: set<nat>, also: set<nat>, o0: Owner, f0: set<nat>, g0: set<nat>, o: Owner, f: set<nat>, x: nat, g: set<nat>)
    requires Given(l, i, slots, also, o0, f0, g0, o, f, x, g)
    ensures g0 <= g
  {
  }

  lemma GivenAlso(l: Layout, i: nat, slots: set<nat>, also: set<nat>, o0: Owner, f0: set<nat>, g0: set<nat>, o: Owner, f: set<nat>, x: nat, g: set<nat>)
    requires Given(l, i, slots, {}, o0, f0, g0, o, f, x, g)
    ensures Given(l, i, slots, also, o0, f0, g0, o, f, x, g + also)
  {
    hide Grew, AllocLog;
  }

  lemma AddedOne(owner: Owner, b: nat, p: (nat, nat), l: Layout)
    requires b !in owner
    ensures Added(owner, owner[b := p]) == {b} && |owner[b := p]| == |owner| + 1
    ensures AddsEntry(owner, owner[b := p]) <==> p.1 > NDIRECT
    ensures BitmapOf(l, {b}) == {BBlock(l, b)}
  {
    var owner' := owner[b := p];
    assert owner'.Keys == owner.Keys + {b};
    assert |owner'.Keys| == |owner'| && |owner.Keys| == |owner|;
    assert Added(owner, owner') == {b};
  }

  lemma GrewOne(i: nat, s: nat, owner: Owner, filled: set<nat>, b: nat, x: nat, l: Layout)
    requires s !in filled && b !in owner && (s > NDIRECT ==> x != 0)
    ensures Grew(i, {s}, owner, filled, owner[b := (i, s)], filled + {s}, x)
    ensures AllocLog(l, owner, owner[b := (i, s)], x) == {b, BBlock(l, b)} + if s > NDIRECT then {x} else {}
  {
    hide AddsEntry, BitmapOf, BBlock, Added, Lacking;
    AddedOne(owner, b, (i, s), l);
    OneLacking(s, filled);
    OneOwner(owner, b, (i, s));
  }

  lemma OneOwner(owner: Owner, b: nat, p: (nat, nat))
    requires b !in owner
    ensures forall c :: c in owner ==> c in owner[b := p] && owner[b := p][c] == owner[c]
    ensures forall c :: c in owner[b := p] && c !in owner ==> c == b
    ensures owner[b := p][b] == p
  {
  }

  lemma GivenOne(l: Layout, i: nat, s: nat, owner: Owner, filled: set<nat>, logged: set<nat>, b: nat, x: nat, logged': set<nat>)
    requires s !in filled && b !in owner && (s > NDIRECT ==> x != 0)
    requires logged' == logged + {BBlock(l, b), b} + if s > NDIRECT then {x} else {}
    ensures Given(l, i, {s}, {}, owner, filled, logged, owner[b := (i, s)], filled + {s}, x, logged')
  {
    hide Grew, AllocLog, BBlock;
    GrewOne(i, s, owner, filled, b, x, l);
  }

  lemma AddedJoin(o0: Owner, o1: Owner, o2: Owner, l: Layout)
    requires forall b :: b in o0 ==> b in o1 && o1[b] == o0[b]
    requires forall b :: b in o1 ==> b in o2 && o2[b] == o1[b]
    ensures Added(o0, o2) == Added(o0, o1) + Added(o1, o2)
    ensures AddsEntry(o0, o2) <==> AddsEntry(o0, o1) || AddsEntry(o1, o2)
  {
    assert Added(o0, o2) == Added(o0, o1) + Added(o1, o2);
    if AddsEntry(o0, o1) {
      var b :| b in Added(o0, o1) && o1[b].1 > NDIRECT;
      assert b in Added(o0, o2) && o2[b].1 > NDIRECT;
    }
    if AddsEntry(o1, o2) {
      var b :| b in Added(o1, o2) && o2[b].1 > NDIRECT;
      assert b in Added(o0, o2);
    }
  }

  lemma BitmapJoin(l: Layout, s: set<nat>, t: set<nat>)
    ensures BitmapOf(l, s + t) == BitmapOf(l, s) + BitmapOf(l, t)
  {
    hide BBlock;
  }

  lemma GrewJoin(i: nat, slots1: set<nat>, slots2: set<nat>, o0: Owner, f0: set<nat>, o1: Owner, f1: set<nat>, x1: nat, o2: Owner, f2: set<nat>, x2: nat, l: Layout)
    requires Grew(i, slots1, o0, f0, o1, f1, x1) && Grew(i, slots2, o1, f1, o2, f2, x2) && (x1 != 0 ==> x2 != 0)
    ensures Grew(i, slots1 + slots2, o0, f0, o2, f2, x2)
    ensures (x1 != 0 ==> x1 == x2) ==> AllocLog(l, o0, o2, x2) == AllocLog(l, o0, o1, x1) + AllocLog(l, o1, o2, x2)
  {
    hide Added, AddsEntry, BitmapOf;
    MissingJoin(slots1, slots2, f0);
    AddedJoin(o0, o1, o2, l);
    BitmapJoin(l, Added(o0, o1), Added(o1, o2));
  }

  lemma GivenJoin(l: Layout, i: nat, slots1: set<nat>, slots2: set<nat>, also: set<nat>, o0: Owner, f0: set<nat>, g0: set<nat>,
                  o1: Owner, f1: set<nat>, x1: nat, g1: set<nat>, o2: Owner, f2: set<nat>, x2: nat, g2: set<nat>)
    requires Given(l, i, slots1, {}, o0, f0, g0, o1, f1, x1, g1) && Given(l, i, slots2, also, o1, f1, g1, o2, f2, x2, g2)
    requires x1 != 0 ==> x1 == x2
    ensures Given(l, i, slots1 + slots2, also, o0, f0, g0, o2, f2, x2, g2)
  {
    hide Grew, AllocLog;
    GrewJoin(i, slots1, slots2, o0, f0, o1, f1, x1, o2, f2, x2, l);
  }

  /** A block recorded for slot s of inode i fills that slot and changes no other. */
  lemma FilledOne(view: seq<Block>, inodes: seq<Inode>, l: Layout, owner: Owner, view': seq<Block>, inodes': seq<Inode>, i: nat, s: nat, b: nat)
    requires Owns(view, inodes, l, owner, {}, {}) && Owns(view', inodes', l, owner[b := (i, s)], {}, {})
    requires b !in owner && |inodes'| == |inodes| && i < |inodes| && s < SLOTS
    ensures Filled(view', inodes'[i]) == Filled(view, inodes[i]) + {s}
  {
    var owner' := owner[b := (i, s)];
    hide Addr, Marked;
    assert b in owner' && owner'[b] == (i, s);
    forall t: nat | t < SLOTS
      ensures Addr(view', inodes'[i], t) != 0 <==> Addr(view, inodes[i], t) != 0 || t == s
    {
      var a, a' := Addr(view, inodes[i], t), Addr(view', inodes'[i], t);
      if a != 0 {
        assert owner[a] == (i, t);
        assert owner'[a] == (i, t);
      }
      if a' != 0 && a' != b {
        assert owner'[a'] == (i, t);
        assert owner[a'] == (i, t);
      }
    }
  }

  // ---- The data blocks of a file --------------------------------------------------------------

  /** The blocks that hold n blocks of file i, from block `first` on. */
  ghost function FileBlocks(owner: Owner, i: nat, first: nat, n: nat): set<nat> {
    set b | b in owner && owner[b].0 == i && owner[b].1 != NDIRECT && owner[b].1 in WantedRange(first, n)
  }

  ghost predicate Injective(owner: Owner) {
    forall b, c :: b in owner && c in owner && owner[b] == owner[c] ==> b == c
  }

  lemma OwnerInjective(view: seq<Block>, inodes: seq<Inode>, l: Layout, owner: Owner)
    requires Owns(view, inodes, l, owner, {}, {})
    ensures Injective(owner)
  {
    hide Addr, Marked;
  }

  lemma FileBlocksStep(owner: Owner, owner': Owner, i: nat, first: nat, n: nat, b: nat)
    requires forall c :: c in owner ==> c in owner' && owner'[c] == owner[c]
    requires forall c :: c in owner' && c !in owner ==> owner'[c].1 !in WantedRange(first, n)
    requires b in owner' && owner'[b] == (i, FileSlot(first + n)) && Injective(owner')
    ensures FileBlocks(owner', i, first, n) == FileBlocks(owner, i, first, n)
    ensures FileBlocks(owner', i, first, n + 1) == FileBlocks(owner, i, first, n) + {b}
  {
    WantedMore(first, n + 1);
    WantedIs(first, n, FileSlot(first + n));
    hide WantedRange;
    assert FileBlocks(owner', i, first, n) == FileBlocks(owner, i, first, n);
    forall c | c in FileBlocks(owner', i, first, n + 1)
      ensures c in FileBlocks(owner', i, first, n) || c == b
    {
    }
  }

  // ---- Writing --------------------------------------------------------------------------------

  /** Where writei's loop is: it has been given the blocks of `turns` blocks of the file from block
      `first` on, and has logged what that took and the data blocks it has completed. */
  ghost predicate Spending(l: Layout, i: nat, first: nat, turns: nat, done: nat, owner0: Owner, filled0: set<nat>, logged0: set<nat>,
                           owner: Owner, filled: set<nat>, x: nat, logged: set<nat>)
  {
    Given(l, i, WantedRange(first, turns), FileBlocks(owner, i, first, done), owner0, filled0, logged0, owner, filled, x, logged)
  }

  lemma SpendingStart(l: Layout, i: nat, first: nat, owner: Owner, filled: set<nat>, x: nat, logged: set<nat>)
    ensures Spending(l, i, first, 0, 0, owner, filled, logged, owner, filled, x, logged)
  {
    hide Given;
    GivenNothing(l, i, {}, owner, filled, x, logged);
    assert FileBlocks(owner, i, first, 0) == {};
  }

  lemma SpendingStep(l: Layout, i: nat, first: nat, turns: nat, o0: Owner, f0: set<nat>, g0: set<nat>,
                     o1: Owner, f1: set<nat>, x1: nat, g1: set<nat>, o2: Owner, f2: set<nat>, x2: nat, g2: set<nat>, b: nat, whole: bool)
    requires Spending(l, i, first, turns, turns, o0, f0, g0, o1, f1, x1, g1)
    requires Given(l, i, Wanted(first + turns), if whole then {b} else {}, o1, f1, g1, o2, f2, x2, g2) && (x1 != 0 ==> x1 == x2)
    requires b in o2 && o2[b] == (i, FileSlot(first + turns)) && Injective(o2)
    ensures Spending(l, i, first, turns + 1, if whole then turns + 1 else turns, o0, f0, g0, o2, f2, x2, g2)
  {
    hide WantedRange, AllocLog, FileBlocks, Grew, Wanted, Injective, FileSlot;
    GrewJoin(i, WantedRange(first, turns), Wanted(first + turns), o0, f0, o1, f1, x1, o2, f2, x2, l);
    WantedMore(first, turns + 1);
    NewSlots(i, WantedRange(first, turns), o0, f0, o1, f1, x1, Wanted(first + turns), o2, f2, x2);
    FileBlocksStep(o1, o2, i, first, turns, b);
  }

  lemma NewSlots(i: nat, slots1: set<nat>, o0: Owner, f0: set<nat>, o1: Owner, f1: set<nat>, x1: nat, slots2: set<nat>, o2: Owner, f2: set<nat>, x2: nat)
    requires Grew(i, slots1, o0, f0, o1, f1, x1) && Grew(i, slots2, o1, f1, o2, f2, x2)
    ensures forall c :: c in o1 ==> c in o2 && o2[c] == o1[c]
    ensures forall c :: c in o2 && c !in o1 ==> o2[c].1 !in slots1
  {
    hide AddsEntry;
  }

  lemma SpendingFilled(l: Layout, i: nat, first: nat, turns: nat, done: nat, o0: Owner, f0: set<nat>, g0: set<nat>,
                       o: Owner, f: set<nat>, x: nat, g: set<nat>)
    requires Spending(l, i, first, turns, done, o0, f0, g0, o, f, x, g)
    ensures f == f0 + WantedRange(first, turns) && |o| == |o0| + Lacking(WantedRange(first, turns), f0)
  {
  }

  /** A turn that finds no block: the whole write needs more than there are. */
  lemma SpaceShort(first: nat, turns: nat, all: nat, filled: set<nat>)
    requires turns < all
    ensures Lacking(WantedRange(first, all), filled) >=
            Lacking(WantedRange(first, turns), filled) + Lacking(Wanted(first + turns), filled + WantedRange(first, turns))
  {
    hide Wanted, WantedRange;
    WantedMore(first, turns + 1);
    WantedGrows(first, turns + 1, all);
    ShortBefore(WantedRange(first, turns), Wanted(first + turns), WantedRange(first, all), filled);
  }

  /** The number of turns the loop takes. */
  lemma TurnsVisit(off: nat, n: nat, tot: nat, turns: nat, readable: nat)
    requires AtTurn(off, n, tot, turns) && tot <= readable
    ensures tot < n ==> turns < Visited(off, n, readable)
    ensures tot == n ==> turns == Visited(off, n, readable)
    ensures turns == Touched(off, tot)
  {
    if tot < n {
      assert (off + tot) / BSIZE == off / BSIZE + turns;
      assert n > readable ==> (off + readable) / BSIZE >= (off + tot) / BSIZE;
      assert (off + n - 1) / BSIZE >= (off + tot) / BSIZE;
    }
  }

  lemma TurnBlock(off: nat, n: nat, tot: nat, turns: nat)
    requires AtTurn(off, n, tot, turns) && tot < n
    ensures (off + tot) / BSIZE == off / BSIZE + turns
  {
  }

  lemma VisitedBound(off: nat, n: nat, readable: nat, tot: nat)
    requires tot <= n && tot <= readable
    ensures Touched(off, tot) <= Visited(off, n, readable) <= Touched(off, n) && (n == 0 ==> Visited(off, n, readable) == 0)
  {
    var k := if n <= readable then n else readable + 1;
    TouchedGrows(off, tot, k);
    TouchedGrows(off, k, n);
  }

  lemma TouchedGrows(off: nat, n: nat, m: nat)
    requires n <= m
    ensures 0 <= Touched(off, n) <= Touched(off, m)
  {
    if 0 < n {
      assert (off + n - 1) / BSIZE <= (off + m - 1) / BSIZE;
    }
  }

  lemma LastTurn(off: nat, n: nat, tot: nat, turns: nat, m: nat, readable: nat)
    requires AtTurn(off, n, tot, turns) && tot <= readable < tot + m && tot + m <= n
    requires (off + tot) % BSIZE + m <= BSIZE
    ensures turns + 1 == Visited(off, n, readable) && tot == Reported(off, n, readable)
  {
    assert (off + tot) / BSIZE == off / BSIZE + turns;
    SameBlock(off + tot, readable - tot);
  }

  // ---- Writing in several calls ---------------------------------------------------------------

  /** The blocks of two adjacent ranges of bytes. */
  lemma WantedJoin(off: nat, done: nat, n: nat)
    requires n > 0
    ensures WantedRange(off / BSIZE, Touched(off, done)) + WantedRange((off + done) / BSIZE, Touched(off + done, n)) ==
            WantedRange(off / BSIZE, Touched(off, done + n))
  {
    hide WantedRange;
    var a, b, c := Touched(off, done), Touched(off + done, n), Touched(off, done + n);
    TouchedJoin(off, done, n);
    forall s: nat
      ensures s in WantedRange(off / BSIZE, a) || s in WantedRange((off + done) / BSIZE, b) <==> s in WantedRange(off / BSIZE, c)
    {
      WantedIs(off / BSIZE, a, s);
      WantedIs((off + done) / BSIZE, b, s);
      WantedIs(off / BSIZE, c, s);
    }
  }

  lemma TouchedJoin(off: nat, done: nat, n: nat)
    requires n > 0
    ensures (off + done) / BSIZE + Touched(off + done, n) == off / BSIZE + Touched(off, done + n) && Touched(off + done, n) > 0
    ensures off / BSIZE <= (off + done) / BSIZE <= off / BSIZE + Touched(off, done) <= off / BSIZE + Touched(off, done + n)
  {
    TouchedGrows(off, done, done + n);
    if done > 0 {
      assert (off + done) / BSIZE <= (off + done - 1) / BSIZE + 1;
    }
  }

  lemma VisitedJoin(off: nat, done: nat, n: nat, readable: nat)
    requires n > 0 && done <= readable
    ensures WantedRange(off / BSIZE, Touched(off, done)) + WantedRange((off + done) / BSIZE, Visited(off + done, n, readable - done)) ==
            WantedRange(off / BSIZE, Visited(off, done + n, readable))
  {
    WantedJoin(off, done, if n <= readable - done then n else readable - done + 1);
  }

  /** A further call of writei where an earlier one ended. */
  lemma GrewChunk(i: nat, off: nat, done: nat, n: nat, readable: nat, o0: Owner, f0: set<nat>, o1: Owner, f1: set<nat>, x1: nat,
                  o2: Owner, f2: set<nat>, x2: nat, l: Layout)
    requires n > 0 && done <= readable && (x1 != 0 ==> x2 != 0)
    requires Grew(i, WantedRange(off / BSIZE, Touched(off, done)), o0, f0, o1, f1, x1)
    requires Grew(i, WantedRange((off + done) / BSIZE, Visited(off + done, n, readable - done)), o1, f1, o2, f2, x2)
    ensures Grew(i, WantedRange(off / BSIZE, Visited(off, done + n, readable)), o0, f0, o2, f2, x2)
  {
    hide Grew, WantedRange, Touched, Visited;
    VisitedJoin(off, done, n, readable);
    GrewJoin(i, WantedRange(off / BSIZE, Touched(off, done)), WantedRange((off + done) / BSIZE, Visited(off + done, n, readable - done)),
             o0, f0, o1, f1, x1, o2, f2, x2, l);
  }

  /** What a call lacks, the whole write lacks. */
  lemma ChunkShort(off: nat, done: nat, n: nat, all: nat, readable: nat, f0: set<nat>)
    requires n > 0 && done <= readable && done + n <= all
    ensures Lacking(WantedRange(off / BSIZE, Visited(off, all, readable)), f0) >=
            Lacking(WantedRange(off / BSIZE, Touched(off, done)), f0)
            + Lacking(WantedRange((off + done) / BSIZE, Visited(off + done, n, readable - done)), f0 + WantedRange(off / BSIZE, Touched(off, done)))
  {
    hide WantedRange, Touched, Lacking;
    VisitedJoin(off, done, n, readable);
    VisitedGrows(off, done + n, all, readable);
    WantedGrows(off / BSIZE, Visited(off, done + n, readable), Visited(off, all, readable));
    ShortBefore(WantedRange(off / BSIZE, Touched(off, done)), WantedRange((off + done) / BSIZE, Visited(off + done, n, readable - done)),
                WantedRange(off / BSIZE, Visited(off, all, readable)), f0);
  }

  lemma VisitedGrows(off: nat, n: nat, m: nat, readable: nat)
    requires n <= m
    ensures 0 <= Visited(off, n, readable) <= Visited(off, m, readable)
  {
    TouchedGrows(off, if n <= readable then n else readable + 1, if m <= readable then m else readable + 1);
  }

  /** From v0, n0, o0 on, inode i has been given the blocks of `visited` blocks from offset off on. */
  ghost predicate Gained(i: nat, off: nat, visited: nat, v0: seq<Block>, n0: seq<Inode>, o0: Owner, v: seq<Block>, n: seq<Inode>, o: Owner) {
    && i < |n0| == |n| && |n0[i].addrs| == |n[i].addrs| == NDIRECT + 1
    && Grew(i, WantedRange(off / BSIZE, visited), o0, Filled(v0, n0[i]), o, Filled(v, n[i]), n[i].addrs[NDIRECT])
  }

  lemma GainedStart(l: Layout, i: nat, off: nat, v: seq<Block>, n: seq<Inode>, o: Owner)
    requires i < |n| && |n[i].addrs| == NDIRECT + 1
    ensures Gained(i, off, Touched(off, 0), v, n, o, v, n, o)
  {
    hide Filled;
    GivenNothing(l, i, {}, o, Filled(v, n[i]), n[i].addrs[NDIRECT], {});
  }

  lemma VisitedAll(off: nat, n: nat, all: nat, readable: nat)
    ensures n <= readable ==> Visited(off, n, readable) == Touched(off, n)
    ensures readable < n <= all ==> Visited(off, n, readable) == Visited(off, all, readable)
  {
  }

  lemma GainedStep(l: Layout, i: nat, off: nat, done: nat, k: nat, readable: nat, v0: seq<Block>, n0: seq<Inode>, o0: Owner,
                   v1: seq<Block>, n1: seq<Inode>, o1: Owner, v: seq<Block>, n: seq<Inode>, o: Owner)
    requires k > 0 && done <= readable
    requires Gained(i, off, Touched(off, done), v0, n0, o0, v1, n1, o1)
    requires Gained(i, off + done, Visited(off + done, k, readable - done), v1, n1, o1, v, n, o)
    ensures Gained(i, off, Visited(off, done + k, readable), v0, n0, o0, v, n, o)
    ensures done + k <= readable ==> Gained(i, off, Touched(off, done + k), v0, n0, o0, v, n, o)
  {
    hide Filled, WantedRange, Touched, Visited, Grew;
    GrewIndirect(v1, n1[i], o1, v, n[i], o, i, WantedRange((off + done) / BSIZE, Visited(off + done, k, readable - done)));
    GrewChunk(i, off, done, k, readable, o0, Filled(v0, n0[i]), o1, Filled(v1, n1[i]), n1[i].addrs[NDIRECT], o, Filled(v, n[i]), n[i].addrs[NDIRECT], l);
    VisitedAll(off, done + k, done + k, readable);
  }

  lemma GrewIndirect(v1: seq<Block>, ino1: Inode, o1: Owner, v: seq<Block>, ino: Inode, o: Owner, i: nat, slots: set<nat>)
    requires |ino1.addrs| == |ino.addrs| == NDIRECT + 1 && Grew(i, slots, o1, Filled(v1, ino1), o, Filled(v, ino), ino.addrs[NDIRECT])
    ensures ino1.addrs[NDIRECT] != 0 ==> ino.addrs[NDIRECT] != 0
  {
    SlotFilled(v1, ino1, NDIRECT);
    SlotFilled(v, ino, NDIRECT);
    hide Filled;
  }

  /** A call that runs out of blocks: the whole write needs more than were free at its start. */
  lemma GainedShort(l: Layout, i: nat, off: nat, done: nat, k: nat, all: nat, readable: nat, v0: seq<Block>, n0: seq<Inode>, o0: Owner,
                    v1: seq<Block>, n1: seq<Inode>, o1: Owner)
    requires Owns(v0, n0, l, o0, {}, {}) && Owns(v1, n1, l, o1, {}, {}) && k > 0 && done <= readable && done + k <= all
    requires Gained(i, off, Touched(off, done), v0, n0, o0, v1, n1, o1)
    requires |FreeBlocks(v1, l)| < Missing(v1, n1[i], off + done, k, readable - done)
    ensures |FreeBlocks(v0, l)| < Missing(v0, n0[i], off, all, readable)
  {
    hide Owns, FreeBlocks, Filled, WantedRange, Touched, Visited, Lacking;
    FreeCount(v0, n0, l, o0);
    FreeCount(v1, n1, l, o1);
    ChunkShort(off, done, k, all, readable, Filled(v0, n0[i]));
  }

  /** What was given out was there. */
  lemma GainedFits(l: Layout, i: nat, off: nat, visited: nat, all: nat, readable: nat, v0: seq<Block>, n0: seq<Inode>, o0: Owner,
                   v: seq<Block>, n: seq<Inode>, o: Owner)
    requires Owns(v0, n0, l, o0, {}, {}) && Owns(v, n, l, o, {}, {})
    requires Gained(i, off, visited, v0, n0, o0, v, n, o) && visited == Visited(off, all, readable)
    ensures |FreeBlocks(v0, l)| >= Missing(v0, n0[i], off, all, readable)
  {
    hide Owns, FreeBlocks, Filled, WantedRange, Visited, Lacking;
    FreeCount(v0, n0, l, o0);
    FreeCount(v, n, l, o);
  }

  // ---- The state of writei's loop -------------------------------------------------------------

  /** After `turns` turns: the first tot bytes of src are in file i, and no other file has changed. */
  ghost predicate Turning(l: Layout, i: nat, off: nat, src: seq<byte>, tot: nat, turns: nat,
                          v0: seq<Block>, n0: seq<Inode>, o0: Owner, g0: set<nat>, v: seq<Block>, n: seq<Inode>, o: Owner, g: set<nat>)
  {
    && i < |n0| == |n| && |n0[i].addrs| == |n[i].addrs| == NDIRECT + 1 && n0[i].size <= MAXFILE * BSIZE
    && OnlyFile(v0, n0, v, n, l, i)
    && AtTurn(off, |src|, tot, turns)
    && Writing(Contents(v0, n0[i]), off, src, tot, v, n[i])
    && Spending(l, i, off / BSIZE, turns, turns, o0, Filled(v0, n0[i]), g0, o, Filled(v, n[i]), n[i].addrs[NDIRECT], g)
  }

  lemma TurningStart(l: Layout, i: nat, off: nat, src: seq<byte>, v: seq<Block>, n: seq<Inode>, o: Owner, g: set<nat>)
    requires FilesOk(v, n) && i < |n| && FileOk(v, n[i]) && |n[i].addrs| == NDIRECT + 1 && n[i].size <= MAXFILE * BSIZE && off <= n[i].size
    ensures Turning(l, i, off, src, 0, 0, v, n, o, g, v, n, o, g)
  {
    hide FileOk, Contents, OnlyFile, AtTurn, Writing, Filled, Spending;
    WritingStart(off, src, v, n[i]);
    OnlyFileStart(v, n, l, i);
    TurnStart(off, |src|);
    SpendingStart(l, i, off / BSIZE, o, Filled(v, n[i]), n[i].addrs[NDIRECT], g);
  }

  /** Before a turn: where it writes, and that lacking a block for it the whole write lacks blocks. */
  lemma TurningNow(l: Layout, i: nat, off: nat, src: seq<byte>, tot: nat, turns: nat,
                   v0: seq<Block>, n0: seq<Inode>, o0: Owner, g0: set<nat>, v: seq<Block>, n: seq<Inode>, o: Owner, g: set<nat>, m: nat, readable: nat)
    requires Turning(l, i, off, src, tot, turns, v0, n0, o0, g0, v, n, o, g) && tot < |src| && tot <= readable
    requires m == if |src| - tot < BSIZE - (off + tot) % BSIZE then |src| - tot else BSIZE - (off + tot) % BSIZE
    ensures i < |n0| && |n0[i].addrs| == NDIRECT + 1 && n0[i].size <= MAXFILE * BSIZE
    ensures 0 < m && (off + tot) / BSIZE == off / BSIZE + turns && FileOk(v, n[i].(size := Max(n0[i].size, off + tot)))
    ensures Lacking(WantedRange(off / BSIZE, Visited(off, |src|, readable)), Filled(v0, n0[i])) >=
            |o| - |o0| + Lacking(Wanted(off / BSIZE + turns), Filled(v, n[i]))
  {
    hide OnlyFile, AtTurn, Writing, Filled, Spending, FileOk, Contents, WantedRange, Wanted, Lacking, Visited;
    NextTurn(off, |src|, tot, turns, m);
    TurnBlock(off, |src|, tot, turns);
    TurnsVisit(off, |src|, tot, turns, readable);
    WritingNow(Contents(v0, n0[i]), off, src, tot, v, n[i]);
    SpendingFilled(l, i, off / BSIZE, turns, turns, o0, Filled(v0, n0[i]), g0, o, Filled(v, n[i]), n[i].addrs[NDIRECT], g);
    SpaceShort(off / BSIZE, turns, Visited(off, |src|, readable), Filled(v0, n0[i]));
  }

  /** s has been laid over a file at off, the file growing as needed. */
  ghost predicate ChunkIn(view: seq<Block>, ino: Inode, view': seq<Block>, ino': Inode, off: nat, s: seq<byte>) {
    && FileOk(view, ino) && off <= ino.size && FileOk(view', Extended(ino', off + |s|))
    && Contents(view', Extended(ino', off + |s|)) == Overlay(Contents(view, ino), off, s)
  }

  lemma TurningStep(l: Layout, i: nat, off: nat, src: seq<byte>, tot: nat, turns: nat,
                    v0: seq<Block>, n0: seq<Inode>, o0: Owner, g0: set<nat>, v1: seq<Block>, n1: seq<Inode>, o1: Owner, g1: set<nat>,
                    v: seq<Block>, n: seq<Inode>, o: Owner, g: set<nat>, m: nat, readable: nat, b: nat)
    requires i < |n0| == |n1| && |n0[i].addrs| == |n1[i].addrs| == NDIRECT + 1 && n0[i].size <= MAXFILE * BSIZE
    requires Turning(l, i, off, src, tot, turns, v0, n0, o0, g0, v1, n1, o1, g1) && tot < |src| && tot <= readable
    requires m == if |src| - tot < BSIZE - (off + tot) % BSIZE then |src| - tot else BSIZE - (off + tot) % BSIZE
    requires OnlyFile(v1, n1, v, n, l, i) && |n| == |n1| && |n[i].addrs| == NDIRECT + 1
    requires ChunkIn(v1, n1[i].(size := Max(n0[i].size, off + tot)), v, n[i].(size := Max(n0[i].size, off + tot)),
                     off + tot, src[tot..tot + m][..Got(tot, m, readable)])
    requires Given(l, i, Wanted((off + tot) / BSIZE), if Got(tot, m, readable) == m then {b} else {}, o1, Filled(v1, n1[i]), g1,
                   o, Filled(v, n[i]), n[i].addrs[NDIRECT], g)
    requires b in o && o[b] == (i, FileSlot((off + tot) / BSIZE)) && Injective(o)
    requires n1[i].addrs[NDIRECT] != 0 ==> n[i].addrs[NDIRECT] == n1[i].addrs[NDIRECT]
    ensures Got(tot, m, readable) == m ==> Turning(l, i, off, src, tot + m, turns + 1, v0, n0, o0, g0, v, n, o, g)
    ensures Got(tot, m, readable) < m ==>
              && OnlyFile(v0, n0, v, n, l, i)
              && Written(Contents(v0, n0[i]), off, src, readable, tot, tot + Got(tot, m, readable), v, n[i])
              && turns + 1 == Visited(off, |src|, readable) && tot == Reported(off, |src|, readable)
              && Spending(l, i, off / BSIZE, turns + 1, Touched(off, tot), o0, Filled(v0, n0[i]), g0, o, Filled(v, n[i]), n[i].addrs[NDIRECT], g)
  {
    hide OnlyFile, AtTurn, Writing, Filled, Spending, FileOk, Contents, Wanted, Visited, Touched, Given, Injective, Overlay, Written, FileSlot, Extended,
         Reported;
    NextTurn(off, |src|, tot, turns, m);
    TurnBlock(off, |src|, tot, turns);
    TurnsVisit(off, |src|, tot, turns, readable);
    OnlyFileTransitive(v0, n0, v1, n1, v, n, l, i);
    WritingNow(Contents(v0, n0[i]), off, src, tot, v1, n1[i]);
    assert |src[tot..tot + m][..Got(tot, m, readable)]| == Got(tot, m, readable);
    WritingStep(Contents(v0, n0[i]), off, src, tot, m, readable, v1, n1[i], v, n[i]);
    SpendingStep(l, i, off / BSIZE, turns, o0, Filled(v0, n0[i]), g0, o1, Filled(v1, n1[i]), n1[i].addrs[NDIRECT], g1,
                 o, Filled(v, n[i]), n[i].addrs[NDIRECT], g, b, Got(tot, m, readable) == m);
    if Got(tot, m, readable) < m {
      LastTurn(off, |src|, tot, turns, m, readable);
    }
  }

  lemma TurningEnd(l: Layout, i: nat, off: nat, src: seq<byte>, turns: nat,
                   v0: seq<Block>, n0: seq<Inode>, o0: Owner, g0: set<nat>, v: seq<Block>, n: seq<Inode>, o: Owner, g: set<nat>, readable: nat)
    requires Turning(l, i, off, src, |src|, turns, v0, n0, o0, g0, v, n, o, g) && |src| <= readable
    ensures i < |n0| == |n| && |n0[i].addrs| == |n[i].addrs| == NDIRECT + 1 && n0[i].size <= MAXFILE * BSIZE && OnlyFile(v0, n0, v, n, l, i)
    ensures Written(Contents(v0, n0[i]), off, src, readable, |src|, |src|, v, n[i])
    ensures turns == Visited(off, |src|, readable) == Touched(off, |src|)
    ensures Spending(l, i, off / BSIZE, turns, turns, o0, Filled(v0, n0[i]), g0, o, Filled(v, n[i]), n[i].addrs[NDIRECT], g)
  {
    hide OnlyFile, AtTurn, Writing, Filled, Spending, FileOk, Contents, Written, Visited, Touched;
    TurnsVisit(off, |src|, |src|, turns, readable);
    WritingDone(Contents(v0, n0[i]), off, src, |src|, readable, v, n[i]);
  }

  // ---- How much is logged ---------------------------------------------------------------------

  /** The bitmap blocks of any blocks are among those of the disk. */
  lemma BitmapBound(l: Layout, blocks: set<nat>)
    requires forall b :: b in blocks ==> b < l.size
    ensures |BitmapOf(l, blocks)| <= BitmapBlocks(l)
  {
    hide Below;
    var all := Below(l.bmapstart + BitmapBlocks(l)) - Below(l.bmapstart);
    assert Below(l.bmapstart) <= Below(l.bmapstart + BitmapBlocks(l));
    assert BitmapOf(l, blocks) <= all;
    SubsetSize(BitmapOf(l, blocks), all);
  }

  lemma {:induction false} BitmapSize(l: Layout, blocks: set<nat>)
    ensures |BitmapOf(l, blocks)| <= |blocks|
  {
    if blocks != {} {
      var b :| b in blocks;
      BitmapSize(l, blocks - {b});
      BitmapJoin(l, blocks - {b}, {b});
      assert blocks - {b} + {b} == blocks;
      assert BitmapOf(l, {b}) == {BBlock(l, b)};
    } else {
      assert BitmapOf(l, blocks) == {};
    }
  }

  lemma AddedBelow(l: Layout, o0: Owner, o: Owner)
    requires forall b :: b in o ==> b < l.size
    ensures forall b :: b in Added(o0, o) ==> b < l.size
  {
  }

  ghost function BlocksIn(owner: Owner, i: nat, slots: set<nat>): set<nat> {
    set b | b in owner && owner[b].0 == i && owner[b].1 in slots
  }

  lemma {:induction false} BlocksInSize(owner: Owner, i: nat, slots: set<nat>)
    requires Injective(owner)
    ensures |BlocksIn(owner, i, slots)| <= |slots|
  {
    if slots == {} {
      assert BlocksIn(owner, i, slots) == {};
    } else {
      var s :| s in slots;
      BlocksInSize(owner, i, slots - {s});
      if b :| b in owner && owner[b] == (i, s) {
        assert BlocksIn(owner, i, slots) == BlocksIn(owner, i, slots - {s}) + {b};
      } else {
        assert BlocksIn(owner, i, slots) == BlocksIn(owner, i, slots - {s});
      }
    }
  }

  lemma IndirectIn(i: nat, first: nat, turns: nat, o0: Owner, f0: set<nat>, o: Owner, f: set<nat>, x: nat)
    requires Grew(i, WantedRange(first, turns), o0, f0, o, f, x) && AddsEntry(o0, o)
    requires x != 0 ==> x in o && o[x] == (i, NDIRECT)
    ensures x in BlocksIn(o, i, WantedRange(first, turns))
  {
    hide WantedRange;
    var b :| b in Added(o0, o) && o[b].1 > NDIRECT;
    WantedIs(first, turns, o[b].1);
    WantedIs(first, turns, NDIRECT);
  }

  lemma AddedIn(i: nat, slots: set<nat>, o0: Owner, f0: set<nat>, o: Owner, f: set<nat>, x: nat)
    requires Grew(i, slots, o0, f0, o, f, x)
    ensures Added(o0, o) <= BlocksIn(o, i, slots) && |Added(o0, o)| == Lacking(slots, f0)
  {
    hide AddsEntry;
    assert o0.Keys <= o.Keys;
    assert |o.Keys| == |o| && |o0.Keys| == |o0|;
  }

  lemma SpendingIn(l: Layout, i: nat, first: nat, turns: nat, done: nat, o0: Owner, f0: set<nat>, g0: set<nat>,
                   o: Owner, f: set<nat>, x: nat, g: set<nat>)
    requires Spending(l, i, first, turns, done, o0, f0, g0, o, f, x, g) && done <= turns
    requires x != 0 ==> x in o && o[x] == (i, NDIRECT)
    ensures g - g0 <= BlocksIn(o, i, WantedRange(first, turns)) + BitmapOf(l, Added(o0, o))
    ensures |Added(o0, o)| == Lacking(WantedRange(first, turns), f0)
  {
    hide WantedRange, BitmapOf, AddsEntry, Grew, Added;
    WantedGrows(first, done, turns);
    assert FileBlocks(o, i, first, done) <= BlocksIn(o, i, WantedRange(first, turns));
    hide BlocksIn, FileBlocks;
    AddedIn(i, WantedRange(first, turns), o0, f0, o, f, x);
    if AddsEntry(o0, o) {
      IndirectIn(i, first, turns, o0, f0, o, f, x);
    }
  }

  /** At most a data block and a bitmap block a turn, no bitmap block for an unaligned first one, and
      the indirect block with its bitmap block. */
  lemma SpendingBound(l: Layout, i: nat, off: nat, turns: nat, done: nat, o0: Owner, f0: set<nat>, g0: set<nat>,
                      o: Owner, f: set<nat>, x: nat, g: set<nat>, n: nat)
    requires Spending(l, i, off / BSIZE, turns, done, o0, f0, g0, o, f, x, g) && done <= turns <= Touched(off, n) && (n == 0 ==> turns == 0)
    requires x != 0 ==> x in o && o[x] == (i, NDIRECT)
    requires Injective(o) && (off % BSIZE != 0 ==> FileSlot(off / BSIZE) in f0) && (forall b :: b in o ==> b < l.size)
    ensures |g - g0| <= LogBound(l, off, n)
  {
    hide Given, WantedRange, BlocksIn, BitmapOf, Added, Injective, Wanted;
    var first := off / BSIZE;
    var slots, blocks, maps := WantedRange(first, turns), BlocksIn(o, i, WantedRange(first, turns)), BitmapOf(l, Added(o0, o));
    SpendingIn(l, i, first, turns, done, o0, f0, g0, o, f, x, g);
    BlocksInSize(o, i, slots);
    BitmapSize(l, Added(o0, o));
    AddedBelow(l, o0, o);
    BitmapBound(l, Added(o0, o));
    WantedSize(first, turns);
    SubsetSize(slots - f0, slots);
    if turns > 0 && off % BSIZE != 0 {
      WantedIs(first, turns, FileSlot(first));
      SubsetSize(slots - f0, slots - {FileSlot(first)});
    }
    UnionSize(g - g0, blocks, maps);
  }

  // ---- Truncating -----------------------------------------------------------------------------

  /** Freeing blocks logs their bitmap blocks. */
  ghost predicate FreeLogged(l: Layout, owner0: Owner, owner: Owner, logged0: set<nat>, logged: set<nat>) {
    logged == logged0 + BitmapOf(l, Added(owner, owner0))
  }

  lemma FreeLoggedStart(l: Layout, owner: Owner, logged: set<nat>)
    ensures FreeLogged(l, owner, owner, logged, logged)
  {
    assert Added(owner, owner) == {};
    assert BitmapOf(l, Added(owner, owner)) == {};
  }

  lemma FreeLoggedStep(l: Layout, owner0: Owner, owner: Owner, logged0: set<nat>, logged: set<nat>, b: nat)
    requires FreeLogged(l, owner0, owner, logged0, logged) && b in owner && b in owner0
    ensures FreeLogged(l, owner0, owner - {b}, logged0, logged + {BBlock(l, b)})
  {
    hide BBlock;
    assert Added(owner - {b}, owner0) == Added(owner, owner0) + {b};
    BitmapJoin(l, Added(owner, owner0), {b});
    assert BitmapOf(l, {b}) == {BBlock(l, b)};
  }

  /** The blocks of a file. */
  ghost function BlocksOf(owner: Owner, i: nat): set<nat> {
    set b | b in owner && owner[b].0 == i
  }

  lemma FreeLoggedEnd(l: Layout, owner0: Owner, owner: Owner, logged0: set<nat>, logged: set<nat>, i: nat)
    requires FreeLogged(l, owner0, owner, logged0, logged) && forall b :: b in owner <==> b in owner0 && owner0[b].0 != i
    requires forall b :: b in owner0 ==> b < l.size
    ensures logged == logged0 + BitmapOf(l, BlocksOf(owner0, i))
    ensures |BitmapOf(l, BlocksOf(owner0, i))| <= BitmapBlocks(l)
  {
    assert Added(owner, owner0) == BlocksOf(owner0, i);
    BitmapBound(l, BlocksOf(owner0, i));
  }

  lemma FreedSize(logged: set<nat>, more: set<nat>, b: nat)
    ensures |logged + more + {b} - logged| <= |more| + 1
  {
    UnionSize(logged + more + {b} - logged, more, {b});
  }

  lemma OwnsBlocks(view: seq<Block>, inodes: seq<Inode>, l: Layout, owner: Owner)
    requires Owns(view, inodes, l, owner, {}, {})
    ensures forall b :: b in owner ==> l.nmeta <= b < l.size
  {
    hide BitSet, Mapped;
  }
}
