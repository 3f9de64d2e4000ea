// How many table pages a mapping needs, and how many of them an address space has.
module Tables {
  import opened Options
  import opened PageTable
  import opened Counting

  /** Every table page below the root of an address space, by its level and place. */
  function TableId(level: nat, pre: nat): nat {
    if level == 0 then pre else MAXPAGE / ENTRIES + pre
  }

  ghost function TablesOf(kind: Kinds, r: nat): set<nat> {
    set t | t in kind && kind[t].Node? && kind[t].r == r && kind[t].level < 2 :: TableId(kind[t].level, kind[t].pre)
  }

  /** The table pages on the way to a page, down to a level. */
  function Ids(vpn: nat, level: nat): set<nat> {
    if level == 2 then {} else if level == 1 then {TableId(1, Pre(1, vpn))} else {TableId(1, Pre(1, vpn)), TableId(0, Pre(0, vpn))}
  }

  /** The table pages for n pages from `first` on. */
  function RangeIds(first: nat, n: nat): set<nat> {
    if n == 0 then {} else RangeIds(first, n-1) + Ids(first + n - 1, 0)
  }

  /** An entry on the way to a page is valid exactly if the table page it leads to is there. */
  lemma TableThere(mem: Mem, kind: Kinds, r: nat, vpn: nat, t: nat, level: nat)
    requires TreeOk(mem, kind) && 1 <= level <= 2 && vpn < MAXPAGE && At(kind, r, vpn, t, level)
    ensures TableId(level - 1, Pre(level - 1, vpn)) in TablesOf(kind, r) <==> Entry(mem, t, Px(level, vpn)).Some?
  {
    hide TreeBut, Entry;
    var id := TableId(level - 1, Pre(level - 1, vpn));
    PreNext(level, vpn);
    SlotAt(mem, kind, t, Px(level, vpn), None);
    if id in TablesOf(kind, r) {
      var x :| x in kind && kind[x].Node? && kind[x].r == r && kind[x].level < 2 && TableId(kind[x].level, kind[x].pre) == id;
      HungAt(mem, kind, x, None);
      OneNode(mem, kind, kind[x].up, t);
    }
  }

  lemma AddTable(kind: Kinds, c: nat, k: Kind, r: nat)
    requires c in kind && !kind[c].Node? && k.Node? && k.r == r && k.level < 2
    ensures TablesOf(kind[c := k], r) == TablesOf(kind, r) + {TableId(k.level, k.pre)}
  {
    hide TableId;
    var kind2 := kind[c := k];
    forall id | id in TablesOf(kind, r)
      ensures id in TablesOf(kind2, r)
    {
      var x :| x in kind && kind[x].Node? && kind[x].r == r && kind[x].level < 2 && TableId(kind[x].level, kind[x].pre) == id;
      assert kind2[x] == kind[x];
    }
    assert kind2[c] == k;
    forall id | id in TablesOf(kind2, r)
      ensures id in TablesOf(kind, r) + {TableId(k.level, k.pre)}
    {
      var x :| x in kind2 && kind2[x].Node? && kind2[x].r == r && kind2[x].level < 2 && TableId(kind2[x].level, kind2[x].pre) == id;
      assert x != c ==> kind[x] == kind2[x];
    }
  }

  lemma NoNewTable(kind: Kinds, c: nat, k: Kind, r: nat)
    requires c in kind && !kind[c].Node? && !k.Node?
    ensures TablesOf(kind[c := k], r) == TablesOf(kind, r)
  {
    hide TableId;
    var kind2 := kind[c := k];
    forall x | x in kind && x != c
      ensures kind2[x] == kind[x]
    {
    }
  }

  // ---- Paying for table pages from the free ones ------------------------------------------------

  /** With free0 pages free and tables have0, those of `ids` that were missing have been made. */
  ghost predicate Paid(ids: set<nat>, free0: int, have0: set<nat>, free: int, have: set<nat>) {
    have == have0 + ids && free == free0 - Lacking(ids, have0)
  }

  lemma PaidNothing(free: int, have: set<nat>)
    ensures Paid({}, free, have, free, have)
  {
    assert {} - have == {};
    assert have == have + {};
  }

  lemma PaidOne(id: nat, free: int, have: set<nat>)
    ensures id in have ==> Paid({id}, free, have, free, have)
    ensures id !in have ==> Paid({id}, free, have, free - 1, have + {id})
  {
    OneLacking(id, have);
    assert id in have ==> have == have + {id};
  }

  lemma PaidJoin(ids1: set<nat>, ids2: set<nat>, free0: int, have0: set<nat>, free1: int, have1: set<nat>, free2: int, have2: set<nat>)
    requires Paid(ids1, free0, have0, free1, have1) && Paid(ids2, free1, have1, free2, have2)
    ensures Paid(ids1 + ids2, free0, have0, free2, have2)
  {
    hide Lacking;
    MissingJoin(ids1, ids2, have0);
  }

  /** What a step lacks, the whole lacks. */
  lemma PaidShort(ids: set<nat>, more: set<nat>, all: set<nat>, free0: int, have0: set<nat>, free: int, have: set<nat>)
    requires Paid(ids, free0, have0, free, have) && ids + more <= all
    ensures free - Lacking(more, have) >= free0 - Lacking(all, have0)
  {
    hide Lacking;
    ShortBefore(ids, more, all, have0);
  }

  lemma {:induction false} RangeGrows(first: nat, n: nat, m: nat)
    requires n <= m
    ensures RangeIds(first, n) <= RangeIds(first, m)
  {
    if n < m {
      RangeGrows(first, n, m-1);
    }
  }

  lemma RangeMore(first: nat, n: nat)
    ensures RangeIds(first, n + 1) == RangeIds(first, n) + Ids(first + n, 0)
  {
  }

  lemma IdsDown(vpn: nat, level: nat)
    requires 1 <= level <= 2
    ensures Ids(vpn, level - 1) == Ids(vpn, level) + {TableId(level - 1, Pre(level - 1, vpn))} && Ids(vpn, level - 1) <= Ids(vpn, 0)
  {
  }

  lemma NoIds(vpn: nat)
    ensures Ids(vpn, 2) == {}
  {
  }

  lemma NoRange(first: nat)
    ensures RangeIds(first, 0) == {}
  {
  }

  lemma OneRange(vpn: nat)
    ensures RangeIds(vpn, 1) == Ids(vpn, 0)
  {
    RangeMore(vpn, 0);
  }

  lemma PaidRoom(ids: set<nat>, free0: int, have0: set<nat>, free: nat, have: set<nat>)
    requires Paid(ids, free0, have0, free, have)
    ensures free0 >= Lacking(ids, have0)
  {
  }

  // ---- Filling pages ----------------------------------------------------------------------------

  /** What it takes to fill pages first .. last of r: a frame each, and the table pages r lacks. */
  ghost function Cost(kind: Kinds, r: nat, first: nat, last: nat): nat {
    if last <= first then 0 else last - first + Lacking(RangeIds(first, last - first), TablesOf(kind, r))
  }

  /** Pages first .. last of r have been filled at that cost. */
  ghost predicate Spent(kind0: Kinds, kind: Kinds, r: nat, first: nat, last: nat, free0: int, free: int) {
    first <= last && Paid(RangeIds(first, last - first), free0 - (last - first), TablesOf(kind0, r), free, TablesOf(kind, r))
  }

  lemma SpentNothing(kind: Kinds, r: nat, first: nat, free: nat)
    ensures Spent(kind, kind, r, first, first, free, free)
  {
    PaidNothing(free, TablesOf(kind, r));
  }

  lemma SpentMore(kind0: Kinds, kind1: Kinds, kind: Kinds, r: nat, first: nat, a: nat, last: nat, free0: int, free1: int, free: int, ok: bool)
    requires Spent(kind0, kind1, r, first, a, free0, free1) && a < last
    requires ok <==> free1 >= 1 + Lacking(Ids(a, 0), TablesOf(kind1, r))
    requires ok ==> Paid(Ids(a, 0), free1 - 1, TablesOf(kind1, r), free, TablesOf(kind, r))
    ensures ok ==> Spent(kind0, kind, r, first, a + 1, free0, free)
    ensures !ok ==> free0 < Cost(kind0, r, first, last)
  {
    hide Paid, Lacking, TablesOf, RangeIds, Ids;
    RangeMore(first, a - first);
    RangeGrows(first, a - first + 1, last - first);
    PaidLess(RangeIds(first, a - first), free0 - (a - first), TablesOf(kind0, r), free1, TablesOf(kind1, r));
    if ok {
      PaidJoin(RangeIds(first, a - first), Ids(a, 0), free0 - (a - first) - 1, TablesOf(kind0, r), free1 - 1, TablesOf(kind1, r), free, TablesOf(kind, r));
    } else {
      PaidShort(RangeIds(first, a - first), Ids(a, 0), RangeIds(first, last - first), free0 - (a - first), TablesOf(kind0, r), free1, TablesOf(kind1, r));
    }
  }

  lemma PaidLess(ids: set<nat>, free0: int, have0: set<nat>, free: int, have: set<nat>)
    requires Paid(ids, free0, have0, free, have)
    ensures Paid(ids, free0 - 1, have0, free - 1, have)
  {
  }

  lemma SpentRoom(kind0: Kinds, kind: Kinds, r: nat, first: nat, last: nat, free0: int, free: nat)
    requires last > first ==> Spent(kind0, kind, r, first, last, free0, free)
    requires free0 >= 0
    ensures free0 >= Cost(kind0, r, first, last)
  {
  }
}
