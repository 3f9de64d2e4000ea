// Counting the elements of sequences and sets of numbers.
module Counting {

  function Below(n: nat): (s: set<nat>)
    ensures |s| == n && forall x :: x in s <==> 0 <= x < n
  {
    if n == 0 then {} else Below(n-1) + {n-1}
  }

  ghost function Elements(order: seq<nat>): set<nat> {
    set x | x in order
  }

  lemma {:induction false} DistinctSize(order: seq<nat>)
    requires forall i, j :: 0 <= i < j < |order| ==> order[i] != order[j]
    ensures |Elements(order)| == |order|
  {
    if order != [] {
      var rest, last := order[..|order|-1], order[|order|-1];
      DistinctSize(rest);
      assert last !in rest;
      assert Elements(order) == Elements(rest) + {last};
    }
  }

  /** n distinct numbers below n are all of them. */
  lemma HasAll(order: seq<nat>, n: nat, i: nat)
    requires |order| == n && i < n
    requires forall i :: 0 <= i < n ==> order[i] < n
    requires forall i, j :: 0 <= i < j < n ==> order[i] != order[j]
    ensures i in order
  {
    if i !in order {
      DistinctSize(order);
      assert Elements(order) <= Below(n) - {i};
      SubsetSize(Elements(order), Below(n) - {i});
      assert false;
    }
  }

  lemma {:induction false} SubsetSize(s: set<nat>, t: set<nat>)
    requires s <= t
    ensures |s| <= |t|
  {
    if s != {} {
      var x :| x in s;
      SubsetSize(s - {x}, t - {x});
    }
  }

  /** How many of `slots` are not filled. */
  function Lacking(slots: set<nat>, filled: set<nat>): nat {
    |slots - filled|
  }

  lemma OneLacking(s: nat, filled: set<nat>)
    ensures Lacking({s}, filled) == if s in filled then 0 else 1
  {
    assert {s} - filled == if s in filled then {} else {s};
  }

  lemma PairMissing(a: nat, b: nat, filled: set<nat>)
    requires a != b
    ensures Lacking({a, b}, filled) == (if a in filled then 0 else 1) + (if b in filled then 0 else 1)
  {
    var rest := {a, b} - filled;
    if a !in filled && b !in filled {
      assert rest == {a, b};
    } else if a !in filled {
      assert rest == {a};
    } else if b !in filled {
      assert rest == {b};
    } else {
      assert rest == {};
    }
  }

  lemma MissingJoin(slots1: set<nat>, slots2: set<nat>, filled: set<nat>)
    ensures Lacking(slots1 + slots2, filled) == Lacking(slots1, filled) + Lacking(slots2, filled + slots1)
  {
    assert slots1 + slots2 - filled == (slots1 - filled) + (slots2 - (filled + slots1));
  }

  lemma ShortBefore(slots: set<nat>, more: set<nat>, all: set<nat>, filled: set<nat>)
    requires slots + more <= all
    ensures Lacking(all, filled) >= Lacking(slots, filled) + Lacking(more, filled + slots)
  {
    MissingJoin(slots, more, filled);
    SubsetSize(slots + more - filled, all - filled);
  }

  lemma UnionSize(s: set<nat>, a: set<nat>, b: set<nat>)
    requires s <= a + b
    ensures |s| <= |a| + |b|
  {
    SubsetSize(s, a + b);
    assert |a + b| <= |a| + |b|;
  }
}
