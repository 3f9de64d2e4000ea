// The user-level memory allocator: a circular free list in address order. Addresses count Header-sized
// units; a block's header is its first unit.
module Umalloc {
  import opened Options

  const BASE: nat := 1          // the static header `base`, below the heap; 0 is the null pointer
  const UNIT: nat := 16         // sizeof(Header)
  const MINCORE: nat := 4096
  const MAXREQUEST: nat := 0x7fff_ffe0

  // ---- The free list --------------------------------------------------------------------------

  /** The pointers visit f in order, from base and back to it. */
  ghost predicate Linked(f: seq<nat>, ptr: map<nat, nat>) {
    && |f| >= 1 && f[0] == BASE
    && (forall i :: 0 <= i < |f| ==> f[i] in ptr)
    && (forall i, j :: 0 <= i < j < |f| && j == i + 1 ==> ptr[f[i]] == f[j])
    && ptr[f[|f|-1]] == BASE
  }

  /** Blocks are in address order and neither overlap nor touch: neighbours have been joined. */
  ghost predicate Spaced(f: seq<nat>, size: map<nat, nat>) {
    && |f| >= 1 && f[0] == BASE
    && (forall i :: 0 <= i < |f| ==> f[i] in size)
    && size[BASE] == 0
    && (forall i :: 1 <= i < |f| ==> size[f[i]] >= 1)
    && (forall i, j :: 0 <= i < j < |f| ==> f[i] + size[f[i]] < f[j])
  }

  ghost predicate ListOk(f: seq<nat>, ptr: map<nat, nat>, size: map<nat, nat>) {
    Linked(f, ptr) && Spaced(f, size)
  }

  /** Unit x is in some free block. */
  ghost predicate InFree(f: seq<nat>, size: map<nat, nat>, x: nat) {
    exists i :: 0 <= i < |f| && f[i] in size && f[i] <= x < f[i] + size[f[i]]
  }

  /** No unit of the n-unit block at b is free. */
  ghost predicate Apart(f: seq<nat>, size: map<nat, nat>, b: nat, n: nat) {
    && b > BASE && n >= 1
    && (forall x :: b <= x < b + n ==> !InFree(f, size, x))
  }

  /** The free units of (f2, s2) are those of (f, s) and the n units from b on. */
  ghost predicate Gains(f: seq<nat>, s: map<nat, nat>, f2: seq<nat>, s2: map<nat, nat>, b: nat, n: nat) {
    forall x: nat :: InFree(f2, s2, x) <==> InFree(f, s, x) || b <= x < b + n
  }

  /** k blocks of the list start below b. */
  ghost predicate Splits(f: seq<nat>, b: nat, k: nat) {
    && k <= |f|
    && (forall i :: 0 <= i < k ==> f[i] < b)
    && (forall i :: k <= i < |f| ==> b <= f[i])
  }

  ghost function Below(f: seq<nat>, b: nat): (k: nat)
    requires forall i, j :: 0 <= i < j < |f| ==> f[i] < f[j]
    ensures Splits(f, b, k)
  {
    if f == [] then 0
    else if f[|f|-1] < b then |f|
    else Below(f[..|f|-1], b)
  }

  /** Where a block belongs: after block k-1 of the list, and before block k if there is one. */
  lemma Place(f: seq<nat>, ptr: map<nat, nat>, size: map<nat, nat>, b: nat, n: nat, k: nat)
    requires ListOk(f, ptr, size) && Apart(f, size, b, n) && Splits(f, b, k)
    ensures 1 <= k && f[k-1] + size[f[k-1]] <= b && (k < |f| ==> b + n <= f[k])
    ensures k == 1 ==> f[0] + size[f[0]] < b
  {
    assert f[0] < b;
    assert f[k-1] + size[f[k-1]] > b ==> InFree(f, size, b);
    assert k < |f| && f[k] < b + n ==> InFree(f, size, f[k]);
  }

  function Without(f: seq<nat>, k: nat): (r: seq<nat>)
    requires k < |f|
    ensures |r| == |f| - 1
    ensures forall i :: 0 <= i < |r| ==> r[i] == if i < k then f[i] else f[i+1]
  {
    f[..k] + f[k+1..]
  }

  function With(f: seq<nat>, k: nat, b: nat): (r: seq<nat>)
    requires k <= |f|
    ensures |r| == |f| + 1
    ensures forall i :: 0 <= i < |r| ==> r[i] == if i < k then f[i] else if i == k then b else f[i-1]
  {
    f[..k] + [b] + f[k..]
  }

  lemma RemoveLinks(f: seq<nat>, ptr: map<nat, nat>, k: nat)
    requires Linked(f, ptr) && 1 <= k < |f|
    requires forall i, j :: 0 <= i < j < |f| ==> f[i] < f[j]
    ensures Linked(Without(f, k), ptr[f[k-1] := ptr[f[k]]])
  {
    var g, q := Without(f, k), ptr[f[k-1] := ptr[f[k]]];
    forall i, j | 0 <= i < j < |g| && j == i + 1 ensures q[g[i]] == g[j] {
      if i < k - 1 { assert ptr[f[i]] == f[j]; }
      else if i == k - 1 { assert ptr[f[k]] == f[k+1]; }
      else { assert ptr[f[i+1]] == f[j+1]; }
    }
  }

  lemma RemoveGains(f: seq<nat>, size: map<nat, nat>, k: nat)
    requires k < |f| && (forall i :: 0 <= i < |f| ==> f[i] in size)
    ensures Gains(Without(f, k), size, f, size, f[k], size[f[k]])
  {
    var g := Without(f, k);
    forall x: nat | InFree(f, size, x) ensures InFree(g, size, x) || f[k] <= x < f[k] + size[f[k]] {
      var i :| 0 <= i < |f| && f[i] <= x < f[i] + size[f[i]];
      if i < k { assert g[i] == f[i]; } else if i > k { assert g[i-1] == f[i]; }
    }
    forall x: nat | InFree(g, size, x) ensures InFree(f, size, x) {
      var i :| 0 <= i < |g| && g[i] <= x < g[i] + size[g[i]];
      assert g[i] == if i < k then f[i] else f[i+1];
    }
  }

  lemma RemoveSpaced(f: seq<nat>, size: map<nat, nat>, k: nat)
    requires Spaced(f, size) && 1 <= k < |f|
    ensures Spaced(Without(f, k), size)
  {
  }

  /** Unlinking block k. */
  lemma RemoveKeeps(f: seq<nat>, ptr: map<nat, nat>, size: map<nat, nat>, k: nat)
    requires ListOk(f, ptr, size) && 1 <= k < |f|
    ensures ListOk(Without(f, k), ptr[f[k-1] := ptr[f[k]]], size)
    ensures Gains(Without(f, k), size, f, size, f[k], size[f[k]])
  {
    hide Linked, Gains, Without, InFree;
    RemoveLinks(f, ptr, k);
    RemoveSpaced(f, size, k);
    RemoveGains(f, size, k);
  }

  lemma InsertLinks(f: seq<nat>, ptr: map<nat, nat>, k: nat, b: nat)
    requires Linked(f, ptr) && 1 <= k <= |f|
    requires forall i, j :: 0 <= i < j < |f| ==> f[i] < f[j]
    requires forall i :: 0 <= i < |f| ==> f[i] != b
    ensures Linked(With(f, k, b), ptr[b := ptr[f[k-1]]][f[k-1] := b])
  {
    var g, q := With(f, k, b), ptr[b := ptr[f[k-1]]][f[k-1] := b];
    assert |g| > 0 && g[0] == f[0];
    hide With;
    forall i | 0 <= i < |g| ensures g[i] in q && q[g[i]] == if i + 1 < |g| then g[i+1] else BASE {
      InsertLinkAt(f, ptr, k, b, i);
    }
  }

  lemma InsertLinkAt(f: seq<nat>, ptr: map<nat, nat>, k: nat, b: nat, i: nat)
    requires Linked(f, ptr) && 1 <= k <= |f| && i <= |f|
    requires forall i, j :: 0 <= i < j < |f| ==> f[i] < f[j]
    requires forall i :: 0 <= i < |f| ==> f[i] != b
    ensures var g, q := With(f, k, b), ptr[b := ptr[f[k-1]]][f[k-1] := b];
            g[i] in q && q[g[i]] == if i + 1 < |g| then g[i+1] else BASE
  {
    var g, q := With(f, k, b), ptr[b := ptr[f[k-1]]][f[k-1] := b];
    hide With, Linked;
    if i < k - 1 { LinkAt(f, ptr, i); }
    else if i == k - 1 { assert g[i] == f[k-1] && g[i+1] == b; }
    else if i == k { LinkAt(f, ptr, k-1); }
    else { LinkAt(f, ptr, i-1); }
  }

  lemma LinkAt(f: seq<nat>, ptr: map<nat, nat>, i: nat)
    requires Linked(f, ptr) && i < |f|
    ensures f[i] in ptr && ptr[f[i]] == if i + 1 < |f| then f[i+1] else BASE
  {
  }

  lemma InsertSpaced(f: seq<nat>, size: map<nat, nat>, k: nat, b: nat, n: nat)
    requires Spaced(f, size) && 1 <= k <= |f| && n >= 1
    requires f[k-1] + size[f[k-1]] < b && (k < |f| ==> b + n < f[k])
    ensures Spaced(With(f, k, b), size[b := n])
    ensures forall i :: 0 <= i < |f| ==> f[i] != b
  {
    var g, s := With(f, k, b), size[b := n];
    forall i | 0 <= i < k ensures f[i] + size[f[i]] < b {
      if i < k - 1 { assert f[i] + size[f[i]] < f[k-1]; }
    }
    forall i | k <= i < |f| ensures b + n < f[i] {
      if k < i { assert f[k] + size[f[k]] < f[i]; }
    }
    forall i, j | 0 <= i < j < |g| ensures g[i] + s[g[i]] < g[j] {
      assert j != k ==> g[j] == f[if j < k then j else j - 1];
    }
  }

  /** Linking in a block that touches neither neighbour. */
  lemma InsertKeeps(f: seq<nat>, ptr: map<nat, nat>, size: map<nat, nat>, k: nat, b: nat, n: nat)
    requires ListOk(f, ptr, size) && 1 <= k <= |f| && n >= 1
    requires f[k-1] + size[f[k-1]] < b && (k < |f| ==> b + n < f[k])
    ensures ListOk(With(f, k, b), ptr[b := ptr[f[k-1]]][f[k-1] := b], size[b := n])
    ensures Gains(f, size, With(f, k, b), size[b := n], b, n)
  {
    hide Linked, Gains, With, InFree;
    InsertSpaced(f, size, k, b, n);
    InsertLinks(f, ptr, k, b);
    InsertGains(f, size, k, b, n);
  }

  lemma InsertGains(f: seq<nat>, size: map<nat, nat>, k: nat, b: nat, n: nat)
    requires k <= |f| && (forall i :: 0 <= i < |f| ==> f[i] in size && f[i] != b)
    ensures Gains(f, size, With(f, k, b), size[b := n], b, n)
  {
    var g, s := With(f, k, b), size[b := n];
    forall x: nat | InFree(g, s, x) ensures InFree(f, size, x) || b <= x < b + n {
      var i :| 0 <= i < |g| && g[i] <= x < g[i] + s[g[i]];
      if i != k { assert g[i] == f[if i < k then i else i - 1]; }
    }
    forall x: nat | InFree(f, size, x) ensures InFree(g, s, x) {
      var i :| 0 <= i < |f| && f[i] <= x < f[i] + size[f[i]];
      assert g[if i < k then i else i + 1] == f[i];
    }
    assert g[k] == b;
  }

  lemma GrowSpaced(f: seq<nat>, size: map<nat, nat>, k: nat, m: nat)
    requires Spaced(f, size) && 2 <= k <= |f|
    requires k < |f| ==> f[k-1] + size[f[k-1]] + m < f[k]
    ensures Spaced(f, size[f[k-1] := size[f[k-1]] + m])
    ensures forall i :: 0 <= i < |f| && i != k - 1 ==> f[i] != f[k-1]
  {
    forall i | k <= i < |f| ensures f[k-1] + size[f[k-1]] + m < f[i] {
      if k < i { assert f[k] + size[f[k]] < f[i]; }
    }
    assert forall i :: 0 <= i < k - 1 ==> f[i] + size[f[i]] < f[k-1];
  }

  /** Enlarging block k-1 upwards by m units, short of block k. */
  lemma GrowKeeps(f: seq<nat>, ptr: map<nat, nat>, size: map<nat, nat>, k: nat, m: nat)
    requires ListOk(f, ptr, size) && 2 <= k <= |f|
    requires k < |f| ==> f[k-1] + size[f[k-1]] + m < f[k]
    ensures ListOk(f, ptr, size[f[k-1] := size[f[k-1]] + m])
    ensures Gains(f, size, f, size[f[k-1] := size[f[k-1]] + m], f[k-1] + size[f[k-1]], m)
  {
    hide Linked, Gains, InFree;
    GrowSpaced(f, size, k, m);
    ResizeGains(f, size, k - 1, m);
  }

  lemma ResizeGains(f: seq<nat>, size: map<nat, nat>, k: nat, m: nat)
    requires k < |f| && (forall i :: 0 <= i < |f| ==> f[i] in size)
    requires forall i :: 0 <= i < |f| && i != k ==> f[i] != f[k]
    ensures Gains(f, size, f, size[f[k] := size[f[k]] + m], f[k] + size[f[k]], m)
  {
    var s := size[f[k] := size[f[k]] + m];
    forall x: nat | InFree(f, s, x) ensures InFree(f, size, x) || f[k] + size[f[k]] <= x < f[k] + s[f[k]] {
      var i :| 0 <= i < |f| && f[i] <= x < f[i] + s[f[i]];
    }
    forall x: nat | InFree(f, size, x) ensures InFree(f, s, x) {
      var i :| 0 <= i < |f| && f[i] <= x < f[i] + size[f[i]];
    }
    assert f[k] in s;
  }

  /** Cutting m units off the end of block k. */
  lemma ShrinkKeeps(f: seq<nat>, ptr: map<nat, nat>, size: map<nat, nat>, k: nat, m: nat)
    requires ListOk(f, ptr, size) && 1 <= k < |f| && m < size[f[k]]
    ensures ListOk(f, ptr, size[f[k] := size[f[k]] - m])
    ensures Gains(f, size[f[k] := size[f[k]] - m], f, size, f[k] + size[f[k]] - m, m)
  {
    var s := size[f[k] := size[f[k]] - m];
    assert forall i, j :: 0 <= i < j < |f| ==> f[i] != f[j];
    ResizeGains(f, s, k, m);
    assert s[f[k] := s[f[k]] + m] == size;
  }

  /** A header outside the list may hold anything. */
  lemma ForeignKey(f: seq<nat>, ptr: map<nat, nat>, size: map<nat, nat>, b: nat, q: nat, n: nat, s: map<nat, nat>)
    requires ListOk(f, ptr, size) && b !in f && s == size[b := n]
    ensures ListOk(f, ptr[b := q], s) && ListOk(f, ptr, s)
    ensures forall x: nat :: InFree(f, s, x) <==> InFree(f, size, x)
  {
    assert forall i :: 0 <= i < |f| ==> f[i] != b;
    forall x: nat ensures InFree(f, s, x) <==> InFree(f, size, x) {
      if InFree(f, size, x) {
        var i :| 0 <= i < |f| && f[i] <= x < f[i] + size[f[i]];
        assert f[i] in s;
      }
    }
  }

  lemma LinkedKeys(f: seq<nat>, ptr: map<nat, nat>)
    requires Linked(f, ptr)
    ensures forall i :: 0 <= i < |f| ==> f[i] in ptr
  {
  }

  // ---- Giving a block back: first join the block above, then the block below --------------------

  ghost predicate Touches(f: seq<nat>, b: nat, n: nat, k: nat) {
    k < |f| && b + n == f[k]
  }

  /** The list the block is linked into, and its size, once the block above it is joined. */
  ghost function Above(f: seq<nat>, b: nat, n: nat, k: nat): (g: seq<nat>) {
    if Touches(f, b, n, k) then Without(f, k) else f
  }

  ghost function Joined(f: seq<nat>, size: map<nat, nat>, b: nat, n: nat, k: nat): (m: nat)
    requires forall i :: 0 <= i < |f| ==> f[i] in size
  {
    if Touches(f, b, n, k) then n + size[f[k]] else n
  }

  ghost function Onward(f: seq<nat>, ptr: map<nat, nat>, b: nat, n: nat, k: nat): (q: map<nat, nat>)
    requires 1 <= k && (forall i :: 0 <= i < |f| ==> f[i] in ptr)
  {
    if Touches(f, b, n, k) then ptr[f[k-1] := ptr[f[k]]] else ptr
  }

  lemma JoinAbove(f: seq<nat>, ptr: map<nat, nat>, size: map<nat, nat>, b: nat, n: nat, k: nat)
    requires ListOk(f, ptr, size) && n >= 1 && 1 <= k <= |f|
    requires f[k-1] < b && (k < |f| ==> b + n <= f[k])
    ensures ListOk(Above(f, b, n, k), Onward(f, ptr, b, n, k), size)
    ensures k <= |Above(f, b, n, k)| && Above(f, b, n, k)[k-1] == f[k-1]
    ensures k < |Above(f, b, n, k)| ==> b + Joined(f, size, b, n, k) < Above(f, b, n, k)[k]
    ensures forall x: nat :: InFree(f, size, x) || b <= x < b + n <==>
                             InFree(Above(f, b, n, k), size, x) || b <= x < b + Joined(f, size, b, n, k)
  {
    hide InFree, Linked;
    if Touches(f, b, n, k) {
      RemoveKeeps(f, ptr, size, k);
    }
  }

  /** The list after a block of m units at b is linked in behind block k-1, or joined to it. */
  ghost function Behind(g: seq<nat>, size: map<nat, nat>, b: nat, k: nat): (h: seq<nat>)
    requires 1 <= k <= |g| && g[k-1] in size
  {
    if g[k-1] + size[g[k-1]] == b then g else With(g, k, b)
  }

  ghost function BehindPtr(g: seq<nat>, ptr: map<nat, nat>, size: map<nat, nat>, b: nat, k: nat): (q: map<nat, nat>)
    requires 1 <= k <= |g| && g[k-1] in size && g[k-1] in ptr
  {
    var q := ptr[b := ptr[g[k-1]]];
    if g[k-1] + size[g[k-1]] == b then q else q[g[k-1] := b]
  }

  ghost function BehindSize(g: seq<nat>, size: map<nat, nat>, b: nat, m: nat, k: nat): (s: map<nat, nat>)
    requires 1 <= k <= |g| && g[k-1] in size
  {
    var s := size[b := m];
    if g[k-1] + size[g[k-1]] == b then s[g[k-1] := size[g[k-1]] + m] else s
  }

  lemma JoinBelow(g: seq<nat>, ptr: map<nat, nat>, size: map<nat, nat>, b: nat, m: nat, k: nat)
    requires ListOk(g, ptr, size) && m >= 1 && 1 <= k <= |g|
    requires g[k-1] + size[g[k-1]] <= b && (k < |g| ==> b + m < g[k])
    requires k == 1 ==> g[0] + size[g[0]] < b
    ensures ListOk(Behind(g, size, b, k), BehindPtr(g, ptr, size, b, k), BehindSize(g, size, b, m, k))
    ensures Gains(g, size, Behind(g, size, b, k), BehindSize(g, size, b, m, k), b, m)
    ensures g[k-1] in Behind(g, size, b, k)
  {
    hide InFree, Linked, Gains;
    LinkedKeys(g, ptr);
    if g[k-1] + size[g[k-1]] == b {
      GrowBelow(g, ptr, size, b, m, k);
    } else {
      InsertKeeps(g, ptr, size, k, b, m);
      assert With(g, k, b)[k-1] == g[k-1];
    }
  }

  lemma GrowBelow(g: seq<nat>, ptr: map<nat, nat>, size: map<nat, nat>, b: nat, m: nat, k: nat)
    requires ListOk(g, ptr, size) && m >= 1 && 2 <= k <= |g| && g[k-1] in ptr
    requires g[k-1] + size[g[k-1]] == b && (k < |g| ==> b + m < g[k])
    ensures ListOk(g, ptr[b := ptr[g[k-1]]], size[b := m][g[k-1] := size[g[k-1]] + m])
    ensures Gains(g, size, g, size[b := m][g[k-1] := size[g[k-1]] + m], b, m)
  {
    NotListed(g, size, b, m, k);
    hide InFree, Linked, Spaced;
    GrowKeeps(g, ptr, size, k, m);
    var s := size[g[k-1] := size[g[k-1]] + m];
    ForeignKey(g, ptr, s, b, ptr[g[k-1]], m, s[b := m]);
    assert s[b := m] == size[b := m][g[k-1] := size[g[k-1]] + m];
  }

  lemma NotListed(g: seq<nat>, size: map<nat, nat>, b: nat, m: nat, k: nat)
    requires Spaced(g, size) && m >= 1 && 1 <= k <= |g|
    requires g[k-1] < b && (k < |g| ==> b + m < g[k])
    ensures b !in g
  {
    forall i | 0 <= i < |g| ensures g[i] != b {
      if i < k - 1 { assert g[i] + size[g[i]] < g[k-1]; }
      if k < i { assert g[k] + size[g[k]] < g[i]; }
    }
  }

  // ---- The heap ---------------------------------------------------------------------------------

  /** Unit x is in a block some caller holds. */
  ghost predicate InUsed(used: map<nat, nat>, x: nat) {
    exists u :: u in used && u <= x < u + used[u]
  }

  /** Every block a caller holds keeps its size in its header, and none of its units is free. */
  ghost predicate Live(f: seq<nat>, size: map<nat, nat>, used: map<nat, nat>) {
    forall u :: u in used ==> u in size && size[u] == used[u] && Apart(f, size, u, used[u])
  }

  /** Blocks in callers' hands never overlap. */
  ghost predicate Separate(used: map<nat, nat>) {
    forall u, v :: u in used && v in used && u < v ==> u + used[u] <= v
  }

  /** Every unit obtained from sbrk is free or in a caller's block, and no other unit is. */
  ghost predicate Exact(f: seq<nat>, size: map<nat, nat>, used: map<nat, nat>, owned: set<nat>) {
    forall x: nat :: x in owned <==> InFree(f, size, x) || InUsed(used, x)
  }

  ghost predicate HeapOk(f: seq<nat>, size: map<nat, nat>, used: map<nat, nat>, owned: set<nat>) {
    Live(f, size, used) && Separate(used) && Exact(f, size, used, owned)
  }

  ghost function Range(b: nat, n: nat): (r: set<nat>)
    ensures forall x: nat :: x in r <==> b <= x < b + n
  {
    if n == 0 then {} else Range(b, n - 1) + {b + n - 1}
  }

  function Units(nbytes: nat): (n: nat)
    ensures n >= 1
  {
    (nbytes + UNIT - 1) / UNIT + 1
  }

  /** The block holds the bytes asked for after its header, with less than one unit to spare. */
  lemma UnitsFit(nbytes: nat)
    ensures nbytes <= (Units(nbytes) - 1) * UNIT < nbytes + UNIT
  {
  }

  /** A block in a caller's hands is not on the list. */
  lemma LiveUnlisted(f: seq<nat>, size: map<nat, nat>, b: nat, n: nat)
    requires Spaced(f, size) && Apart(f, size, b, n)
    ensures b !in f
  {
    assert !InFree(f, size, b);
    assert forall i :: 0 <= i < |f| ==> f[i] != b;
  }

  /** A caller's block becomes free. */
  lemma FreeHeap(f: seq<nat>, s: map<nat, nat>, f2: seq<nat>, s2: map<nat, nat>,
                 used: map<nat, nat>, owned: set<nat>, b: nat)
    requires Spaced(f, s) && HeapOk(f, s, used, owned) && b in used
    requires Gains(f, s, f2, s2, b, used[b]) && OthersKept(f, s, s2, b)
    ensures HeapOk(f2, s2, used - {b}, owned)
  {
    hide Spaced, InFree;
    var rest := used - {b};
    forall u | u in rest
      ensures u in s2 && s2[u] == rest[u] && Apart(f2, s2, u, rest[u])
    {
      LiveUnlisted(f, s, u, used[u]);
      assert u + used[u] <= b || b + used[b] <= u;
    }
    forall x: nat ensures x in owned <==> InFree(f2, s2, x) || InUsed(rest, x) {
      if InUsed(used, x) && !(b <= x < b + used[b]) {
        var u :| u in used && u <= x < u + used[u];
        assert u in rest;
      }
      if InUsed(rest, x) {
        var u :| u in rest && u <= x < u + rest[u];
        assert u in used;
      }
    }
  }

  /** A new region becomes free. */
  lemma GrowHeap(f: seq<nat>, s: map<nat, nat>, f2: seq<nat>, s2: map<nat, nat>,
                 used: map<nat, nat>, owned: set<nat>, b: nat, n: nat)
    requires Spaced(f, s) && HeapOk(f, s, used, owned) && n >= 1 && b > BASE
    requires Range(b, n) !! owned
    requires Gains(f, s, f2, s2, b, n) && OthersKept(f, s, s2, b)
    ensures HeapOk(f2, s2, used, owned + Range(b, n))
  {
    hide Spaced, InFree;
    forall u | u in used
      ensures u in s2 && s2[u] == used[u] && Apart(f2, s2, u, used[u])
    {
      LiveUnlisted(f, s, u, used[u]);
      forall x: nat | u <= x < u + used[u] ensures !InFree(f2, s2, x) {
        assert InUsed(used, x) && x in owned;
      }
      assert InUsed(used, u) && u in owned;
    }
  }

  /** A free block goes to a caller. */
  lemma TakeHeap(f: seq<nat>, s: map<nat, nat>, f2: seq<nat>, s2: map<nat, nat>,
                 used: map<nat, nat>, owned: set<nat>, b: nat, n: nat)
    requires Spaced(f, s) && HeapOk(f, s, used, owned) && Apart(f2, s2, b, n) && b in s2 && s2[b] == n
    requires Gains(f2, s2, f, s, b, n) && OthersKept(f, s, s2, b)
    ensures HeapOk(f2, s2, used[b := n], owned) && b !in used
  {
    hide Spaced;
    var more := used[b := n];
    forall u: nat | u in used
      ensures u + used[u] <= b || b + n <= u
    {
      assert u < b < u + used[u] ==> InFree(f, s, b);
      assert b <= u < b + n ==> InFree(f, s, u);
    }
    forall u | u in more
      ensures u in s2 && s2[u] == more[u] && Apart(f2, s2, u, more[u])
    {
      if u != b { LiveUnlisted(f, s, u, used[u]); }
    }
    forall x: nat ensures x in owned <==> InFree(f2, s2, x) || InUsed(more, x) {
      if InUsed(used, x) {
        var u :| u in used && u <= x < u + used[u];
        assert u in more;
      }
      if InUsed(more, x) && !InFree(f, s, x) {
        var u :| u in more && u <= x < u + more[u];
        assert u in used;
      }
      assert b <= x < b + n ==> InUsed(more, x) by { assert b in more; }
    }
  }

  lemma GainsThrough(f: seq<nat>, s: map<nat, nat>, g: seq<nat>, h: seq<nat>, s2: map<nat, nat>, b: nat, n: nat, m: nat)
    requires forall x: nat :: InFree(f, s, x) || b <= x < b + n <==> InFree(g, s, x) || b <= x < b + m
    requires Gains(g, s, h, s2, b, m)
    ensures Gains(f, s, h, s2, b, n)
  {
  }

  /** Sizes of blocks outside the list and other than b are as before. */
  ghost predicate OthersKept(f: seq<nat>, s: map<nat, nat>, s2: map<nat, nat>, b: nat) {
    forall a :: a in s && a !in f && a != b ==> a in s2 && s2[a] == s[a]
  }

  ghost function FinalSize(f: seq<nat>, size: map<nat, nat>, b: nat, n: nat, k: nat): (s: map<nat, nat>)
    requires 1 <= k <= |f| && (forall i :: 0 <= i < |f| ==> f[i] in size)
  {
    var m, p := Joined(f, size, b, n, k), f[k-1];
    if p + size[p] == b then size[b := m][p := size[p] + m] else size[b := m]
  }

  ghost function FinalPtr(f: seq<nat>, ptr: map<nat, nat>, size: map<nat, nat>, b: nat, n: nat, k: nat): (q: map<nat, nat>)
    requires 1 <= k <= |f| && (forall i :: 0 <= i < |f| ==> f[i] in size && f[i] in ptr)
  {
    var on, p := Onward(f, ptr, b, n, k)[f[k-1]], f[k-1];
    ptr[b := on][p := if p + size[p] == b then on else b]
  }

  /** Block k-1 of the list is the last one below b, and where its pointer leads. */
  ghost predicate Gap(f: seq<nat>, ptr: map<nat, nat>, size: map<nat, nat>, b: nat, n: nat, k: nat) {
    && 1 <= k <= |f| && Splits(f, b, k) && b !in f && b > BASE
    && (forall i :: 0 <= i < |f| ==> f[i] in size && f[i] in ptr && f[i] != 0)
    && f[k-1] + size[f[k-1]] <= b
    && (k < |f| ==> b + n <= f[k] && ptr[f[k-1]] == f[k])
    && (k == |f| ==> ptr[f[k-1]] == BASE)
  }

  ghost function PlaceOf(f: seq<nat>, ptr: map<nat, nat>, size: map<nat, nat>, b: nat, n: nat): (k: nat)
    requires ListOk(f, ptr, size) && Apart(f, size, b, n)
    ensures Gap(f, ptr, size, b, n, k)
  {
    var k := Below(f, b);
    Place(f, ptr, size, b, n, k);
    LiveUnlisted(f, size, b, n);
    assert k < |f| ==> ptr[f[k-1]] == f[k];
    assert forall i :: 1 <= i < |f| ==> f[0] < f[i];
    k
  }

  /** Giving a block back leaves a list in address order whose blocks do not touch, with exactly the
      block's units added. */
  lemma GivenBack(f: seq<nat>, ptr: map<nat, nat>, size: map<nat, nat>, b: nat, n: nat, k: nat)
    requires ListOk(f, ptr, size) && Apart(f, size, b, n) && Gap(f, ptr, size, b, n, k)
    ensures k <= |Above(f, b, n, k)| && Above(f, b, n, k)[k-1] == f[k-1]
    ensures var h := Behind(Above(f, b, n, k), size, b, k);
            && ListOk(h, FinalPtr(f, ptr, size, b, n, k), FinalSize(f, size, b, n, k))
            && Gains(f, size, h, FinalSize(f, size, b, n, k), b, n)
            && f[k-1] in h
    ensures OthersKept(f, size, FinalSize(f, size, b, n, k), b)
  {
    hide InFree, Gains, Linked, Above, Behind;
    Place(f, ptr, size, b, n, k);
    JoinAbove(f, ptr, size, b, n, k);
    var g, q, m := Above(f, b, n, k), Onward(f, ptr, b, n, k), Joined(f, size, b, n, k);
    JoinBelow(g, q, size, b, m, k);
    LinkedKeys(g, q);
    assert FinalSize(f, size, b, n, k) == BehindSize(g, size, b, m, k);
    assert FinalPtr(f, ptr, size, b, n, k) == BehindPtr(g, q, size, b, k);
    GainsThrough(f, size, g, Behind(g, size, b, k), BehindSize(g, size, b, m, k), b, n, m);
  }

  function Core(nu: nat): (n: nat)
    ensures n >= nu && n >= 4096 && (n == nu || n == 4096)
  {
    if nu < MINCORE then MINCORE else nu
  }

  /** What a C `int` parameter receives when x is passed. */
  function AsInt(x: nat): (r: int)
    ensures -0x8000_0000 <= r < 0x8000_0000 && (x - r) % 0x1_0000_0000 == 0
  {
    var low := x % 0x1_0000_0000;
    if low < 0x8000_0000 then low else low - 0x1_0000_0000
  }

  /** Exactly the requests up to MAXREQUEST bytes reach sbrk unchanged; a larger one asks it for some
      other number of bytes than the block that is then freed. */
  lemma RequestFits(nbytes: nat)
    ensures AsInt(Core(Units(nbytes)) * UNIT) == Core(Units(nbytes)) * UNIT <==> nbytes <= MAXREQUEST
  {
    var n := Core(Units(nbytes)) * UNIT;
    assert nbytes <= MAXREQUEST <==> n < 0x8000_0000;
    assert n < 0x8000_0000 ==> n % 0x1_0000_0000 == n;
    assert AsInt(n) < 0x8000_0000;
  }

  lemma LiveBlock(f: seq<nat>, size: map<nat, nat>, used: map<nat, nat>, owned: set<nat>, b: nat)
    requires HeapOk(f, size, used, owned) && b in used
    ensures b in size && size[b] == used[b] && Apart(f, size, b, size[b])
  {
  }

  /** Writing the header of a region fresh from sbrk disturbs nothing. */
  lemma NewBlock(f: seq<nat>, ptr: map<nat, nat>, size: map<nat, nat>, used: map<nat, nat>, owned: set<nat>, b: nat, n: nat)
    requires ListOk(f, ptr, size) && HeapOk(f, size, used, owned)
    requires b > BASE && n >= 1 && Range(b, n) !! owned
    ensures ListOk(f, ptr, size[b := n]) && HeapOk(f, size[b := n], used, owned)
    ensures Apart(f, size[b := n], b, n)
  {
    hide InFree, Linked, Spaced;
    forall x | b <= x < b + n ensures !InFree(f, size, x) {
      assert x in Range(b, n);
    }
    LiveUnlisted(f, size, b, n);
    var s := size[b := n];
    ForeignKey(f, ptr, size, b, 0, n, s);
    assert b !in used by {
      assert b in Range(b, n);
      assert b in used ==> InUsed(used, b);
    }
    forall u | u in used ensures Apart(f, s, u, used[u]) {
      forall x | u <= x < u + used[u] ensures !InFree(f, s, x) {
        assert !InFree(f, size, x);
      }
    }
  }

  /** The unit just past a free block is not free. */
  lemma NotPastEnd(f: seq<nat>, s: map<nat, nat>, i: nat)
    requires Spaced(f, s) && i < |f|
    ensures !InFree(f, s, f[i] + s[f[i]])
  {
  }

  /** A list that covers n units in a row has a block of at least n units. */
  lemma BigBlock(f: seq<nat>, s: map<nat, nat>, f2: seq<nat>, s2: map<nat, nat>, b: nat, n: nat)
    requires Spaced(f2, s2) && Gains(f, s, f2, s2, b, n) && n >= 1
    ensures HasRoom(f2, s2, n)
  {
    assert InFree(f2, s2, b);
    var i :| 0 <= i < |f2| && f2[i] <= b < f2[i] + s2[f2[i]];
    NotPastEnd(f2, s2, i);
  }

  /** Taking block k whole. */
  lemma RemoveTakes(f: seq<nat>, ptr: map<nat, nat>, size: map<nat, nat>, k: nat)
    requires ListOk(f, ptr, size) && 1 <= k < |f|
    ensures ListOk(Without(f, k), ptr[f[k-1] := ptr[f[k]]], size)
    ensures Gains(Without(f, k), size, f, size, f[k], size[f[k]])
    ensures Apart(Without(f, k), size, f[k], size[f[k]]) && OthersKept(f, size, size, f[k])
    ensures f[k-1] in Without(f, k) && f[k-1] >= BASE
  {
    hide Linked, Gains;
    RemoveKeeps(f, ptr, size, k);
    assert Without(f, k)[k-1] == f[k-1];
    assert f[0] < f[k];
    assert forall i :: 0 <= i < k ==> f[i] + size[f[i]] < f[k];
    assert forall i :: k < i < |f| ==> f[k] + size[f[k]] < f[i];
  }

  /** Taking the last m units of block k. */
  lemma ShrinkTakes(f: seq<nat>, ptr: map<nat, nat>, size: map<nat, nat>, k: nat, m: nat)
    requires ListOk(f, ptr, size) && 1 <= k < |f| && 1 <= m < size[f[k]]
    ensures var b, s := f[k] + size[f[k]] - m, size[f[k] := size[f[k]] - m];
            && ListOk(f, ptr, s[b := m]) && Gains(f, s[b := m], f, size, b, m)
            && Apart(f, s[b := m], b, m) && OthersKept(f, size, s[b := m], b)
  {
    hide Linked;
    var b, s := f[k] + size[f[k]] - m, size[f[k] := size[f[k]] - m];
    ShrinkKeeps(f, ptr, size, k, m);
    TailUnlisted(f, size, k, b);
    ForeignKey(f, ptr, s, b, 0, m, s[b := m]);
    TailApart(f, s, k, b, m);
  }

  lemma TailUnlisted(f: seq<nat>, size: map<nat, nat>, k: nat, b: nat)
    requires Spaced(f, size) && 1 <= k < |f| && f[k] < b < f[k] + size[f[k]]
    ensures b !in f && b > BASE
  {
    assert forall i :: 0 <= i < k ==> f[i] < f[k];
    assert forall i :: k < i < |f| ==> f[k] + size[f[k]] < f[i];
  }

  lemma TailApart(f: seq<nat>, s: map<nat, nat>, k: nat, b: nat, m: nat)
    requires Spaced(f, s) && 1 <= k < |f| && b == f[k] + s[f[k]] && m >= 1 && b !in f && b > BASE
    requires forall i :: k < i < |f| ==> b + m < f[i]
    ensures Apart(f, s[b := m], b, m)
  {
    assert forall i :: 0 <= i < k ==> f[i] + s[f[i]] < f[k];
  }

  /** Some free block has at least n units. */
  ghost predicate HasRoom(f: seq<nat>, size: map<nat, nat>, n: nat) {
    exists i :: 0 <= i < |f| && f[i] in size && size[f[i]] >= n
  }

  /** r is the list's circle, cut open somewhere. */
  ghost predicate RotOk(f: seq<nat>, ptr: map<nat, nat>, r: seq<nat>) {
    && |r| == |f| >= 1
    && (forall i :: 0 <= i < |r| ==> r[i] in f && r[i] in ptr)
    && (forall i :: 0 <= i < |f| ==> f[i] in r)
    && (forall i, j :: 0 <= i < j < |r| ==> r[i] != r[j])
    && (forall i, j :: 0 <= i < j < |r| && j == i + 1 ==> ptr[r[i]] == r[j])
    && ptr[r[|r|-1]] == r[0]
  }

  ghost function Rotation(f: seq<nat>, ptr: map<nat, nat>, size: map<nat, nat>, a: nat): (r: seq<nat>)
    requires ListOk(f, ptr, size) && a in f
    ensures RotOk(f, ptr, r) && r[0] == a
  {
    var s :| 0 <= s < |f| && f[s] == a;
    RotateAt(f, ptr, size, s);
    Cut(f, s)
  }

  ghost function Cut(f: seq<nat>, s: nat): (r: seq<nat>)
    requires s < |f|
    ensures |r| == |f|
    ensures forall i :: 0 <= i < |r| ==> r[i] == f[if i < |f| - s then i + s else i - (|f| - s)]
  {
    f[s..] + f[..s]
  }

  lemma RotateAt(f: seq<nat>, ptr: map<nat, nat>, size: map<nat, nat>, s: nat)
    requires ListOk(f, ptr, size) && s < |f|
    ensures RotOk(f, ptr, Cut(f, s))
  {
    hide Cut, Spaced;
    var r := Cut(f, s);
    ListDistinct(f, size);
    forall i | 0 <= i < |f| ensures f[i] in r {
      assert f[i] == r[if i < s then |f| - s + i else i - s];
    }
    CutLinks(f, ptr, s);
  }

  lemma ListDistinct(f: seq<nat>, size: map<nat, nat>)
    requires Spaced(f, size)
    ensures forall i, j :: 0 <= i < j < |f| ==> f[i] != f[j]
  {
  }

  lemma CutLinks(f: seq<nat>, ptr: map<nat, nat>, s: nat)
    requires Linked(f, ptr) && s < |f|
    ensures forall i, j :: 0 <= i < j < |f| && j == i + 1 ==> ptr[Cut(f, s)[i]] == Cut(f, s)[j]
    ensures ptr[Cut(f, s)[|f|-1]] == Cut(f, s)[0]
  {
    hide Cut;
    var r, n := Cut(f, s), |f|;
    forall i, j | 0 <= i < j < n && j == i + 1 ensures ptr[r[i]] == r[j] {
      if j < n - s { assert ptr[f[i+s]] == f[j+s]; }
      else if i >= n - s { assert ptr[f[i-(n-s)]] == f[j-(n-s)]; }
    }
    if s > 0 { assert ptr[f[s-1]] == f[s]; }
  }

  lemma RotAt(f: seq<nat>, ptr: map<nat, nat>, size: map<nat, nat>, r: seq<nat>, c: nat)
    requires RotOk(f, ptr, r) && ListOk(f, ptr, size) && c < |r|
    ensures r[c] in f && r[c] in ptr && ptr[r[c]] in f && ptr[r[c]] in ptr && ptr[r[c]] in size
  {
    if c + 1 < |r| { assert ptr[r[c]] == r[c+1]; }
  }

  lemma RotNext(f: seq<nat>, ptr: map<nat, nat>, size: map<nat, nat>, r: seq<nat>, c: nat, p: nat)
    requires RotOk(f, ptr, r) && c < |r| && r[c] in ptr && p == ptr[r[c]]
    ensures p == r[0] ==> c + 1 == |r|
    ensures p != r[0] ==> c + 1 < |r| && r[c+1] == p
  {
    if c + 1 < |r| { assert ptr[r[c]] == r[c+1]; }
  }

  /** Once the whole circle has been seen, no block is large enough. */
  lemma AllSmall(f: seq<nat>, size: map<nat, nat>, ptr: map<nat, nat>, r: seq<nat>, c: nat, n: nat)
    requires RotOk(f, ptr, r) && c + 1 == |r| && r[0] in size && size[r[0]] < n
    requires forall i :: 1 <= i <= c ==> r[i] in size && size[r[i]] < n
    ensures !HasRoom(f, size, n)
  {
    forall i | 0 <= i < |f| ensures f[i] in size && size[f[i]] < n {
      assert f[i] in r;
    }
  }

  ghost function Predecessor(f: seq<nat>, ptr: map<nat, nat>, size: map<nat, nat>, a: nat, p: nat, n: nat): (k: nat)
    requires ListOk(f, ptr, size) && a in f && p in size && size[p] >= n >= 1 && a in ptr && ptr[a] == p
    ensures 1 <= k < |f| && f[k-1] == a && f[k] == p && HasRoom(f, size, n)
  {
    var j :| 0 <= j < |f| && f[j] == a;
    assert j + 1 < |f| ==> ptr[f[j]] == f[j+1];
    j + 1
  }

  lemma NoRoom(f: seq<nat>, s: map<nat, nat>, f2: seq<nat>, s2: map<nat, nat>, n: nat, freep: nat)
    requires n >= 1
    requires freep != 0 ==> f2 == f && s2 == s
    requires freep == 0 ==> f == [] && f2 == [BASE] && Spaced(f2, s2)
    ensures HasRoom(f2, s2, n) <==> HasRoom(f, s, n)
  {
  }

  class Allocator {
    var ptr: map<nat, nat>
    var size: map<nat, nat>
    var freep: nat
    ghost var list: seq<nat>          // the free list in address order
    ghost var used: map<nat, nat>     // block address to size in units, for blocks in callers' hands
    ghost var owned: set<nat>         // the units taken to be obtained from sbrk

    ghost predicate Valid()
      reads this
    {
      if freep == 0 then list == [] && used == map[] && owned == {}
      else freep in list && ListOk(list, ptr, size) && HeapOk(list, size, used, owned)
    }

    constructor ()
      ensures Valid() && used == map[] && owned == {}
    {
      ptr, size, freep := map[], map[], 0;
      list, used, owned := [], map[], {};
    }

    /** Walks the list to the block that bp comes after. */
    method FindPlace(bp: nat, ghost k: nat) returns (p: nat)
      requires freep in list && ListOk(list, ptr, size)
      requires bp > BASE && bp !in list && Splits(list, bp, k)
      ensures 1 <= k && p == list[k-1]
    {
      p := freep;
      ghost var j: nat :| j < |list| && list[j] == p;
      assert list[0] < bp;
      while !(bp > p && bp < ptr[p])
        invariant j < |list| && p == list[j]
        decreases if j < k then k - j else k + |list| - j
      {
        assert j + 1 < |list| ==> ptr[list[j]] == list[j+1];
        if p >= ptr[p] && (bp > p || bp < ptr[p]) { break; }
        p := ptr[p];
        j := if j + 1 < |list| then j + 1 else 0;
      }
      assert j + 1 < |list| ==> ptr[list[j]] == list[j+1];
      assert forall i :: 0 <= i < j ==> list[i] < list[j];
    }

    /** Links the block at bp into the list, joined to whichever neighbours it touches. */
    method Insert(bp: nat)
      requires freep in list && ListOk(list, ptr, size) && bp in size && Apart(list, size, bp, size[bp])
      modifies `ptr, `size, `freep, `list
      ensures freep in list && freep != 0 && ListOk(list, ptr, size)
      ensures Gains(old(list), old(size), list, size, bp, old(size[bp]))
      ensures OthersKept(old(list), old(size), size, bp)
    {
      hide InFree, Gains, ListOk, Linked, Spaced, Apart, Behind, Above, OthersKept;
      ghost var n := size[bp];
      ghost var k := PlaceOf(list, ptr, size, bp, n);
      GivenBack(list, ptr, size, bp, n, k);
      var p := FindPlace(bp, k);
      ghost var m, on := Joined(list, size, bp, n, k), Onward(list, ptr, bp, n, k)[p];
      if bp + size[bp] == ptr[p] {
        size := size[bp := size[bp] + size[ptr[p]]];
        ptr := ptr[bp := ptr[ptr[p]]];
      } else {
        ptr := ptr[bp := ptr[p]];
      }
      assert size == old(size)[bp := m];
      assert ptr == old(ptr)[bp := on];
      if p + size[p] == bp {
        size := size[p := size[p] + size[bp]];
        ptr := ptr[p := ptr[bp]];
      } else {
        ptr := ptr[p := bp];
      }
      freep := p;
      list := Behind(Above(list, bp, n, k), old(size), bp, k);
      assert size == FinalSize(old(list), old(size), bp, n, k);
      assert ptr == FinalPtr(old(list), old(ptr), old(size), bp, n, k);
    }

    /** Gives back the block whose payload starts at ap. */
    method Free(ap: nat)
      requires Valid() && ap >= 1 && ap - 1 in used
      modifies this
      ensures Valid() && used == old(used) - {ap - 1} && owned == old(owned)
    {
      hide InFree, Gains, Linked, Spaced, HeapOk, OthersKept;
      var bp := ap - 1;
      LiveBlock(list, size, used, owned, bp);
      Insert(bp);
      FreeHeap(old(list), old(size), list, size, used, owned, bp);
      used := used - {bp};
    }

    /** Asks sbrk for at least nu units, and frees them. sbrk is what the call returns, the old end of
        memory; `bytes` is what it is asked for, which is what was meant only if nothing is cut off. */
    method Morecore(nu: nat, sbrk: Option<nat>) returns (p: nat, bytes: int)
      requires freep != 0 && Valid() && 1 <= nu
      requires sbrk.Some? ==> sbrk.value > BASE && Range(sbrk.value, Core(nu)) !! owned
      modifies this
      ensures freep != 0 && Valid() && used == old(used) && bytes == AsInt(Core(nu) * UNIT)
      ensures sbrk.None? ==> p == 0 && unchanged(this)
      ensures sbrk.Some? ==>
                && p == freep && owned == old(owned) + Range(sbrk.value, Core(nu))
                && HasRoom(list, size, nu)
    {
      hide InFree, Gains, Linked, HeapOk, OthersKept;
      var n := Core(nu);
      bytes := AsInt(n * UNIT);
      if sbrk.None? { return 0, bytes; }
      var hp := sbrk.value;
      NewBlock(list, ptr, size, used, owned, hp, n);
      size := size[hp := n];
      ghost var s0 := size;
      Insert(hp);
      GrowHeap(old(list), s0, list, size, used, owned, hp, n);
      BigBlock(old(list), s0, list, size, hp, n);
      owned := owned + Range(hp, n);
      p := freep;
    }

    /** The first call's initialisation of base. */
    method Init()
      requires Valid()
      modifies this
      ensures freep != 0 && Valid() && used == old(used) && owned == old(owned)
      ensures old(freep) != 0 ==> unchanged(this)
      ensures old(freep) == 0 ==> list == [BASE] && freep == BASE
    {
      if freep == 0 {
        ptr, freep := ptr[BASE := BASE], BASE;
        size := size[BASE := 0];
        list := [BASE];
        assert freep == list[0];
      }
    }

    /** Takes the block p, which follows prevp, or its tail if it is larger than wanted. */
    method Take(prevp: nat, q: nat, nunits: nat, ghost k: nat) returns (p: nat)
      requires freep != 0 && Valid() && 1 <= k < |list| && prevp == list[k-1] && q == list[k]
      requires 1 <= nunits <= size[q]
      modifies this
      ensures freep != 0 && Valid()
      ensures p > BASE && p !in old(used) && used == old(used)[p := nunits] && owned == old(owned)
    {
      hide InFree, Gains, Linked, HeapOk, OthersKept;
      LinkedKeys(list, ptr);
      p := q;
      if size[p] == nunits {
        RemoveTakes(list, ptr, size, k);
        ptr := ptr[prevp := ptr[p]];
        list := Without(list, k);
      } else {
        ShrinkTakes(list, ptr, size, k, nunits);
        size := size[p := size[p] - nunits];
        p := p + size[p];
        size := size[p := nunits];
      }
      freep := prevp;
      TakeHeap(old(list), old(size), list, size, used, owned, p, nunits);
      used := used[p := nunits];
    }

    /** Hands out a block for nbytes bytes, or 0. The list is walked once; sbrk is asked at most once,
        and only when no free block is large enough. sbrk is what that call would return, and `bytes` what
        it is asked for: the size of the block that is then freed exactly if nbytes is at most MAXREQUEST. */
    method Malloc(nbytes: nat, sbrk: Option<nat>) returns (ap: nat, asked: bool, bytes: int)
      requires Valid() && nbytes < 0x1_0000_0000
      requires sbrk.Some? ==> sbrk.value > BASE && Range(sbrk.value, Core(Units(nbytes))) !! owned
      modifies this
      ensures Valid()
      ensures asked <==> !HasRoom(old(list), old(size), Units(nbytes))
      ensures asked ==> (bytes == Core(Units(nbytes)) * UNIT <==> nbytes <= MAXREQUEST)
      ensures ap == 0 <==> asked && sbrk.None?
      ensures ap != 0 ==> ap - 1 !in old(used) && used == old(used)[ap - 1 := Units(nbytes)]
      ensures ap == 0 ==> used == old(used)
      ensures owned == if asked && sbrk.Some? then old(owned) + Range(sbrk.value, Core(Units(nbytes))) else old(owned)
    {
      hide Linked, Spaced, HeapOk, Range, Units, Core, RotOk, HasRoom, AsInt;
      RequestFits(nbytes);
      var nunits := Units(nbytes);
      asked, bytes := false, 0;
      Init();
      NoRoom(old(list), old(size), list, size, nunits, old(freep));
      var prevp := freep;
      ghost var r, c := Rotation(list, ptr, size, freep), 0;
      LinkedKeys(list, ptr);
      RotAt(list, ptr, size, r, c);
      var p := ptr[prevp];
      while true
        invariant freep != 0 && Valid() && used == old(used)
        invariant RotOk(list, ptr, r) && c < |r| && r[0] == freep && r[c] == prevp
        invariant prevp in list && prevp in ptr && p == ptr[prevp] && p in list && p in size && p in ptr
        invariant forall i :: 1 <= i <= c ==> r[i] in size && size[r[i]] < nunits
        invariant !asked ==> owned == old(owned)
        invariant !asked ==> (HasRoom(list, size, nunits) <==> HasRoom(old(list), old(size), nunits))
        invariant asked ==> HasRoom(list, size, nunits) && !HasRoom(old(list), old(size), nunits)
        invariant asked ==> bytes == AsInt(Core(nunits) * UNIT) && sbrk.Some? && owned == old(owned) + Range(sbrk.value, Core(nunits))
        decreases if asked then 0 else 1, |r| - c
      {
        RotNext(list, ptr, size, r, c, p);
        if size[p] >= nunits {
          ghost var k := Predecessor(list, ptr, size, prevp, p, nunits);
          p := Take(prevp, p, nunits, k);
          return p + 1, asked, bytes;
        }
        if p == freep {
          AllSmall(list, size, ptr, r, c, nunits);
          p, bytes := Morecore(nunits, sbrk);
          asked := true;
          if p == 0 { return 0, asked, bytes; }
          r, c := Rotation(list, ptr, size, freep), 0;
        } else {
          c := c + 1;
        }
        prevp := p;
        LinkedKeys(list, ptr);
        RotAt(list, ptr, size, r, c);
        p := ptr[p];
      }
    }
  }
}
