/** Ring queues linked both ways, and the free queue of a memory pool built from them. */
module QueueLinks {
  import opened Tasks

  /** The head of the free queue, and the two links of a free area: the one that connects it
      by size (to areas of other sizes, or into a ring of areas of its own size) and the one
      that heads such a ring. */
  datatype Node = Main | BySize(a: nat) | Same(a: nat)

  datatype Links = Links(next: map<Node, Node>, prev: map<Node, Node>)

  function Next(l: Links, x: Node): Node {
    if x in l.next then l.next[x] else x
  }

  function Prev(l: Links, x: Node): Node {
    if x in l.prev then l.prev[x] else x
  }

  /** `QueInit`. */
  function Inited(l: Links, e: Node): Links {
    Links(l.next[e := e], l.prev[e := e])
  }

  /** `QueInsert`: `e` directly before `q`. */
  function Inserted(l: Links, e: Node, q: Node): Links {
    var p := Prev(l, q);
    Links(l.next[e := q][p := e], l.prev[e := p][q := e])
  }

  /** `QueRemove`. */
  function Removed(l: Links, e: Node): Links {
    if Next(l, e) == e then l
    else Links(l.next[Prev(l, e) := Next(l, e)], l.prev[Next(l, e) := Prev(l, e)])
  }

  function Succ(n: nat, i: nat): nat
    requires i < n
  {
    if i + 1 == n then 0 else i + 1
  }

  ghost predicate Distinct(r: seq<Node>) {
    forall i, k :: 0 <= i < k < |r| ==> r[i] != r[k]
  }

  /** The nodes `r` form a ring in this order. */
  ghost predicate Ring(l: Links, r: seq<Node>) {
    && r != [] && Distinct(r)
    && (forall i :: 0 <= i < |r| ==> Next(l, r[i]) == r[Succ(|r|, i)] && Prev(l, r[Succ(|r|, i)]) == r[i])
  }

  /** The links of `x` are the same. */
  predicate Untouched(l: Links, l': Links, x: Node) {
    Next(l', x) == Next(l, x) && Prev(l', x) == Prev(l, x)
  }

  lemma RingStays(l: Links, l': Links, r: seq<Node>)
    requires Ring(l, r) && forall x :: x in r ==> Untouched(l, l', x)
    ensures Ring(l', r)
  {
    forall i | 0 <= i < |r| ensures Next(l', r[i]) == r[Succ(|r|, i)] && Prev(l', r[Succ(|r|, i)]) == r[i] {
      assert r[i] in r && r[Succ(|r|, i)] in r;
    }
  }

  lemma PrevIn(l: Links, r: seq<Node>, i: nat)
    requires Ring(l, r) && i < |r|
    ensures Prev(l, r[i]) == r[if i == 0 then |r| - 1 else i - 1]
    ensures Next(l, r[i]) == r[if i + 1 == |r| then 0 else i + 1]
  {
    var k := if i == 0 then |r| - 1 else i - 1;
    assert Succ(|r|, k) == i;
  }

  /** `e` in front of place `i`; in front of the first is behind the last. */
  function WithBefore(r: seq<Node>, i: nat, e: Node): seq<Node>
    requires i < |r|
  {
    if i == 0 then r + [e] else r[..i] + [e] + r[i..]
  }

  lemma InsertIntoRing(l: Links, r: seq<Node>, i: nat, e: Node)
    requires Ring(l, r) && i < |r| && e !in r
    ensures Ring(Inserted(l, e, r[i]), WithBefore(r, i, e))
    ensures forall x :: x !in r && x != e ==> Untouched(l, Inserted(l, e, r[i]), x)
  {
    hide Ring, Inserted, Next, Prev, Distinct, WithBefore;
    PrevIn(l, r, i);
    var l', r' := Inserted(l, e, r[i]), WithBefore(r, i, e);
    var at := if i == 0 then |r| else i;
    DistinctIn(l, r);
    WithBeforeAt(r, i, e);
    InsertedLinks(l, e, r[i]);
    forall k | 0 <= k < |r'| ensures Next(l', r'[k]) == r'[Succ(|r'|, k)] && Prev(l', r'[Succ(|r'|, k)]) == r'[k] {
      NeighboursIn(l, r, i, k, e);
    }
    RingIs(l', r');
  }

  lemma WithBeforeAt(r: seq<Node>, i: nat, e: Node)
    requires Distinct(r) && i < |r| && e !in r
    ensures var r', at := WithBefore(r, i, e), if i == 0 then |r| else i;
            && Distinct(r') && |r'| == |r| + 1 && r'[at] == e
            && forall k :: 0 <= k < |r'| && k != at ==> r'[k] == r[if k < at then k else k - 1]
  {
    var r', at := WithBefore(r, i, e), if i == 0 then |r| else i;
    assert forall k :: 0 <= k < |r'| && k != at ==> r'[k] == r[if k < at then k else k - 1];
    hide WithBefore, Distinct;
    forall j, k | 0 <= j < k < |r'| ensures r'[j] != r'[k] {
      if j != at && k != at {
        Different(r, if j < at then j else j - 1, if k < at then k else k - 1);
      }
    }
    AllDifferent(r');
  }

  lemma Different(r: seq<Node>, i: nat, k: nat)
    requires Distinct(r) && i < k < |r|
    ensures r[i] != r[k]
  {
  }

  lemma AllDifferent(r: seq<Node>)
    requires forall i, k :: 0 <= i < k < |r| ==> r[i] != r[k]
    ensures Distinct(r)
  {
  }

  /** One pair of neighbours in the longer ring. */
  lemma NeighboursIn(l: Links, r: seq<Node>, i: nat, k: nat, e: Node)
    requires Ring(l, r) && i < |r| && e !in r && k <= |r|
    ensures var l', r' := Inserted(l, e, r[i]), WithBefore(r, i, e);
            |r'| == |r| + 1 && Next(l', r'[k]) == r'[Succ(|r'|, k)] && Prev(l', r'[Succ(|r'|, k)]) == r'[k]
  {
    hide Ring, Inserted, Next, Prev, WithBefore;
    var at := if i == 0 then |r| else i;
    PrevIn(l, r, i);
    DistinctIn(l, r);
    WithBeforeAt(r, i, e);
    InsertedLinks(l, e, r[i]);
    if k != at {
      PrevIn(l, r, if k < at then k else k - 1);
    }
    var m := Succ(|r| + 1, k);
    if m != at {
      PrevIn(l, r, if m < at then m else m - 1);
    }
  }

  lemma InsertedLinks(l: Links, e: Node, q: Node)
    requires e != q && Prev(l, q) != e
    ensures forall x :: Next(Inserted(l, e, q), x) == if x == Prev(l, q) then e else if x == e then q else Next(l, x)
    ensures forall x :: Prev(Inserted(l, e, q), x) == if x == q then e else if x == e then Prev(l, q) else Prev(l, x)
  {
  }

  lemma RemoveFromRing(l: Links, r: seq<Node>, i: nat)
    requires Ring(l, r) && i < |r| && |r| > 1
    ensures Ring(Removed(l, r[i]), r[..i] + r[i + 1..])
    ensures forall x :: x !in r ==> Untouched(l, Removed(l, r[i]), x)
  {
    hide Ring, Removed, Next, Prev;
    PrevIn(l, r, i);
    var l', r' := Removed(l, r[i]), r[..i] + r[i + 1..];
    var p, n := Prev(l, r[i]), Next(l, r[i]);
    DistinctIn(l, r);
    RemovedLinks(l, r[i]);
    forall k | 0 <= k < |r'| ensures Next(l', r'[k]) == r'[Succ(|r'|, k)] && Prev(l', r'[Succ(|r'|, k)]) == r'[k] {
      PrevIn(l, r, if k < i then k else k + 1);
      PrevIn(l, r, if Succ(|r'|, k) < i then Succ(|r'|, k) else Succ(|r'|, k) + 1);
    }
    RingIs(l', r');
  }

  lemma RemovedLinks(l: Links, e: Node)
    requires Next(l, e) != e
    ensures forall x :: Next(Removed(l, e), x) == if x == Prev(l, e) then Next(l, e) else Next(l, x)
    ensures forall x :: Prev(Removed(l, e), x) == if x == Next(l, e) then Prev(l, e) else Prev(l, x)
  {
  }

  lemma DistinctIn(l: Links, r: seq<Node>)
    requires Ring(l, r)
    ensures Distinct(r)
  {
  }

  lemma RingIs(l: Links, r: seq<Node>)
    requires r != [] && Distinct(r)
    requires forall i :: 0 <= i < |r| ==> Next(l, r[i]) == r[Succ(|r|, i)] && Prev(l, r[Succ(|r|, i)]) == r[i]
    ensures Ring(l, r)
  {
  }

  /** A ring may be seen from any of its nodes. */
  lemma RotateRing(l: Links, r: seq<Node>, x: Node)
    requires Ring(l, r + [x])
    ensures Ring(l, [x] + r)
  {
    hide Ring, Distinct, Next, Prev;
    var r0, r' := r + [x], [x] + r;
    DistinctIn(l, r0);
    forall j, k | 0 <= j < k < |r'| ensures r'[j] != r'[k] {
      Different(r0, if j == 0 then k - 1 else j - 1, if j == 0 then |r| else k - 1);
    }
    AllDifferent(r');
    forall k | 0 <= k < |r'| ensures Next(l, r'[k]) == r'[Succ(|r'|, k)] && Prev(l, r'[Succ(|r'|, k)]) == r'[k] {
      var i := if k == 0 then |r| else k - 1;
      RingAt(l, r0, i);
      assert r'[k] == r0[i] && r'[Succ(|r'|, k)] == r0[Succ(|r0|, i)];
    }
    RingIs(l, r');
  }

  lemma RingAt(l: Links, r: seq<Node>, i: nat)
    requires Ring(l, r) && i < |r|
    ensures Next(l, r[i]) == r[Succ(|r|, i)] && Prev(l, r[Succ(|r|, i)]) == r[i]
  {
    hide Distinct;
  }

  lemma RingOfOne(l: Links, e: Node)
    ensures Ring(Inited(l, e), [e])
    ensures forall x :: x != e ==> Untouched(l, Inited(l, e), x)
  {
  }

  /* ---- The free queue. ---- */

  /** The ring that the heads of the sizes form with the head of the queue. */
  function MainRing(free: seq<seq<nat>>): (r: seq<Node>)
    requires forall k :: 0 <= k < |free| ==> free[k] != []
    ensures |r| == |free| + 1 && r[0] == Main && forall k :: 0 <= k < |free| ==> r[k + 1] == BySize(free[k][0])
  {
    seq(|free| + 1, k requires 0 <= k <= |free| => if k == 0 then Main else BySize(free[k - 1][0]))
  }

  /** The ring of the areas of one size, headed by the second link of the first of them. */
  function SizeRing(r: seq<nat>): (s: seq<Node>)
    ensures |s| == |r| && forall k :: 0 <= k < |r| ==> s[k] == if k == 0 then Same(r[0]) else BySize(r[k])
  {
    seq(|r|, k requires 0 <= k < |r| => if k == 0 then Same(r[0]) else BySize(r[k]))
  }

  /** No area is twice in the queue. */
  ghost predicate AllDistinct(free: seq<seq<nat>>) {
    forall k, j, k', j' | 0 <= k < |free| && 0 <= j < |free[k]| && 0 <= k' < |free| && 0 <= j' < |free[k']| ::
      free[k][j] == free[k'][j'] ==> k == k' && j == j'
  }

  ghost predicate SizeRings(l: Links, free: seq<seq<nat>>) {
    forall k :: 0 <= k < |free| ==> free[k] != [] && Ring(l, SizeRing(free[k]))
  }

  /** The second links of the areas that are not first in their rings. */
  ghost predicate Singles(l: Links, free: seq<seq<nat>>) {
    forall k, j :: 0 <= k < |free| && 1 <= j < |free[k]| ==> Ring(l, [Same(free[k][j])])
  }

  /** The links represent the free queue. */
  ghost predicate Represents(l: Links, free: seq<seq<nat>>) {
    AllDistinct(free) && SizeRings(l, free) && Ring(l, MainRing(free)) && Singles(l, free)
  }

  ghost predicate IsNew(free: seq<seq<nat>>, a: nat) {
    forall k :: 0 <= k < |free| ==> a !in free[k]
  }

  ghost predicate Proper(free: seq<seq<nat>>) {
    AllDistinct(free) && NoEmptyRing(free)
  }

  ghost predicate NoEmptyRing(free: seq<seq<nat>>) {
    forall k :: 0 <= k < |free| ==> free[k] != []
  }

  /* ---- The rings have no node in common. ---- */

  lemma SizeRingsApart(free: seq<seq<nat>>, i: nat, k: nat)
    requires Proper(free) && i < |free| && k < |free| && k != i
    ensures forall x :: x in SizeRing(free[k]) ==> x !in SizeRing(free[i])
  {
    var s, r := SizeRing(free[k]), SizeRing(free[i]);
    forall j, j' | 0 <= j < |s| && 0 <= j' < |r| ensures s[j] != r[j'] {
      assert free[k][j] != free[i][j'];
    }
  }

  lemma MainApart(free: seq<seq<nat>>, i: nat)
    requires Proper(free) && i < |free|
    ensures forall x :: x in MainRing(free) ==> x !in SizeRing(free[i])
  {
    var s, r := MainRing(free), SizeRing(free[i]);
    forall j, j' | 0 <= j < |s| && 0 <= j' < |r| ensures s[j] != r[j'] {
      if j > 0 && j' > 0 {
        assert free[j - 1][0] != free[i][j'];
      }
    }
  }

  lemma SinglesApart(free: seq<seq<nat>>, i: nat, k: nat, j: nat)
    requires Proper(free) && i < |free| && k < |free| && 1 <= j < |free[k]|
    ensures Same(free[k][j]) !in SizeRing(free[i]) && Same(free[k][j]) !in MainRing(free)
  {
    assert free[k][j] != free[i][0];
  }

  lemma NewApart(free: seq<seq<nat>>, i: nat, a: nat)
    requires Proper(free) && IsNew(free, a)
    ensures BySize(a) !in MainRing(free) && Same(a) !in MainRing(free)
    ensures i < |free| ==> BySize(a) !in SizeRing(free[i]) && Same(a) !in SizeRing(free[i])
  {
    forall k | 0 <= k < |free| ensures free[k][0] != a {
      assert free[k][0] in free[k];
    }
    if i < |free| {
      forall j | 0 <= j < |free[i]| ensures free[i][j] != a {
        assert free[i][j] in free[i];
      }
    }
  }

  /** Everything but ring `i`, the main ring and the node `z`, after a change of these and
      of the nodes of a new area. */
  lemma RestStays(l: Links, l': Links, free: seq<seq<nat>>, i: nat, new_area: Option<nat>, z: Node)
    requires Represents(l, free) && (new_area.Some? ==> IsNew(free, new_area.value))
    requires z.Same? && i < |free| ==> z.a in free[i]
    requires !z.BySize? && (z.Same? ==> i < |free|)
    requires forall x | x !in MainRing(free) && (i < |free| ==> x !in SizeRing(free[i])) && x != z
               && (new_area.Some? ==> x != BySize(new_area.value) && x != Same(new_area.value)) :: Untouched(l, l', x)
    ensures forall k :: 0 <= k < |free| && k != i ==> free[k] != [] && Ring(l', SizeRing(free[k]))
    ensures forall k, j :: 0 <= k < |free| && 1 <= j < |free[k]| && Same(free[k][j]) != z ==>
              Ring(l', [Same(free[k][j])])
  {
    forall k | 0 <= k < |free| && k != i ensures Ring(l', SizeRing(free[k])) {
      MainApart(free, k);
      if new_area.Some? {
        NewApart(free, k, new_area.value);
      }
      if i < |free| {
        SizeRingsApart(free, i, k);
      }
      if z.Same? {
        NotOfOther(free, i, k, z.a);
      }
      RingStays(l, l', SizeRing(free[k]));
    }
    forall k, j | 0 <= k < |free| && 1 <= j < |free[k]| && Same(free[k][j]) != z ensures Ring(l', [Same(free[k][j])]) {
      if i < |free| {
        SinglesApart(free, i, k, j);
      } else {
        SinglesApart(free, k, k, j);
      }
      assert free[k][j] in free[k];
      RingStays(l, l', [Same(free[k][j])]);
    }
  }

  lemma NotOfOther(free: seq<seq<nat>>, i: nat, k: nat, a: nat)
    requires Proper(free) && i < |free| && k < |free| && k != i && a in free[i]
    ensures Same(a) !in SizeRing(free[k])
  {
    assert a != free[k][0];
  }

  /* ---- Registration. ---- */

  /** An area of a size that is there: last in its ring. */
  lemma PutInRing(l: Links, free: seq<seq<nat>>, i: nat, a: nat)
    requires Represents(l, free) && IsNew(free, a) && i < |free|
    ensures var l' := Inited(Inserted(l, BySize(a), Same(free[i][0])), Same(a));
            Represents(l', free[i := free[i] + [a]])
  {
    var r := free[i];
    var l1, free' := Inserted(l, BySize(a), Same(r[0])), free[i := r + [a]];
    var l' := Inited(l1, Same(a));
    NewApart(free, i, a);
    MainApart(free, i);
    InsertIntoRing(l, SizeRing(r), 0, BySize(a));
    RingOfOne(l1, Same(a));
    assert SizeRing(r + [a]) == SizeRing(r) + [BySize(a)];
    hide Ring, Inserted, Inited;
    RingStays(l1, l', SizeRing(r + [a]));
    RestStays(l, l', free, i, Some(a), Main);
    RingStays(l, l', MainRing(free));
    assert MainRing(free') == MainRing(free);
    StillDistinct(free, i, a);
    hide AllDistinct, SizeRing, MainRing;
  }

  lemma StillDistinct(free: seq<seq<nat>>, i: nat, a: nat)
    requires Proper(free) && IsNew(free, a) && i < |free|
    ensures Proper(free[i := free[i] + [a]])
  {
  }

  /** An area of a new size: between the smaller and the larger sizes. */
  lemma PutAlone(l: Links, free: seq<seq<nat>>, q: nat, a: nat)
    requires Represents(l, free) && IsNew(free, a) && q <= |free|
    ensures var at := if q < |free| then BySize(free[q][0]) else Main;
            Represents(Inited(Inserted(l, BySize(a), at), Same(a)), free[..q] + [[a]] + free[q..])
  {
    hide Ring, Inserted, Inited, AllDistinct, WithBefore, MainRing, SizeRing;
    var i := if q < |free| then q + 1 else 0;
    var m, free' := MainRing(free), free[..q] + [[a]] + free[q..];
    var l1 := Inserted(l, BySize(a), m[i]);
    var l' := Inited(l1, Same(a));
    NewApart(free, |free|, a);
    InsertIntoRing(l, m, i, BySize(a));
    RingOfOne(l1, Same(a));
    MainRingWith(free, q, a);
    DistinctWith(free, q, a);
    RingStays(l1, l', MainRing(free'));
    forall x | x !in m && x != BySize(a) && x != Same(a) ensures Untouched(l, l', x) {
      assert Untouched(l, l1, x) && Untouched(l1, l', x);
    }
    RestStays(l, l', free, |free|, Some(a), Main);
    assert forall k :: 0 <= k < |free'| && k != q ==> free'[k] == free[if k < q then k else k - 1];
    assert free'[q] == [a] && SizeRing([a]) == [Same(a)];
  }

  lemma MainRingWith(free: seq<seq<nat>>, q: nat, a: nat)
    requires Proper(free) && q <= |free|
    ensures var i := if q < |free| then q + 1 else 0;
            var free' := free[..q] + [[a]] + free[q..];
            NoEmptyRing(free') && MainRing(free') == WithBefore(MainRing(free), i, BySize(a))
            && (forall x :: x in MainRing(free') ==> x in MainRing(free) || x == BySize(a))
  {
    var i := if q < |free| then q + 1 else 0;
    var m, free' := MainRing(free), free[..q] + [[a]] + free[q..];
    assert forall k :: 0 <= k < |free'| && k != q ==> free'[k] == free[if k < q then k else k - 1];
    assert MainRing(free') == WithBefore(m, i, BySize(a));
  }

  lemma DistinctWith(free: seq<seq<nat>>, q: nat, a: nat)
    requires Proper(free) && IsNew(free, a) && q <= |free|
    ensures Proper(free[..q] + [[a]] + free[q..])
  {
    var f := free[..q] + [[a]] + free[q..];
    assert forall k :: 0 <= k < |f| && k != q ==> f[k] == free[if k < q then k else k - 1];
  }

  /* ---- Removal. ---- */

  /** An area that is not the first of its ring. */
  lemma TakeMember(l: Links, free: seq<seq<nat>>, i: nat, j: nat)
    requires Represents(l, free) && i < |free| && 1 <= j < |free[i]|
    ensures Represents(Removed(l, BySize(free[i][j])), free[i := free[i][..j] + free[i][j + 1..]])
    ensures Next(l, Same(free[i][j])) == Same(free[i][j])
  {
    var r := free[i];
    var l', free' := Removed(l, BySize(r[j])), free[i := r[..j] + r[j + 1..]];
    assert Ring(l, [Same(r[j])]);
    PrevIn(l, [Same(r[j])], 0);
    MainApart(free, i);
    RemoveFromRing(l, SizeRing(r), j);
    assert SizeRing(r)[..j] + SizeRing(r)[j + 1..] == SizeRing(free'[i]);
    hide Ring, Removed;
    RestStays(l, l', free, i, None, Main);
    RingStays(l, l', MainRing(free));
    assert MainRing(free') == MainRing(free);
    FewerDistinct(free, i, j);
    hide AllDistinct, SizeRing, MainRing;
  }

  lemma FewerDistinct(free: seq<seq<nat>>, i: nat, j: nat)
    requires Proper(free) && i < |free| && j < |free[i]|
    ensures AllDistinct(free[i := free[i][..j] + free[i][j + 1..]])
  {
    var f := free[i := free[i][..j] + free[i][j + 1..]];
    forall k, m, k', m' | 0 <= k < |f| && 0 <= m < |f[k]| && 0 <= k' < |f| && 0 <= m' < |f[k']| && f[k][m] == f[k'][m']
      ensures k == k' && m == m'
    {
      assert f[k][m] == free[k][if k == i && m >= j then m + 1 else m];
      assert f[k'][m'] == free[k'][if k' == i && m' >= j then m' + 1 else m'];
    }
  }

  /** The only area of its size. */
  lemma TakeAlone(l: Links, free: seq<seq<nat>>, i: nat)
    requires Represents(l, free) && i < |free| && |free[i]| == 1
    ensures Represents(Removed(l, BySize(free[i][0])), free[..i] + free[i + 1..])
    ensures Next(l, Same(free[i][0])) == Same(free[i][0])
  {
    hide Ring, Removed, AllDistinct;
    var m, free' := MainRing(free), free[..i] + free[i + 1..];
    var l' := Removed(l, m[i + 1]);
    assert SizeRing(free[i]) == [Same(free[i][0])];
    PrevIn(l, SizeRing(free[i]), 0);
    RemoveFromRing(l, m, i + 1);
    MainRingWithout(free, i);
    RestStays(l, l', free, i, None, Main);
    DistinctWithout(free, i);
    assert forall k :: 0 <= k < |free'| ==> free'[k] == free[if k < i then k else k + 1];
  }

  lemma MainRingWithout(free: seq<seq<nat>>, i: nat)
    requires NoEmptyRing(free) && i < |free|
    ensures NoEmptyRing(free[..i] + free[i + 1..])
    ensures MainRing(free[..i] + free[i + 1..]) == MainRing(free)[..i + 1] + MainRing(free)[i + 2..]
  {
    var f := free[..i] + free[i + 1..];
    assert forall k :: 0 <= k < |f| ==> f[k] == free[if k < i then k else k + 1];
  }

  lemma DistinctWithout(free: seq<seq<nat>>, i: nat)
    requires Proper(free) && i < |free|
    ensures Proper(free[..i] + free[i + 1..])
  {
    var f := free[..i] + free[i + 1..];
    assert forall k :: 0 <= k < |f| ==> f[k] == free[if k < i then k else k + 1];
  }

  /** The links after the first of a ring has given its place to the next. */
  function Promoted(l: Links, a: nat, b: nat): Links {
    var l1 := Removed(l, Same(a));
    var l2 := Inserted(l1, Same(b), BySize(b));
    var l3 := Removed(l2, BySize(b));
    Inserted(l3, BySize(b), BySize(a))
  }

  /** The ring part of the promotion: the links of `a` leave the ring, and the second link
      of `b` takes over as its head. */
  lemma PromoteInRing(l: Links, r: seq<nat>)
    requires |r| > 1 && Ring(l, SizeRing(r)) && (forall i, k :: 0 <= i < k < |r| ==> r[i] != r[k])
    ensures Next(l, Same(r[0])) == BySize(r[1])
    ensures var l3 := Removed(Inserted(Removed(l, Same(r[0])), Same(r[1]), BySize(r[1])), BySize(r[1]));
            && Ring(l3, SizeRing(r[1..]))
            && forall x :: x !in SizeRing(r) && x != Same(r[1]) ==> Untouched(l, l3, x)
  {
    hide Ring, Removed, Inserted, WithBefore, SizeRing;
    var s, b := SizeRing(r), r[1];
    var t := s[1..];
    PromoteNodes(r);
    var l1 := Removed(l, s[0]);
    PrevIn(l, s, 0);
    RemoveFromRing(l, s, 0);
    var l2 := Inserted(l1, Same(b), t[0]);
    InsertIntoRing(l1, t, 0, Same(b));
    BehindTheLast(t, Same(b));
    RotateRing(l2, t, Same(b));
    var u := [Same(b)] + t;
    RemoveFromRing(l2, u, 1);
    var l3 := Removed(l2, BySize(b));
    forall x | x !in s && x != Same(b) ensures Untouched(l, l3, x) {
      assert x !in u && x !in t;
    }
  }

  lemma BehindTheLast(r: seq<Node>, e: Node)
    requires r != []
    ensures WithBefore(r, 0, e) == r + [e]
  {
  }

  lemma PromoteNodes(r: seq<nat>)
    requires |r| > 1 && forall i, k :: 0 <= i < k < |r| ==> r[i] != r[k]
    ensures var s := SizeRing(r); var t := s[1..]; var u := [Same(r[1])] + t;
            && s[..0] + s[1..] == t && s[0] == Same(r[0]) && s[1] == BySize(r[1]) && t[0] == BySize(r[1])
            && Same(r[1]) !in t
            && u[1] == BySize(r[1]) && u[..1] + u[2..] == SizeRing(r[1..])
  {
    var s := SizeRing(r);
    var t := s[1..];
    var u := [Same(r[1])] + t;
    assert forall k :: 0 <= k < |t| ==> t[k] == BySize(r[k + 1]);
    assert u[..1] + u[2..] == SizeRing(r[1..]);
  }

  /** The first of a ring goes, the next takes its place between the sizes. */
  lemma TakeFirst(l: Links, free: seq<seq<nat>>, i: nat)
    requires Represents(l, free) && i < |free| && |free[i]| > 1
    ensures Next(l, Same(free[i][0])) == BySize(free[i][1])
    ensures Represents(Removed(Promoted(l, free[i][0], free[i][1]), BySize(free[i][0])), free[i := free[i][1..]])
  {
    hide Ring, Removed, Inserted, AllDistinct, SizeRing, MainRing;
    var r := free[i];
    var a, b := r[0], r[1];
    var free' := free[i := r[1..]];
    RingHasNoRepeats(free, i);
    PromoteInRing(l, r);
    var l3 := Removed(Inserted(Removed(l, Same(a)), Same(b), BySize(b)), BySize(b));
    var m := MainRing(free);
    MainApart(free, i);
    SinglesApart(free, i, i, 1);
    MainRingFirst(free, i);
    RingStays(l, l3, m);
    var l4 := Inserted(l3, BySize(b), m[i + 1]);
    InsertIntoRing(l3, m, i + 1, BySize(b));
    var m1 := WithBefore(m, i + 1, BySize(b));
    RemoveFromRing(l4, m1, i + 2);
    var l5 := Removed(l4, m1[i + 2]);
    SwapOver(free, i);
    forall x | x !in m && x !in SizeRing(r) && x != Same(b) ensures Untouched(l, l5, x) {
      SecondIn(r);
      InWith(m, i + 1, BySize(b), x);
      assert Untouched(l, l3, x) && Untouched(l3, l4, x) && Untouched(l4, l5, x);
    }
    RestStays(l, l5, free, i, None, Same(b));
    RestOfRing(free, i);
    forall x | x in SizeRing(r[1..]) ensures Untouched(l3, l5, x) {
      InWith(m, i + 1, BySize(b), x);
      assert Untouched(l3, l4, x) && Untouched(l4, l5, x);
    }
    RingStays(l3, l5, SizeRing(r[1..]));
    TailDistinct(free, i);
    assert l5 == Removed(Promoted(l, a, b), BySize(a));
    assert SizeRings(l5, free');
    forall k, j | 0 <= k < |free'| && 1 <= j < |free'[k]| ensures Ring(l5, [Same(free'[k][j])]) {
      assert free'[k][j] == free[k][if k == i then j + 1 else j];
      TailDiffers(free, i, k, j);
    }
  }

  /** The new head is no longer among the others. */
  lemma TailDiffers(free: seq<seq<nat>>, i: nat, k: nat, j: nat)
    requires Proper(free) && i < |free| && |free[i]| > 1 && k < |free| && j >= 1
    requires (if k == i then j + 1 else j) < |free[k]|
    ensures free[k][if k == i then j + 1 else j] != free[i][1]
  {
  }

  lemma SecondIn(r: seq<nat>)
    requires |r| > 1
    ensures BySize(r[1]) in SizeRing(r)
  {
    assert SizeRing(r)[1] == BySize(r[1]);
  }

  lemma InWith(m: seq<Node>, i: nat, e: Node, x: Node)
    requires i < |m|
    ensures x in WithBefore(m, i, e) <==> x in m || x == e
  {
    assert m == m[..i] + m[i..];
  }

  /** What stays of the ring is apart from the main ring and from its new head. */
  lemma RestOfRing(free: seq<seq<nat>>, i: nat)
    requires Proper(free) && i < |free| && |free[i]| > 1
    ensures forall x :: x in SizeRing(free[i][1..]) ==> x !in MainRing(free) && x != BySize(free[i][1])
  {
    var r := free[i];
    var s := SizeRing(r[1..]);
    MainApart(free, i);
    SinglesApart(free, i, i, 1);
    RingHasNoRepeats(free, i);
    forall k | 0 <= k < |s| ensures s[k] !in MainRing(free) && s[k] != BySize(r[1]) {
      if k > 0 {
        assert s[k] == SizeRing(r)[k + 1];
      }
    }
  }

  lemma TailDistinct(free: seq<seq<nat>>, i: nat)
    requires Proper(free) && i < |free| && |free[i]| > 1
    ensures Proper(free[i := free[i][1..]])
    ensures forall j :: 1 <= j < |free[i]| - 1 ==> Same(free[i][1..][j]) == Same(free[i][j + 1]) != Same(free[i][1])
  {
    FewerDistinct(free, i, 0);
    assert free[i][..0] + free[i][1..] == free[i][1..];
    RingHasNoRepeats(free, i);
  }

  lemma RingHasNoRepeats(free: seq<seq<nat>>, i: nat)
    requires AllDistinct(free) && i < |free|
    ensures forall j, k :: 0 <= j < k < |free[i]| ==> free[i][j] != free[i][k]
  {
  }

  lemma MainRingFirst(free: seq<seq<nat>>, i: nat)
    requires Proper(free) && i < |free| && |free[i]| > 1
    ensures MainRing(free)[i + 1] == BySize(free[i][0]) && BySize(free[i][1]) !in MainRing(free)
  {
    forall k | 0 <= k < |free| ensures free[k][0] != free[i][1] {
    }
  }

  /** The main ring after the exchange. */
  lemma SwapOver(free: seq<seq<nat>>, i: nat)
    requires NoEmptyRing(free) && i < |free| && |free[i]| > 1
    ensures NoEmptyRing(free[i := free[i][1..]])
    ensures var m1 := WithBefore(MainRing(free), i + 1, BySize(free[i][1]));
            && |m1| == |free| + 2 && m1[i + 2] == BySize(free[i][0])
            && m1[..i + 2] + m1[i + 3..] == MainRing(free[i := free[i][1..]])
  {
    var m1 := WithBefore(MainRing(free), i + 1, BySize(free[i][1]));
    var f := free[i := free[i][1..]];
    assert forall k :: 0 <= k < |m1| ==>
             m1[k] == if k < i + 1 then MainRing(free)[k] else if k == i + 1 then BySize(free[i][1])
                      else MainRing(free)[k - 1];
    assert m1[..i + 2] + m1[i + 3..] == MainRing(f);
  }

  /** The node by which place `i` of the main chain is known, its head if `i` is past the end. */
  function NodeAt(free: seq<seq<nat>>, i: nat): Node
    requires i < |free| ==> free[i] != []
  {
    if i < |free| then BySize(free[i][0]) else Main
  }

  /** Going through the main chain in either direction. */
  lemma MainNext(l: Links, free: seq<seq<nat>>, i: nat)
    requires Represents(l, free) && i < |free|
    ensures Next(l, NodeAt(free, i)) == NodeAt(free, i + 1)
    ensures Prev(l, NodeAt(free, i)) == (if i == 0 then Main else NodeAt(free, i - 1))
    ensures Next(l, Main) == NodeAt(free, 0)
    ensures Prev(l, Main) == NodeAt(free, |free| - 1)
  {
    hide Ring, AllDistinct, Singles;
    PrevIn(l, MainRing(free), i + 1);
    PrevIn(l, MainRing(free), 0);
  }

  lemma MainOnly(l: Links)
    requires Represents(l, [])
    ensures Next(l, Main) == Main && Prev(l, Main) == Main
  {
    PrevIn(l, MainRing([]), 0);
  }

  /** The first and the last of the main chain. */
  lemma MainEnds(l: Links, free: seq<seq<nat>>)
    requires Represents(l, free)
    ensures NoEmptyRing(free)
    ensures Next(l, Main) == NodeAt(free, 0)
    ensures Prev(l, Main) == if free == [] then Main else NodeAt(free, |free| - 1)
  {
    if free == [] {
      MainOnly(l);
    } else {
      MainNext(l, free, 0);
    }
  }

  /** `removeFreeQue` takes any area out of the queue, wherever it stands. */
  lemma TakeAny(l: Links, free: seq<seq<nat>>, i: nat, j: nat)
    requires Represents(l, free) && i < |free| && j < |free[i]|
    ensures var a := free[i][j]; var nq := Next(l, Same(a));
            var l1 := if nq.BySize? then Promoted(l, a, nq.a) else l;
            && (nq.BySize? <==> nq != Same(a))
            && Represents(Removed(l1, BySize(a)),
                          if |free[i]| == 1 then free[..i] + free[i + 1..]
                          else free[i := free[i][..j] + free[i][j + 1..]])
  {
    hide Ring, Removed, Promoted, Represents;
    if j > 0 {
      TakeMember(l, free, i, j);
    } else if |free[i]| == 1 {
      TakeAlone(l, free, i);
    } else {
      TakeFirst(l, free, i);
      assert free[i][..0] + free[i][1..] == free[i][1..];
    }
  }

  lemma NoneInQueue()
    ensures Represents(Inited(Links(map[], map[]), Main), [])
  {
    RingOfOne(Links(map[], map[]), Main);
    assert MainRing([]) == [Main];
  }

  /* ---- Which nodes the operations come across. ---- */

  /** The nodes `n` lead to each other only. */
  ghost predicate Closed(l: Links, n: set<Node>) {
    forall x :: x in n ==> Next(l, x) in n && Prev(l, x) in n
  }

  /** The head and both links of the areas `frees`. */
  function NodesFor(frees: set<nat>): set<Node> {
    {Main} + (set a | a in frees :: BySize(a)) + (set a | a in frees :: Same(a))
  }

  lemma ClosedAt(l: Links, n: set<Node>, x: Node)
    requires Closed(l, n) && x in n
    ensures Next(l, x) in n && Prev(l, x) in n
  {
  }

  lemma ClosedIs(l: Links, n: set<Node>)
    requires forall x :: x in n ==> Next(l, x) in n && Prev(l, x) in n
    ensures Closed(l, n)
  {
  }

  lemma InsertedCloses(l: Links, n: set<Node>, e: Node, q: Node)
    requires Closed(l, n) && q in n
    ensures Closed(Inserted(l, e, q), n + {e})
  {
    hide Closed;
    ClosedAt(l, n, q);
    forall x | x in n + {e} ensures Next(Inserted(l, e, q), x) in n + {e} && Prev(Inserted(l, e, q), x) in n + {e} {
      if x in n {
        ClosedAt(l, n, x);
      }
    }
    ClosedIs(Inserted(l, e, q), n + {e});
  }

  lemma RemovedCloses(l: Links, n: set<Node>, e: Node)
    requires Closed(l, n) && e in n
    ensures Closed(Removed(l, e), n)
  {
    hide Closed;
    ClosedAt(l, n, e);
    forall x | x in n ensures Next(Removed(l, e), x) in n && Prev(Removed(l, e), x) in n {
      ClosedAt(l, n, x);
    }
    ClosedIs(Removed(l, e), n);
  }

  lemma InitedCloses(l: Links, n: set<Node>, e: Node)
    requires Closed(l, n)
    ensures Closed(Inited(l, e), n + {e})
  {
    hide Closed;
    forall x | x in n + {e} ensures Next(Inited(l, e), x) in n + {e} && Prev(Inited(l, e), x) in n + {e} {
      if x in n {
        ClosedAt(l, n, x);
      }
    }
    ClosedIs(Inited(l, e), n + {e});
  }

  lemma RingCloses(l: Links, r: seq<Node>, x: Node)
    requires Ring(l, r) && x in r
    ensures Next(l, x) in r && Prev(l, x) in r
  {
    var i :| 0 <= i < |r| && r[i] == x;
    PrevIn(l, r, i);
  }

  /** The nodes of the queue are the head and the links of its areas. */
  lemma QueueCloses(l: Links, free: seq<seq<nat>>, frees: set<nat>)
    requires Represents(l, free)
    requires forall i, a :: 0 <= i < |free| && a in free[i] ==> a in frees
    requires forall a :: a in frees ==> exists i :: 0 <= i < |free| && a in free[i]
    ensures Closed(l, NodesFor(frees))
  {
    hide Ring, AllDistinct;
    hide Closed;
    var n := NodesFor(frees);
    forall x | x in n ensures Next(l, x) in n && Prev(l, x) in n {
      if x == Main {
        assert MainRing(free)[0] == Main;
        RingCloses(l, MainRing(free), x);
        MainNodes(free, frees);
      } else {
        var i :| 0 <= i < |free| && x.a in free[i];
        var j :| 0 <= j < |free[i]| && free[i][j] == x.a;
        AreaCloses(l, free, frees, i, j);
      }
    }
    ClosedIs(l, n);
  }

  lemma MainNodes(free: seq<seq<nat>>, frees: set<nat>)
    requires NoEmptyRing(free) && forall i, a :: 0 <= i < |free| && a in free[i] ==> a in frees
    ensures forall x :: x in MainRing(free) ==> x in NodesFor(frees)
  {
    forall k | 0 <= k < |free| ensures free[k][0] in frees {
      assert free[k][0] in free[k];
    }
  }

  lemma SizeNodes(free: seq<seq<nat>>, frees: set<nat>, i: nat)
    requires i < |free| && forall a :: a in free[i] ==> a in frees
    ensures forall x :: x in SizeRing(free[i]) ==> x in NodesFor(frees)
  {
  }

  lemma AreaCloses(l: Links, free: seq<seq<nat>>, frees: set<nat>, i: nat, j: nat)
    requires Represents(l, free) && i < |free| && j < |free[i]|
    requires forall k, a :: 0 <= k < |free| && a in free[k] ==> a in frees
    ensures var n, a := NodesFor(frees), free[i][j];
            && Next(l, BySize(a)) in n && Prev(l, BySize(a)) in n && Next(l, Same(a)) in n && Prev(l, Same(a)) in n
  {
    hide Ring, AllDistinct;
    var a := free[i][j];
    assert a in free[i];
    MainNodes(free, frees);
    SizeNodes(free, frees, i);
    var s := SizeRing(free[i]);
    if j == 0 {
      assert MainRing(free)[i + 1] == BySize(a) && s[0] == Same(a);
      RingCloses(l, MainRing(free), BySize(a));
      RingCloses(l, s, Same(a));
    } else {
      assert s[j] == BySize(a);
      RingCloses(l, s, BySize(a));
      RingCloses(l, [Same(a)], Same(a));
    }
  }
}
