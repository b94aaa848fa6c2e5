/** The bytes of memory, and which of them the headers and links of areas take. */
module Memories {
  import opened Tasks
  import opened Areas

  /** The content of memory, as far as it has been written. */
  type Memory = map<Addr, int>

  function Byte(m: Memory, x: Addr): int {
    if x in m then m[x] else 0
  }

  lemma BytePut(m: Memory, at: Addr, v: int, x: Addr)
    ensures Byte(m[at := v], x) == if x == at then v else Byte(m, x)
  {
  }

  /** `x` is in the header of an area of `s`, or in one of the two links behind the header of
      an area of `l`. */
  ghost predicate InCells(x: Addr, s: set<Addr>, l: set<Addr>) {
    || (exists a :: a in s && a <= x < a + QUEUESZ)
    || (exists a :: a in l && a + QUEUESZ <= x < a + QUEUESZ * 3)
  }

  /** Nothing has been written but headers of `s` and links of `l`. */
  ghost predicate OnlyAt(m: Memory, m': Memory, s: set<Addr>, l: set<Addr>) {
    forall x: Addr {:trigger Byte(m', x)} :: InCells(x, s, l) || Byte(m', x) == Byte(m, x)
  }

  lemma OnlyAtCell(m: Memory, m': Memory, s: set<Addr>, l: set<Addr>, x: Addr)
    requires OnlyAt(m, m', s, l) && !InCells(x, s, l)
    ensures Byte(m', x) == Byte(m, x)
  {
  }

  lemma Nowhere(m: Memory, s: set<Addr>, l: set<Addr>)
    ensures OnlyAt(m, m, s, l)
  {
  }

  lemma Wider(m: Memory, m': Memory, s: set<Addr>, l: set<Addr>, s': set<Addr>, l': set<Addr>)
    requires OnlyAt(m, m', s, l) && s <= s' && l <= l'
    ensures OnlyAt(m, m', s', l')
  {
    forall x: Addr ensures InCells(x, s', l') || Byte(m', x) == Byte(m, x) {
      assert InCells(x, s, l) ==> InCells(x, s', l');
    }
  }

  lemma OneAfterOther(m: Memory, m1: Memory, m2: Memory, s: set<Addr>, l: set<Addr>)
    requires OnlyAt(m, m1, s, l) && OnlyAt(m1, m2, s, l)
    ensures OnlyAt(m, m2, s, l)
  {
    hide InCells;
    forall x: Addr ensures InCells(x, s, l) || Byte(m2, x) == Byte(m, x) {
      if !InCells(x, s, l) {
        OnlyAtCell(m, m1, s, l, x);
        OnlyAtCell(m1, m2, s, l, x);
      }
    }
  }

  /** Two steps, each within its own cells. */
  lemma BothSteps(m: Memory, m1: Memory, m2: Memory, s1: set<Addr>, l1: set<Addr>, s2: set<Addr>, l2: set<Addr>,
                  s: set<Addr>, l: set<Addr>)
    requires OnlyAt(m, m1, s1, l1) && OnlyAt(m1, m2, s2, l2) && s1 <= s && l1 <= l && s2 <= s && l2 <= l
    ensures OnlyAt(m, m2, s, l)
  {
    hide OnlyAt;
    Wider(m, m1, s1, l1, s, l);
    Wider(m1, m2, s2, l2, s, l);
    OneAfterOther(m, m1, m2, s, l);
  }

  /** Nothing has been written but the bytes from `at` to `at + n`. */
  ghost predicate OnlyBytes(m: Memory, m': Memory, at: Addr, n: nat) {
    forall x: Addr {:trigger Byte(m', x)} :: at <= x < at + n || Byte(m', x) == Byte(m, x)
  }

  lemma WroteOne(m: Memory, m': Memory, at: Addr, i: nat, v: int)
    requires OnlyBytes(m, m', at, i)
    ensures OnlyBytes(m, m'[at + i := v], at, i + 1)
  {
    var m2 := m'[at + i := v];
    forall x: Addr {:trigger Byte(m2, x)} ensures at <= x < at + (i + 1) || Byte(m2, x) == Byte(m, x) {
      BytePut(m', at + i, v, x);
    }
  }

  /** Those bytes are of a header or of links. */
  lemma WrittenAt(m: Memory, m': Memory, at: Addr, n: nat, s: set<Addr>, l: set<Addr>)
    requires OnlyBytes(m, m', at, n)
    requires forall x: Addr :: at <= x < at + n ==> InCells(x, s, l)
    ensures OnlyAt(m, m', s, l)
  {
  }

  /** No header and no link lies in block `b`: blocks, headers and free areas do not overlap. */
  lemma BlockIsClear(next: map<Addr, Addr>, tops: set<Addr>, ends: set<Addr>, s: set<Addr>, l: set<Addr>, b: Addr,
                     x: Addr)
    requires Tiled(next, tops, ends) && b in next && b != HEAD && b !in ends && b + QUEUESZ <= x < next[b]
    requires s <= next.Keys && l <= next.Keys && l !! ends && HEAD !in l && b !in l
    ensures !InCells(x, s, l)
  {
    hide Edges, Roomy, Apart;
    forall a | a in s && a <= x < a + QUEUESZ ensures false {
      if a > b {
        Gap(next, ends, b, a);
      }
    }
    forall a | a in l && a + QUEUESZ <= x < a + QUEUESZ * 3 ensures false {
      if a > b {
        Gap(next, ends, b, a);
      } else {
        SizeAt(next, ends, a);
        Gap(next, ends, a, b);
      }
    }
  }

  /** Headers of different areas do not overlap, not even those that end pages. */
  lemma HeadersApart(next: map<Addr, Addr>, tops: set<Addr>, ends: set<Addr>, a: Addr, b: Addr)
    requires Tiled(next, tops, ends) && a in next && b in next && a != HEAD && a < b
    ensures a + QUEUESZ <= b
  {
    hide Edges, Roomy, Apart;
    Gap(next, ends, a, b);
    if a !in ends {
      SizeAt(next, ends, a);
    }
  }
}
