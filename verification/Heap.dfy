/** What a heap of areas keeps while areas are taken, cut, given back and joined. */
module Heaps {
  import opened Tasks
  import opened Areas

  /** The area chain both ways, the areas that are not free, the free areas by size. */
  datatype Heap = Heap(next: map<Addr, Addr>, prev: map<Addr, Addr>, used: set<Addr>, free: seq<seq<Addr>>)

  /** The head and the ends of pages count as used. */
  ghost predicate Bounded(h: Heap, ends: set<Addr>) {
    HEAD in h.used && ends <= h.used && h.used <= h.next.Keys
  }

  /** Of two neighbours at least one is used, but for the area `but`, if any. */
  ghost predicate NoFreeNeighbours(h: Heap, but: Option<Addr>) {
    forall a :: a in h.next && a !in h.used && but != Some(a) ==> h.next[a] in h.used || but == Some(h.next[a])
  }

  ghost predicate Sound(h: Heap, tops: set<Addr>, ends: set<Addr>) {
    && Bounded(h, ends) && NoFreeNeighbours(h, None)
    && Chain(h.next, h.prev, tops, ends) && FreeQueue(h.next, h.free, h.next.Keys - h.used)
  }

  /** All is well but for the area `a`, which is neither used nor in the free queue. */
  ghost predicate Loose(h: Heap, tops: set<Addr>, ends: set<Addr>, a: Addr) {
    && a in h.next && a !in h.used && Bounded(h, ends) && NoFreeNeighbours(h, Some(a))
    && Chain(h.next, h.prev, tops, ends) && FreeQueue(h.next, h.free, h.next.Keys - h.used - {a})
  }

  /** The same chain and the same flags, whatever the order in the free queue. */
  predicate SameAreas(h: Heap, h': Heap) {
    h'.next == h.next && h'.prev == h.prev && h'.used == h.used
  }

  lemma ChainFacts(next: map<Addr, Addr>, prev: map<Addr, Addr>, tops: set<Addr>, ends: set<Addr>, a: Addr)
    requires Chain(next, prev, tops, ends) && a in next && a != HEAD && a !in ends
    ensures next.Keys == prev.Keys && prev[a] in next && next[prev[a]] == a
    ensures next[a] in next && prev[next[a]] == a && next[a] != HEAD && next[a] !in tops && a < next[a]
    ensures next[a] !in ends ==> next[next[a]] != a && next[a] < next[next[a]]
    ensures if a in tops then prev[a] == HEAD || prev[a] in ends else prev[a] < a && prev[a] != HEAD && prev[a] !in ends
    ensures Size(next, a) >= MIN_FRAGMENT
  {
    hide Linked, Tiled;
    Neighbours(next, prev, tops, ends, a);
    if next[a] !in ends {
      Neighbours(next, prev, tops, ends, next[a]);
    }
  }

  lemma NextOnce(next: map<Addr, Addr>, prev: map<Addr, Addr>, tops: set<Addr>, ends: set<Addr>, y: Addr)
    requires Chain(next, prev, tops, ends) && y in next
    ensures next[y] in prev && prev[next[y]] == y
  {
    hide Tiled;
  }

  /* ---- Joining. ---- */

  /** `a` takes in the next area if that is free. */
  function JoinedNext(h: Heap, a: Addr): Heap
    requires a in h.next && h.next[a] in h.next && h.next[a] in h.prev
  {
    var x := h.next[a];
    if x in h.used then h else h.(next := RemovedNext(h.next, h.prev, x), prev := RemovedPrev(h.next, h.prev, x))
  }

  /** `a` goes into the previous area if that is free. */
  function JoinedPrev(h: Heap, a: Addr): Heap
    requires a in h.next && a in h.prev
  {
    if h.prev[a] in h.used then h
    else h.(next := RemovedNext(h.next, h.prev, a), prev := RemovedPrev(h.next, h.prev, a))
  }

  /** The area that comes of `a` when it goes into a free previous one. */
  function JoinedAt(h: Heap, a: Addr): Addr
    requires a in h.prev
  {
    if h.prev[a] in h.used then a else h.prev[a]
  }

  lemma SameJoinedAt(h: Heap, h1: Heap, tops: set<Addr>, ends: set<Addr>, a: Addr)
    requires Sound(h, tops, ends) && a in h.used && a != HEAD && a !in ends && a in h1.prev
    requires h.next[a] in h.next && h.next[a] in h.prev && SameAreas(JoinedNext(h.(used := h.used - {a}), a), h1)
    ensures a in h.prev && JoinedAt(h1, a) == JoinedAt(h, a)
  {
    hide Chain, FreeQueue;
    ChainFacts(h.next, h.prev, tops, ends, a);
  }

  /** The areas after a block has been given back. */
  function Freed(h: Heap, a: Addr): Heap
    requires CanFree(h, a)
  {
    JoinedPrev(JoinedNext(h.(used := h.used - {a}), a), a)
  }

  /** `a` has its place in the chain, also after it has taken in the next area. */
  ghost predicate CanFree(h: Heap, a: Addr) {
    && a in h.next && h.next[a] in h.next && h.next[a] in h.prev && h.next[a] != a
    && a in JoinedNext(h.(used := h.used - {a}), a).prev
  }

  ghost predicate HasFreed(h: Heap, h': Heap, a: int) {
    a >= 0 && CanFree(h, a) && SameAreas(Freed(h, a), h')
  }

  lemma SameJoin(h: Heap, h1: Heap, h2: Heap, a: Addr)
    requires a in h.next && h.next[a] in h.next && h.next[a] in h.prev && h.next[a] != a && a !in h.used
    requires SameAreas(JoinedNext(h, a), h1) && a in h1.prev && a in h1.next && SameAreas(JoinedPrev(h1, a), h2)
    ensures HasFreed(h.(used := h.used + {a}), h2, a)
  {
    hide RemovedNext, RemovedPrev;
    assert h.used + {a} - {a} == h.used;
  }

  lemma SoundFacts(h: Heap, tops: set<Addr>, ends: set<Addr>, a: Addr)
    requires Sound(h, tops, ends) && a in h.next && a != HEAD && a !in ends
    ensures h.next[a] in h.next && h.next[a] in h.prev && h.next[a] != a
  {
    hide Chain, FreeQueue;
    ChainFacts(h.next, h.prev, tops, ends, a);
  }

  lemma FreedIsLoose(h: Heap, tops: set<Addr>, ends: set<Addr>, a: Addr)
    requires Sound(h, tops, ends) && a in h.used && a != HEAD && a !in ends
    ensures Loose(h.(used := h.used - {a}), tops, ends, a)
  {
    hide Chain, FreeQueue;
    assert h.next.Keys - (h.used - {a}) - {a} == h.next.Keys - h.used;
  }

  lemma JoinsNext(h: Heap, h1: Heap, tops: set<Addr>, ends: set<Addr>, a: Addr)
    requires Loose(h, tops, ends, a) && h.next[a] !in h.used && h1 == h.(free := h1.free)
    requires FreeQueue(h.next, h1.free, h.next.Keys - h.used - {a} - {h.next[a]})
    ensures h1.next[a] in h1.next && h1.next[a] in h1.prev
    ensures var h2 := JoinedNext(h1, a); Loose(h2, tops, ends, a) && h2.next[a] in h2.used
  {
    hide FreeQueue, Chain;
    var x := h.next[a];
    ChainFacts(h.next, h.prev, tops, ends, a);
    RemoveKeepsChain(h.next, h.prev, tops, ends, x);
    var n' := RemovedNext(h.next, h.prev, x);
    assert h.next[x] in h.used;
    assert n'.Keys - h.used - {a} == h.next.Keys - h.used - {a} - {x};
    SameFreeQueue(h.next, n', h1.free, h.next.Keys - h.used - {a} - {x});
  }

  lemma JoinsPrev(h: Heap, h1: Heap, tops: set<Addr>, ends: set<Addr>, a: Addr)
    requires Loose(h, tops, ends, a) && h.next[a] in h.used && a in h.prev && h.prev[a] !in h.used
    requires h1 == h.(free := h1.free)
    requires FreeQueue(h.next, h1.free, h.next.Keys - h.used - {a} - {h.prev[a]})
    ensures var h2 := JoinedPrev(h1, a); var b := h.prev[a];
            Loose(h2, tops, ends, b) && h2.next[b] in h2.used
  {
    hide FreeQueue, Chain;
    var b := h.prev[a];
    ChainFacts(h.next, h.prev, tops, ends, a);
    RemoveKeepsChain(h.next, h.prev, tops, ends, a);
    var n' := RemovedNext(h.next, h.prev, a);
    assert n'.Keys - h.used - {b} == h.next.Keys - h.used - {a} - {b};
    assert NoFreeNeighbours(JoinedPrev(h1, a), Some(b)) by {
      forall y | y in n' && y !in h.used && y != b ensures n'[y] in h.used || n'[y] == b {
        assert h.next[y] in h.used || h.next[y] == a;
        NextOnce(h.next, h.prev, tops, ends, y);
      }
    }
    SameFreeQueue(h.next, n', h1.free, h.next.Keys - h.used - {a} - {b});
  }

  /** Before a free area lies a used one, also when the area has grown. */
  lemma BeforeIsUsed(h: Heap, tops: set<Addr>, ends: set<Addr>, b: Addr, aq: Addr)
    requires Loose(h, tops, ends, aq) && aq in h.prev && h.prev[aq] == b && b !in h.used
    ensures b in h.prev && b in JoinedPrev(h, aq).prev && JoinedPrev(h, aq).prev[b] in h.used
  {
    hide Chain, FreeQueue;
    ChainFacts(h.next, h.prev, tops, ends, aq);
    ChainFacts(h.next, h.prev, tops, ends, b);
    var c := h.prev[b];
    assert h.next[c] == b;
  }

  /** The loose area, between used ones, is put into the free queue. */
  lemma LooseNoMore(h: Heap, h1: Heap, tops: set<Addr>, ends: set<Addr>, a: Addr)
    requires Loose(h, tops, ends, a) && h.next[a] in h.used && a in h.prev && h.prev[a] in h.used
    requires h1 == h.(free := h1.free)
    requires FreeQueue(h.next, h1.free, h.next.Keys - h.used - {a} + {a})
    ensures Sound(h1, tops, ends)
  {
    hide FreeQueue, Chain;
    assert h.next.Keys - h.used - {a} + {a} == h.next.Keys - h.used;
    forall y | y in h.next && y !in h.used ensures h.next[y] in h.used {
      NextOnce(h.next, h.prev, tops, ends, y);
    }
  }

  /** A used area takes in the free one behind it. */
  lemma GrowsNext(h: Heap, h1: Heap, tops: set<Addr>, ends: set<Addr>, a: Addr)
    requires Sound(h, tops, ends) && a in h.used && a != HEAD && a !in ends && h.next[a] !in h.used
    requires h1 == h.(free := h1.free)
    requires h.next[a] in h.next && FreeQueue(h.next, h1.free, h.next.Keys - h.used - {h.next[a]})
    ensures h.next[a] in h.prev
    ensures var h2 := JoinedNext(h1, a); Sound(h2, tops, ends) && a in h2.next && h2.next[a] in h2.used
  {
    hide FreeQueue, Chain;
    var x := h.next[a];
    ChainFacts(h.next, h.prev, tops, ends, a);
    RemoveKeepsChain(h.next, h.prev, tops, ends, x);
    var n' := RemovedNext(h.next, h.prev, x);
    assert n'.Keys - h.used == h.next.Keys - h.used - {x};
    SameFreeQueue(h.next, n', h1.free, h.next.Keys - h.used - {x});
  }

  /* ---- Taking and cutting. ---- */

  /** The header of the rest of area `a` when `blksz` bytes are cut off. */
  function Rest(a: Addr, blksz: nat): Addr {
    a + QUEUESZ + blksz
  }

  /** `a` with what is over `blksz` cut off, if that can stand alone. */
  function Trimmed(h: Heap, a: Addr, blksz: nat): Heap
    requires a in h.next
  {
    if Size(h.next, a) - blksz >= MIN_FRAGMENT + QUEUESZ then
      var e := Rest(a, blksz);
      h.(next := InsertedNext(h.next, a, e), prev := InsertedPrev(h.next, h.prev, a, e))
    else h
  }

  /** What taking `blksz` bytes makes of the free area `a`. */
  function Got(h: Heap, a: Addr, blksz: nat): Heap
    requires a in h.next
  {
    Trimmed(h.(used := h.used + {a}), a, blksz)
  }

  lemma TakenWhole(h: Heap, h1: Heap, tops: set<Addr>, ends: set<Addr>, a: Addr)
    requires Sound(h, tops, ends) && a in h.next && a !in h.used && h1 == h.(used := h.used + {a}, free := h1.free)
    requires FreeQueue(h.next, h1.free, h.next.Keys - h.used - {a})
    ensures Sound(h1, tops, ends) && a != HEAD && a !in ends && h.next[a] in h.used
  {
    hide FreeQueue, Chain;
    assert h.next.Keys - (h.used + {a}) == h.next.Keys - h.used - {a};
  }

  /** The chain after a used area has been cut. */
  lemma CutsChain(h: Heap, tops: set<Addr>, ends: set<Addr>, a: Addr, blksz: nat)
    requires Sound(h, tops, ends) && a in h.used && a != HEAD && a !in ends && a in h.next && h.next[a] in h.used
    requires blksz >= MIN_FRAGMENT && Size(h.next, a) - blksz >= MIN_FRAGMENT + QUEUESZ
    ensures var e := Rest(a, blksz);
            && e !in h.next && e !in h.used && h.next[a] in h.prev
            && Chain(InsertedNext(h.next, a, e), InsertedPrev(h.next, h.prev, a, e), tops, ends)
            && FreeQueue(InsertedNext(h.next, a, e), h.free, h.next.Keys - h.used)
            && e in InsertedNext(h.next, a, e) && Size(InsertedNext(h.next, a, e), e) > 0
  {
    hide FreeQueue, Chain;
    var e := Rest(a, blksz);
    InsertKeepsChain(h.next, h.prev, tops, ends, a, e);
    ChainFacts(h.next, h.prev, tops, ends, a);
    SameFreeQueue(h.next, InsertedNext(h.next, a, e), h.free, h.next.Keys - h.used);
  }

  lemma SplitIsSound(h: Heap, h1: Heap, tops: set<Addr>, ends: set<Addr>, a: Addr, e: Addr)
    requires Sound(h, tops, ends) && a in h.used && a in h.next && h.next[a] in h.used && e !in h.next
    requires h1.next == InsertedNext(h.next, a, e) && h1.prev == InsertedPrev(h.next, h.prev, a, e) && h1.used == h.used
    requires Chain(h1.next, h1.prev, tops, ends) && FreeQueue(h1.next, h1.free, h.next.Keys - h.used + {e})
    ensures Sound(h1, tops, ends)
  {
    hide FreeQueue, Chain;
    assert h1.next.Keys - h1.used == h.next.Keys - h.used + {e};
  }

  /** Giving back a block that has just been cut joins the pieces again: nothing is lost and
      nothing is left apart. */
  lemma GetThenRelease(h: Heap, tops: set<Addr>, ends: set<Addr>, a: Addr, blksz: nat)
    requires Sound(h, tops, ends) && a in h.next && a !in h.used && blksz >= MIN_FRAGMENT && Size(h.next, a) >= blksz
    ensures HasFreed(Got(h, a, blksz), h, a)
  {
    hide FreeQueue, Chain;
    ChainFacts(h.next, h.prev, tops, ends, a);
    var h1, e := Got(h, a, blksz), Rest(a, blksz);
    assert h1.used - {a} == h.used;
    var p := h.prev[a];
    assert h.next[p] == a && p in h.used;
    if Size(h.next, a) - blksz >= MIN_FRAGMENT + QUEUESZ {
      EmptyBetween(h, tops, ends, a, e);
      var h2 := JoinedNext(h1.(used := h.used), a);
      assert h2.next == h.next && h2.prev == h.prev;
    }
  }

  lemma EmptyBetween(h: Heap, tops: set<Addr>, ends: set<Addr>, a: Addr, e: Addr)
    requires Sound(h, tops, ends) && a in h.next && a != HEAD && a !in ends && a < e < h.next[a]
    ensures e !in h.next && e !in h.used
  {
    hide FreeQueue, Linked, Apart;
    NothingBetween(h.next, ends, a, e);
  }

  /** Cutting a used area that had taken in the free one behind it restores both. */
  lemma GrowThenTrim(h: Heap, tops: set<Addr>, ends: set<Addr>, a: Addr)
    requires Sound(h, tops, ends) && a in h.used && a in h.next && a != HEAD && a !in ends
    ensures h.next[a] in h.next && h.next[a] in h.prev && a in JoinedNext(h, a).next && Size(h.next, a) >= MIN_FRAGMENT
    ensures SameAreas(h, Trimmed(JoinedNext(h, a), a, Size(h.next, a)))
  {
    hide FreeQueue, Chain;
    ChainFacts(h.next, h.prev, tops, ends, a);
    var x := h.next[a];
    if x !in h.used {
      ChainFacts(h.next, h.prev, tops, ends, x);
      var h1 := JoinedNext(h, a);
      assert h1.next[a] == h.next[x] && Rest(a, Size(h.next, a)) == x;
      var h2 := Trimmed(h1, a, Size(h.next, a));
      assert h2.next == h.next && h2.prev == h.prev;
    }
  }

  /* ---- Pages. ---- */

  /** A new page, its first area counted as used. */
  lemma NewPageIsSound(h: Heap, h1: Heap, tops: set<Addr>, ends: set<Addr>, t: Addr, e: Addr)
    requires Sound(h, tops, ends) && FreshPage(h.next, ends, t, e) && HEAD in h.next
    requires h1 == h.(next := PagedNext(h.next, t, e), prev := PagedPrev(h.next, h.prev, t, e), used := h.used + {e})
    ensures Sound(h1.(used := h1.used + {t}), tops + {t}, ends + {e})
    ensures t in h1.next && h1.next[t] == e && t !in h1.used && t !in h.used && e !in h.used && HEAD < t
    ensures t != e && t !in ends
  {
    hide Chain, FreeQueue, PagedNext, FreshPage;
    PageKeepsChain(h.next, h.prev, tops, ends, t, e);
    FreshPageFacts(h.next, ends, t, e);
    PagedIs(h.next, t, e);
    var h2 := h1.(used := h1.used + {t});
    assert h2.next.Keys - h2.used == h.next.Keys - h.used;
    forall a | a in h2.next && a !in h2.used ensures h2.next[a] in h2.used {
      assert a in h.next && a != HEAD;
    }
    SameFreeQueue(h.next, h2.next, h.free, h.next.Keys - h.used);
  }

  /** A page whose only area is `t` has gone. */
  lemma OldPageIsSound(h: Heap, h1: Heap, tops: set<Addr>, ends: set<Addr>, t: Addr)
    requires Loose(h, tops, ends, t) && t in tops && h.next[t] in ends
    requires CanUnpage(h.next, h.prev, t)
    requires h1 == h.(next := UnpagedNext(h.next, h.prev, t), prev := UnpagedPrev(h.next, h.prev, t),
                         used := h.used - {h.next[t]})
    ensures Sound(h1, tops - {t}, ends - {h.next[t]})
  {
    hide Chain, FreeQueue;
    var e := h.next[t];
    UnpageKeepsChain(h.next, h.prev, tops, ends, t);
    UnpagedFacts(h.next, h.prev, tops, ends, t);
    assert h1.next.Keys - h1.used == h.next.Keys - h.used - {t};
    forall a | a in h1.next && a !in h1.used ensures h1.next[a] in h1.used {
      NotIntoPage(h, tops, ends, t, a);
    }
    SameFreeQueue(h.next, h1.next, h.free, h.next.Keys - h.used - {t});
  }

  lemma UnpagedFacts(next: map<Addr, Addr>, prev: map<Addr, Addr>, tops: set<Addr>, ends: set<Addr>, t: Addr)
    requires Chain(next, prev, tops, ends) && t in tops && t in next && next[t] in ends && CanUnpage(next, prev, t)
    ensures UnpagedNext(next, prev, t).Keys == next.Keys - {t, next[t]} && HEAD != t && HEAD != next[t]
    ensures forall a :: a in UnpagedNext(next, prev, t) && a != HEAD && a !in ends ==>
              UnpagedNext(next, prev, t)[a] == next[a]
  {
    hide Linked, Roomy, Apart, UnpagedNext;
    LinkedAt(next, prev, t);
    UnpagedIs(next, prev, t);
  }

  /** No other area ends where the page ends. */
  lemma NotIntoPage(h: Heap, tops: set<Addr>, ends: set<Addr>, t: Addr, a: Addr)
    requires Loose(h, tops, ends, t) && t in tops && h.next[t] in ends && a in h.next && a !in h.used && a != t
    ensures a != HEAD && a !in ends && h.next[a] != h.next[t] && h.next[a] != t && h.next[a] in h.used
  {
    hide Chain, FreeQueue;
    NextOnce(h.next, h.prev, tops, ends, a);
    NextOnce(h.next, h.prev, tops, ends, t);
    ChainFacts(h.next, h.prev, tops, ends, a);
  }

  lemma TopFacts(h: Heap, tops: set<Addr>, ends: set<Addr>, t: Addr)
    requires Loose(h, tops, ends, t) && t in tops
    ensures t in h.prev && h.prev[t] in h.used
  {
    hide Chain, FreeQueue;
    ChainFacts(h.next, h.prev, tops, ends, t);
  }

  /* ---- What others notice. ---- */

  /** A free area large enough for `blksz`. */
  ghost predicate FreeFor(h: Heap, a: int, blksz: nat) {
    a >= 0 && a in h.next && a !in h.used && Size(h.next, a) >= blksz
  }

  /** `a` was the smallest area that is large enough, and has been taken. */
  ghost predicate HasGot(h: Heap, h': Heap, a: int, blksz: nat) {
    && FreeFor(h, a, blksz)
    && (forall b: int :: FreeFor(h, b, blksz) ==> Size(h.next, a) <= Size(h.next, b))
    && SameAreas(Got(h, a, blksz), h')
  }

  /** A block in use with room for `n` bytes. */
  ghost predicate InUse(h: Heap, a: int, n: nat) {
    a > 0 && a in h.used && a in h.next && Size(h.next, a) >= n
  }

  lemma GotIsInUse(h: Heap, h': Heap, tops: set<Addr>, ends: set<Addr>, a: int, blksz: nat)
    requires Sound(h, tops, ends) && HasGot(h, h', a, blksz)
    ensures InUse(h', a, blksz) && !InUse(h, a, 0) && a !in ends
  {
    hide Chain, FreeQueue, NoFreeNeighbours;
  }

  /** Blocks in use are neither moved nor resized by what happens to others. */
  lemma LiveBlocksStay(h: Heap, tops: set<Addr>, ends: set<Addr>, a: Addr, b: Addr, blksz: nat)
    requires Sound(h, tops, ends) && a in h.next && b in h.used && b != HEAD && a != b && a != HEAD && a !in ends
    ensures blksz >= MIN_FRAGMENT && Size(h.next, a) >= blksz ==>
              b in Trimmed(h, a, blksz).next && Trimmed(h, a, blksz).next[b] == h.next[b]
    ensures a in h.used && CanFree(h, a) ==> b in Freed(h, a).next && Freed(h, a).next[b] == h.next[b]
  {
    hide Chain, FreeQueue, NoFreeNeighbours;
    if blksz >= MIN_FRAGMENT && Size(h.next, a) - blksz >= MIN_FRAGMENT + QUEUESZ {
      EmptyBetween(h, tops, ends, a, Rest(a, blksz));
    }
    if a in h.used && CanFree(h, a) {
      OtherPrev(h, tops, ends, a, b);
    }
  }

  lemma OtherPrev(h: Heap, tops: set<Addr>, ends: set<Addr>, a: Addr, b: Addr)
    requires Sound(h, tops, ends) && a in h.used && b in h.used && b != HEAD && a != b && a != HEAD
    requires a !in ends && CanFree(h, a)
    ensures b in Freed(h, a).next && Freed(h, a).next[b] == h.next[b]
  {
    hide Chain, FreeQueue, NoFreeNeighbours;
    ChainFacts(h.next, h.prev, tops, ends, a);
    var h1 := JoinedNext(h.(used := h.used - {a}), a);
    assert b in h1.next && h1.next[b] == h.next[b] && h1.prev[a] == h.prev[a];
    if h1.prev[a] !in h1.used {
      assert b != h1.prev[a];
    }
  }

  lemma InUseStays(h: Heap, h': Heap, tops: set<Addr>, ends: set<Addr>, a: int, blksz: nat, b: int, n: nat)
    requires Sound(h, tops, ends) && HasGot(h, h', a, blksz) && InUse(h, b, n) && blksz >= MIN_FRAGMENT
    ensures InUse(h', b, n) && a != b && h'.next[b] == h.next[b]
  {
    hide Chain, FreeQueue, NoFreeNeighbours;
    LiveBlocksStay(h, tops, ends, a, b, blksz);
  }

  /** Taking a block serves nobody who could not be served before. */
  lemma NoneMoreIsFree(h: Heap, h': Heap, a: int, blksz: nat, x: nat)
    requires HasGot(h, h', a, blksz) && forall b: int :: !FreeFor(h, b, x)
    ensures forall b: int :: !FreeFor(h', b, x)
  {
    forall b: int ensures FreeFor(h', b, x) ==> FreeFor(h, b, x) || FreeFor(h, a, x) {
    }
  }

  /* ---- The largest free area. ---- */

  /** `r` is the size of the largest free area, zero if there is none. */
  ghost predicate Largest(h: Heap, r: int) {
    && (forall a: int :: FreeFor(h, a, 0) ==> Size(h.next, a) <= r)
    && (r == 0 || exists a: int :: FreeFor(h, a, 0) && Size(h.next, a) == r)
  }

  lemma LargestMeans(h: Heap, r: int, blksz: nat)
    requires Largest(h, r) && blksz > 0
    ensures blksz <= r <==> exists a: int :: FreeFor(h, a, blksz)
  {
    if blksz <= r {
      var a: int :| FreeFor(h, a, 0) && Size(h.next, a) == r;
      assert FreeFor(h, a, blksz);
    } else {
      forall a: int ensures !FreeFor(h, a, blksz) {
        FreeForLess(h, a, blksz);
      }
    }
  }

  lemma FreeForLess(h: Heap, a: int, blksz: nat)
    ensures FreeFor(h, a, blksz) ==> FreeFor(h, a, 0)
  {
  }

  lemma NoneIsFree(h: Heap)
    requires Exactly(h.free, h.next.Keys - h.used) && h.free == []
    ensures Largest(h, 0)
  {
    forall a: int ensures !FreeFor(h, a, 0) {
      assert !(a >= 0 && a in h.next.Keys - h.used);
    }
  }

  /** The last ring has the largest free areas. */
  lemma LastIsLargest(h: Heap, last: Addr)
    requires FreeQueue(h.next, h.free, h.next.Keys - h.used) && h.free != []
    requires h.free[|h.free| - 1] != [] && h.free[|h.free| - 1][0] == last && last in h.next && Size(h.next, last) >= 0
    ensures Largest(h, Size(h.next, last))
  {
    hide Rings, Ascending, Exactly;
    var n := |h.free| - 1;
    LastIsFree(h);
    assert FreeFor(h, last, 0);
    forall b: int | FreeFor(h, b, 0) ensures Size(h.next, b) <= Size(h.next, last) {
      NotLarger(h, b);
    }
  }

  lemma LastIsFree(h: Heap)
    requires Exactly(h.free, h.next.Keys - h.used) && h.free != [] && h.free[|h.free| - 1] != []
    ensures h.free[|h.free| - 1][0] in h.next.Keys - h.used
  {
    assert h.free[|h.free| - 1][0] in h.free[|h.free| - 1];
  }

  lemma NotLarger(h: Heap, b: Addr)
    requires FreeQueue(h.next, h.free, h.next.Keys - h.used) && h.free != [] && b in h.next && b !in h.used
    ensures var l := h.free[|h.free| - 1]; l != [] && l[0] in h.next && Size(h.next, b) <= Size(h.next, l[0])
  {
    var n := |h.free| - 1;
    RingFacts(h.next, h.free, n);
    assert b in h.next.Keys - h.used;
    var i :| 0 <= i < |h.free| && b in h.free[i];
    assert Size(h.next, b) == RingSize(h.next, h.free, i);
  }
}
