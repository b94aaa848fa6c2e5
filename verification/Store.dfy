/** The operations on areas that the kernel's pools and the library's allocator share. */
module Stores {
  import opened Tasks
  import opened Sequences
  import opened Areas
  import opened Memories
  import opened Heaps
  import Q = QueueLinks

  /** A heap without areas. */
  lemma NoArea()
    ensures Sound(Heap(map[HEAD := HEAD], map[HEAD := HEAD], {HEAD}, []), {}, {})
  {
    var next: map<Addr, Addr> := map[HEAD := HEAD];
    assert next.Keys == {HEAD};
    assert next.Keys - {HEAD} == {};
  }

  lemma FreeNodes(next: map<Addr, Addr>, links: Q.Links, free: seq<seq<Addr>>, frees: set<Addr>, i: nat)
    requires FreeQueue(next, free, frees) && Q.Represents(links, free)
    ensures Q.Closed(links, Q.NodesFor(frees))
    ensures Q.Main in Q.NodesFor(frees)
    ensures i < |free| ==>
              && free[i] != [] && Q.BySize(free[i][0]) in Q.NodesFor(frees)
              && Q.Same(free[i][0]) in Q.NodesFor(frees)
  {
    hide Q.Represents, Q.Closed;
    Q.QueueCloses(links, free, frees);
    assert i < |free| ==> free[i] != [] && free[i][0] in free[i];
  }

  lemma AreasOf(frees: set<Addr>, a: Addr)
    ensures forall x :: x in Q.NodesFor(frees) ==> x.Main? || x.a in frees
    ensures a in frees ==> Q.BySize(a) in Q.NodesFor(frees) && Q.Same(a) in Q.NodesFor(frees)
    ensures forall x: Q.Node :: x.BySize? && x in Q.NodesFor(frees) ==> x.a in frees
  {
  }

  lemma KeysSame(h: Heap, tops: set<Addr>, ends: set<Addr>)
    requires Sound(h, tops, ends)
    ensures h.next.Keys == h.prev.Keys && HEAD in h.next && h.next[HEAD] in h.next
  {
    hide Bounded, NoFreeNeighbours, FreeQueue, Roomy, Apart;
    assert h.next[HEAD] in h.prev;
  }

  lemma KeysOf(h: Heap, tops: set<Addr>, ends: set<Addr>, a: Addr)
    requires Sound(h, tops, ends) && a in h.next && a != HEAD && a !in ends
    ensures h.next[a] in h.next
  {
    hide Chain, FreeQueue;
    ChainFacts(h.next, h.prev, tops, ends, a);
  }

  /** What lies around an area is an area. */
  lemma AroundIn(h: Heap, tops: set<Addr>, ends: set<Addr>, x: Addr)
    requires x in h.next && Chain(h.next, h.prev, tops, ends)
    ensures x in h.prev && h.next[x] in h.next && h.prev[x] in h.next
  {
    hide Tiled;
  }

  /** The same for the two areas of a page that goes. */
  lemma AroundPage(h: Heap, tops: set<Addr>, ends: set<Addr>, t: Addr)
    requires t in h.next && h.next[t] in h.next && Chain(h.next, h.prev, tops, ends) && CanUnpage(h.next, h.prev, t)
    ensures var e := h.next[t]; var n1, p1 := RemovedNext(h.next, h.prev, e), RemovedPrev(h.next, h.prev, e);
            && e in h.prev && h.next[e] in h.next && h.prev[e] in h.next
            && t in n1 && t in p1 && n1[t] in h.next && p1[t] in h.next
  {
    hide Tiled;
    AroundIn(h, tops, ends, t);
    AroundIn(h, tops, ends, h.next[t]);
  }

  lemma NotQueued(free: seq<seq<Addr>>, frees: set<Addr>, a: Addr)
    requires Exactly(free, frees) && a !in frees
    ensures forall i :: 0 <= i < |free| ==> a !in free[i]
  {
  }

  class Store {
    /** Up to this size free areas are looked for from the smaller end. */
    const quarter: nat
    var next: map<Addr, Addr>
    var prev: map<Addr, Addr>
    /** The areas that are not free: in use, ends of pages, and the head. */
    var used: set<Addr>
    /** The first and the last areas of the pages. */
    var tops: set<Addr>
    var ends: set<Addr>
    /** The links of the free queue, and the rings they form. */
    var links: Q.Links
    ghost var freeque: seq<seq<Addr>>
    /** The memory the areas lie in: their headers, links and blocks. */
    var mem: Memory

    ghost function H(): Heap
      reads this
    {
      Heap(next, prev, used, freeque)
    }

    ghost predicate Valid()
      reads this
    {
      Sound(H(), tops, ends) && Q.Represents(links, freeque)
    }

    /** All is well once `a`, which is in no queue, counts as used. */
    ghost predicate Isolated(a: Addr)
      reads this
    {
      && a in next && next[a] in used && a != HEAD && a !in ends
      && Sound(H().(used := used + {a}), tops, ends) && Q.Represents(links, freeque)
    }

    /** No area. */
    constructor (quarter: nat, mem: Memory)
      ensures Valid() && this.mem == mem && this.quarter == quarter && next == map[HEAD := HEAD]
                && prev == map[HEAD := HEAD]
      ensures used == {HEAD} && tops == {} && ends == {} && freeque == []
    {
      hide Sound, Q.Represents;
      NoArea();
      Q.NoneInQueue();
      this.quarter, this.mem := quarter, mem;
      next, prev := map[HEAD := HEAD], map[HEAD := HEAD];
      used, tops, ends := {HEAD}, {}, {};
      links := Q.Inited(Q.Links(map[], map[]), Q.Main);
      freeque := [];
    }

    /** Some bytes are written; what, is the business of `next`, `prev` and `links`. */
    method Write(at: Addr, n: nat)
      modifies this`mem
      ensures OnlyBytes(old(mem), mem, at, n)
    {
      var i := 0;
      while i < n
        invariant i <= n
        invariant OnlyBytes(old(mem), mem, at, i)
      {
        var v: int := *;
        WroteOne(old(mem), mem, at, i, v);
        mem := mem[at + i := v];
        i := i + 1;
      }
    }

    /** The links of the chain in the header of `a`, and its flag; the head is not in memory. */
    method WriteHeader(a: Addr)
      modifies this`mem
      ensures OnlyAt(old(mem), mem, {a}, {})
    {
      Nowhere(mem, {a}, {});
      if a != HEAD {
        Write(a, QUEUESZ);
        WrittenAt(old(mem), mem, a, QUEUESZ, {a}, {});
      }
    }

    /** A link of the free queue. */
    method WriteLink(x: Q.Node, ghost areas: set<Addr>)
      requires x.Main? || x.a in areas
      modifies this`mem
      ensures OnlyAt(old(mem), mem, {}, areas)
    {
      Nowhere(mem, {}, areas);
      if !x.Main? {
        var at := if x.BySize? then x.a + QUEUESZ else x.a + QUEUESZ * 2;
        Write(at, QUEUESZ);
        WrittenAt(old(mem), mem, at, QUEUESZ, {}, areas);
      }
    }

    /** `QueInsert`: three links are written. */
    method QueInsert(e: Q.Node, q: Q.Node, ghost n: set<Q.Node>, ghost areas: set<Addr>)
      requires Q.Closed(links, n) && q in n && forall x :: x in n + {e} ==> x.Main? || x.a in areas
      modifies this`links, this`mem
      ensures links == Q.Inserted(old(links), e, q) && Q.Closed(links, n + {e}) && OnlyAt(old(mem), mem, {}, areas)
    {
      hide OnlyAt, Q.Closed, Q.Inserted, Q.Next, Q.Prev;
      Q.ClosedAt(links, n, q);
      Q.InsertedCloses(links, n, e, q);
      WriteLink(e, areas);
      ghost var m1 := mem;
      WriteLink(Q.Prev(links, q), areas);
      ghost var m2 := mem;
      WriteLink(q, areas);
      OneAfterOther(old(mem), m1, m2, {}, areas);
      OneAfterOther(old(mem), m2, mem, {}, areas);
      links := Q.Inserted(links, e, q);
    }

    /** `QueRemove`: the links on both sides are written. */
    method QueRemove(e: Q.Node, ghost n: set<Q.Node>, ghost areas: set<Addr>)
      requires Q.Closed(links, n) && e in n && forall x :: x in n ==> x.Main? || x.a in areas
      modifies this`links, this`mem
      ensures links == Q.Removed(old(links), e) && Q.Closed(links, n) && OnlyAt(old(mem), mem, {}, areas)
    {
      hide OnlyAt, Q.Closed, Q.Removed, Q.Next, Q.Prev;
      Q.ClosedAt(links, n, e);
      Q.RemovedCloses(links, n, e);
      WriteLink(Q.Prev(links, e), areas);
      ghost var m1 := mem;
      WriteLink(Q.Next(links, e), areas);
      OneAfterOther(old(mem), m1, mem, {}, areas);
      links := Q.Removed(links, e);
    }

    /** `QueInit`. */
    method QueInit(e: Q.Node, ghost n: set<Q.Node>, ghost areas: set<Addr>)
      requires Q.Closed(links, n) && (e.Main? || e.a in areas)
      modifies this`links, this`mem
      ensures links == Q.Inited(old(links), e) && Q.Closed(links, n + {e}) && OnlyAt(old(mem), mem, {}, areas)
    {
      hide OnlyAt, Q.Closed;
      Q.InitedCloses(links, n, e);
      WriteLink(e, areas);
      links := Q.Inited(links, e);
    }

    /** `FreeSize`. */
    function FreeSize(q: Q.Node): int
      requires q.BySize? && q.a in next
      reads this
    {
      Size(next, q.a)
    }

    /** `searchFreeArea`: from the larger end for large blocks, else from the smaller one. */
    method SearchFreeArea(blksz: nat) returns (q: Q.Node, ghost i: nat)
      requires Rings(next, freeque) && Q.Represents(links, freeque) && Ascending(next, freeque) && blksz > 0
      ensures Closest(next, freeque, blksz, i) && q == Q.NodeAt(freeque, i)
    {
      if blksz > quarter {
        q, i := SearchFromLarger(blksz);
      } else {
        q, i := SearchFromSmaller(blksz);
      }
    }

    method SearchFromLarger(blksz: nat) returns (q: Q.Node, ghost i: nat)
      requires Rings(next, freeque) && Q.Represents(links, freeque) && Ascending(next, freeque) && blksz > 0
      ensures Closest(next, freeque, blksz, i) && q == Q.NodeAt(freeque, i)
    {
      hide Q.Represents, Q.Next, Q.Prev;
      var fsz := 0;
      Q.MainEnds(links, freeque);
      i := |freeque|;
      q := Q.Prev(links, Q.Main);
      while q != Q.Main
        invariant i <= |freeque| && q == (if i == 0 then Q.Main else Q.NodeAt(freeque, i - 1))
        invariant forall k :: i <= k < |freeque| ==> RingSize(next, freeque, k) > blksz
        invariant fsz == if i < |freeque| then RingSize(next, freeque, i) else 0
        decreases i
      {
        i := i - 1;
        Q.MainNext(links, freeque, i);
        RingFacts(next, freeque, i);
        fsz := FreeSize(q);
        if fsz <= blksz {
          if fsz < blksz {
            i := i + 1;
            return Q.Next(links, q), i;
          }
          return q, i;
        }
        q := Q.Prev(links, q);
      }
      if fsz >= blksz {
        return Q.Next(links, q), 0;
      }
      i := |freeque|;
    }

    method SearchFromSmaller(blksz: nat) returns (q: Q.Node, ghost i: nat)
      requires Rings(next, freeque) && Q.Represents(links, freeque) && Ascending(next, freeque) && blksz > 0
      ensures Closest(next, freeque, blksz, i) && q == Q.NodeAt(freeque, i)
    {
      hide Q.Represents, Q.Next, Q.Prev;
      Q.MainEnds(links, freeque);
      i := 0;
      q := Q.Next(links, Q.Main);
      while q != Q.Main
        invariant i <= |freeque| && q == Q.NodeAt(freeque, i)
        invariant forall k :: 0 <= k < i ==> RingSize(next, freeque, k) < blksz
        decreases |freeque| - i
      {
        Q.MainNext(links, freeque, i);
        RingFacts(next, freeque, i);
        if FreeSize(q) >= blksz {
          return;
        }
        q, i := Q.Next(links, q), i + 1;
      }
    }

    /** `appendFreeArea`. */
    method AppendFreeArea(aq: Addr, ghost frees: set<Addr>)
      requires aq in next && Size(next, aq) > 0 && FreeQueue(next, freeque, frees) && aq !in frees
      requires Q.Represents(links, freeque)
      modifies this`freeque, this`links, this`mem
      ensures FreeQueue(next, freeque, frees + {aq}) && Q.Represents(links, freeque)
      ensures OnlyAt(old(mem), mem, {aq}, frees + {aq})
    {
      hide NoRepeats, Q.Represents, OnlyAt, Q.Closed, Q.Inserted, Q.Inited, Q.NodesFor, Rings, Ascending,
        Exactly, Closest;
      var size := Size(next, aq);
      ghost var i;
      var fq: Q.Node;
      fq, i := SearchFreeArea(size);
      ghost var n := Q.NodesFor(frees);
      FreeNodes(next, links, freeque, frees, i);
      NotQueued(freeque, frees, aq);
      PutKeepsRings(next, freeque, i, aq);
      PutIsExact(next, freeque, frees, i, aq);
      RingFacts(next, freeque, i);
      AreasOf(frees, aq);
      WriteHeader(aq);
      ghost var m1 := mem;
      if fq != Q.Main && FreeSize(fq) == size {
        Q.PutInRing(links, freeque, i, aq);
        QueInsert(Q.BySize(aq), Q.Same(fq.a), n, frees + {aq});
      } else {
        Q.PutAlone(links, freeque, i, aq);
        QueInsert(Q.BySize(aq), fq, n, frees + {aq});
      }
      ghost var m2 := mem;
      QueInit(Q.Same(aq), n + {Q.BySize(aq)}, frees + {aq});
      freeque := Put(next, freeque, i, aq);
      OneAfterOther(m1, m2, mem, {}, frees + {aq});
      BothSteps(old(mem), m1, mem, {aq}, {}, {}, frees + {aq}, {aq}, frees + {aq});
    }

    /** `removeFreeQue`: the first of a ring gives its place in the queue to the next. */
    method RemoveFreeQue(fq: Addr, ghost frees: set<Addr>)
      requires FreeQueue(next, freeque, frees) && fq in frees && Q.Represents(links, freeque)
      modifies this`freeque, this`links, this`mem
      ensures FreeQueue(next, freeque, frees - {fq}) && Q.Represents(links, freeque)
      ensures OnlyAt(old(mem), mem, {}, frees)
    {
      hide Q.Represents, Q.Next, Q.Prev, Q.Inserted, Q.Removed, Q.Closed, Q.NodesFor, OnlyAt, Rings, Ascending,
        Exactly, Taken;
      ghost var i, j := Place(next, freeque, frees, fq);
      TakenKeepsRings(next, freeque, i, fq);
      TakenIsExact(next, freeque, frees, i, fq);
      Taken1(freeque, i, j);
      Q.TakeAny(links, freeque, i, j);
      ghost var n := Q.NodesFor(frees);
      FreeNodes(next, links, freeque, frees, i);
      AreasOf(frees, fq);
      Q.ClosedAt(links, n, Q.Same(fq));
      var nq := Q.Next(links, Q.Same(fq));
      if nq != Q.Same(fq) {
        Promote(fq, nq, frees);
      } else {
        Nowhere(mem, {}, frees);
      }
      ghost var m1 := mem;
      QueRemove(Q.BySize(fq), n, frees);
      freeque := Taken(freeque, i, fq);
      OneAfterOther(old(mem), m1, mem, {}, frees);
    }

    /** The four link operations for the first of a ring, `nq` being the next. */
    method Promote(fq: Addr, nq: Q.Node, ghost frees: set<Addr>)
      requires Q.Closed(links, Q.NodesFor(frees)) && fq in frees && nq.BySize? && nq.a in frees
      modifies this`links, this`mem
      ensures links == Q.Promoted(old(links), fq, nq.a) && Q.Closed(links, Q.NodesFor(frees))
      ensures OnlyAt(old(mem), mem, {}, frees)
    {
      hide Q.Next, Q.Prev, Q.Inserted, Q.Removed, Q.Closed, Q.NodesFor, OnlyAt;
      ghost var n := Q.NodesFor(frees);
      AreasOf(frees, fq);
      AreasOf(frees, nq.a);
      QueRemove(Q.Same(fq), n, frees);
      ghost var m1 := mem;
      QueInsert(Q.Same(nq.a), nq, n, frees);
      assert n + {Q.Same(nq.a)} == n;
      ghost var m2 := mem;
      QueRemove(nq, n, frees);
      ghost var m3 := mem;
      QueInsert(nq, Q.BySize(fq), n, frees);
      assert n + {nq} == n;
      OneAfterOther(old(mem), m1, m2, {}, frees);
      OneAfterOther(old(mem), m2, m3, {}, frees);
      OneAfterOther(old(mem), m3, mem, {}, frees);
    }

    method WriteHeaders(a: Addr, b: Addr, c: Addr)
      modifies this`mem
      ensures OnlyAt(old(mem), mem, {a, b, c}, {})
    {
      hide OnlyAt;
      WriteHeader(a);
      ghost var m1 := mem;
      WriteHeader(b);
      ghost var m2 := mem;
      WriteHeader(c);
      BothSteps(old(mem), m1, m2, {a}, {}, {b}, {}, {a, b, c}, {});
      BothSteps(old(mem), m2, mem, {a, b, c}, {}, {c}, {}, {a, b, c}, {});
    }

    /** `insertAreaQue`. */
    method InsertAreaQue(que: Addr, ent: Addr)
      requires que in next
      modifies this`next, this`prev, this`mem
      ensures next == InsertedNext(old(next), que, ent) && prev == InsertedPrev(old(next), old(prev), que, ent)
      ensures OnlyAt(old(mem), mem, {que, ent, old(next)[que]}, {})
    {
      hide OnlyAt;
      var nx := next[que];
      WriteHeaders(ent, nx, que);
      assert {ent, nx, que} == {que, ent, nx};
      prev, next := prev[ent := que], next[ent := nx];
      prev, next := prev[nx := ent], next[que := ent];
    }

    /** `removeAreaQue`. */
    method RemoveAreaQue(aq: Addr)
      requires aq in next && aq in prev
      modifies this`next, this`prev, this`mem
      ensures next == RemovedNext(old(next), old(prev), aq) && prev == RemovedPrev(old(next), old(prev), aq)
      ensures OnlyAt(old(mem), mem, {old(next)[aq], old(prev)[aq]}, {})
    {
      hide OnlyAt;
      var nx, pv := next[aq], prev[aq];
      WriteHeaders(nx, pv, pv);
      assert {nx, pv, pv} == {nx, pv};
      next, prev := next[pv := nx] - {aq}, prev[nx := pv] - {aq};
    }

    /** The smallest free area large enough is taken out of the free queue, if there is one. */
    method Isolate(blksz: nat) returns (aq: Option<Addr>)
      requires Valid() && blksz > 0
      modifies this`freeque, this`links, this`mem
      ensures OnlyAt(old(mem), mem, {}, next.Keys - used) && (aq == None ==> mem == old(mem))
      ensures aq == None <==> forall a: int :: !FreeFor(old(H()), a, blksz)
      ensures aq == None ==> Valid() && freeque == old(freeque)
      ensures aq.Some? ==>
                && FreeFor(H(), aq.value, blksz) && Isolated(aq.value)
                && forall b: int :: FreeFor(H(), b, blksz) ==> Size(next, aq.value) <= Size(next, b)
    {
      hide Q.Represents, Chain, Rings, Ascending, Exactly, Closest, NoFreeNeighbours, OnlyAt;
      ghost var h := H();
      ghost var frees := next.Keys - used;
      Nowhere(mem, {}, frees);
      ghost var i;
      var q: Q.Node;
      q, i := SearchFreeArea(blksz);
      ClosestIsSmallest(next, freeque, frees, blksz, i);
      FirstOfRing(next, freeque, frees, i, blksz);
      if q == Q.Main {
        return None;
      }
      assert FreeFor(h, q.a, blksz);
      RemoveFreeQue(q.a, frees);
      TakenWhole(h, H().(used := used + {q.a}), tops, ends, q.a);
      return Some(q.a);
    }

    /** `allocate`, and the second half of `get_blk`: what is over is cut off if it can stand
        alone. */
    method Allocate(aq: Addr, size: nat)
      requires Isolated(aq) && size >= MIN_FRAGMENT
      modifies this`next, this`prev, this`used, this`freeque, this`links, this`mem
      ensures OnlyAt(old(mem), mem, next.Keys, next.Keys - used)
      ensures Valid() && aq in old(next) && SameAreas(old(Trimmed(H().(used := used + {aq}), aq, size)), H())
    {
      hide Q.Represents, Chain, FreeQueue, NoFreeNeighbours, OnlyAt;
      ghost var h := H().(used := used + {aq});
      ghost var m0 := mem;
      if Size(next, aq) - size >= MIN_FRAGMENT + QUEUESZ {
        CutsChain(h, tops, ends, aq, size);
        KeysOf(h, tops, ends, aq);
        var q, nx := Rest(aq, size), next[aq];
        InsertAreaQue(aq, q);
        ghost var m1 := mem;
        AppendFreeArea(q, h.next.Keys - h.used);
        ghost var m2 := mem;
        used := used + {aq};
        WriteHeader(aq);
        SplitIsSound(h, H(), tops, ends, aq, q);
        BothSteps(m0, m1, m2, {aq, q, nx}, {}, {q}, h.next.Keys - h.used + {q}, next.Keys, next.Keys - used);
        BothSteps(m0, m2, mem, next.Keys, next.Keys - used, {aq}, {}, next.Keys, next.Keys - used);
      } else {
        used := used + {aq};
        WriteHeader(aq);
        Wider(m0, mem, {aq}, {}, next.Keys, next.Keys - used);
      }
    }

    /** The first half of the merge when a block is given back. */
    method MergeNext(aq: Addr)
      requires Loose(H(), tops, ends, aq) && Q.Represents(links, freeque)
      modifies this`next, this`prev, this`freeque, this`links, this`mem
      ensures OnlyAt(old(mem), mem, old(next.Keys), old(next.Keys - used))
      ensures next.Keys <= old(next.Keys)
      ensures Loose(H(), tops, ends, aq) && Q.Represents(links, freeque) && aq in next && next[aq] in used && aq in prev
      ensures old(next[aq] in next && next[aq] in prev) && SameAreas(JoinedNext(old(H()), aq), H())
    {
      hide Q.Represents, Chain, FreeQueue, NoFreeNeighbours, OnlyAt;
      ghost var h, m0 := H(), mem;
      ChainFacts(next, prev, tops, ends, aq);
      Nowhere(mem, next.Keys, next.Keys - used);
      var nx := next[aq];
      if nx !in used {
        RemoveFreeQue(nx, next.Keys - used - {aq});
        ghost var m1 := mem;
        JoinsNext(h, H(), tops, ends, aq);
        AroundIn(h, tops, ends, nx);
        RemoveAreaQue(nx);
        BothSteps(m0, m1, mem, {}, h.next.Keys - h.used - {aq}, {h.next[nx], h.prev[nx]}, {}, h.next.Keys,
            h.next.Keys - h.used);
        ChainFacts(next, prev, tops, ends, aq);
      }
    }

    /** The second half: the area that is left is the previous one if that was free. */
    method MergePrev(aq: Addr) returns (b: Addr)
      requires Loose(H(), tops, ends, aq) && Q.Represents(links, freeque) && next[aq] in used
      modifies this`next, this`prev, this`freeque, this`links, this`mem
      ensures OnlyAt(old(mem), mem, old(next.Keys), old(next.Keys - used))
      ensures next.Keys <= old(next.Keys)
      ensures Loose(H(), tops, ends, b) && Q.Represents(links, freeque) && b in next && next[b] in used
      ensures b in prev && prev[b] in used
      ensures aq in old(prev) && SameAreas(JoinedPrev(old(H()), aq), H()) && b == JoinedAt(old(H()), aq)
    {
      hide Q.Represents, Chain, FreeQueue, NoFreeNeighbours, OnlyAt;
      ghost var h, m0 := H(), mem;
      ChainFacts(next, prev, tops, ends, aq);
      Nowhere(mem, next.Keys, next.Keys - used);
      b := aq;
      if prev[aq] !in used {
        b := prev[aq];
        RemoveFreeQue(b, next.Keys - used - {aq});
        ghost var m1 := mem;
        JoinsPrev(h, H(), tops, ends, aq);
        AroundIn(h, tops, ends, aq);
        RemoveAreaQue(aq);
        BothSteps(m0, m1, mem, {}, h.next.Keys - h.used - {aq}, {h.next[aq], h.prev[aq]}, {}, h.next.Keys,
            h.next.Keys - h.used);
        BeforeIsUsed(h, tops, ends, b, aq);
      }
    }

    /** A block is given back: it joins its free neighbours; `b` is the area that comes of
        it, in no queue yet. */
    method Join(aq: Addr) returns (b: Addr)
      requires Valid() && aq in used && aq in next && aq != HEAD && aq !in ends
      modifies this`next, this`prev, this`used, this`freeque, this`links, this`mem
      ensures OnlyAt(old(mem), mem, old(next.Keys), old(next.Keys - used) + {aq})
      ensures Loose(H(), tops, ends, b) && Q.Represents(links, freeque) && b in next && next[b] in used
      ensures b in prev && prev[b] in used
      ensures next.Keys <= old(next.Keys)
      ensures HasFreed(old(H()), H(), aq) && used == old(used) - {aq} && aq in old(prev) && b == JoinedAt(old(H()), aq)
    {
      hide Sound, Loose, Q.Represents, JoinedNext, JoinedPrev, HasFreed, OnlyAt;
      ghost var h0, m0 := H(), mem;
      FreedIsLoose(h0, tops, ends, aq);
      SoundFacts(h0, tops, ends, aq);
      WriteHeader(aq);
      used := used - {aq};
      ghost var h, m1 := H(), mem;
      ghost var cells := next.Keys - used;
      assert cells == h0.next.Keys - h0.used + {aq};
      MergeNext(aq);
      ghost var h1, m2 := H(), mem;
      b := MergePrev(aq);
      BothSteps(m0, m1, m2, {aq}, {}, h0.next.Keys, cells, h0.next.Keys, cells);
      BothSteps(m0, m2, mem, h0.next.Keys, cells, h1.next.Keys, h1.next.Keys - h1.used, h0.next.Keys, cells);
      SameJoin(h, h1, H(), aq);
      SameJoinedAt(h0, h1, tops, ends, aq);
      assert h.used + {aq} == h0.used;
      assert h.(used := h.used + {aq}) == h0;
    }

    /** `appendFreeArea` at the end. */
    method AppendLoose(aq: Addr)
      requires Loose(H(), tops, ends, aq) && Q.Represents(links, freeque) && next[aq] in used && aq in prev
      requires prev[aq] in used
      modifies this`freeque, this`links, this`mem
      ensures Valid() && OnlyAt(old(mem), mem, next.Keys, next.Keys - used)
    {
      hide Q.Represents, Chain, FreeQueue, NoFreeNeighbours, Sound, OnlyAt;
      ghost var h := H();
      ChainFacts(next, prev, tops, ends, aq);
      AppendFreeArea(aq, next.Keys - used - {aq});
      Wider(old(mem), mem, {aq}, next.Keys - used - {aq} + {aq}, next.Keys, next.Keys - used);
      LooseNoMore(h, H(), tops, ends, aq);
    }

    /** A block in use takes in the free area behind it. */
    method Grow(aq: Addr)
      requires Valid() && aq in used && aq in next && aq != HEAD && aq !in ends
      modifies this`next, this`prev, this`freeque, this`links, this`mem
      ensures OnlyAt(old(mem), mem, old(next.Keys), old(next.Keys - used))
      ensures Isolated(aq) && old(next[aq] in next && next[aq] in prev) && SameAreas(JoinedNext(old(H()), aq), H())
    {
      hide Q.Represents, Chain, FreeQueue, NoFreeNeighbours, OnlyAt;
      ghost var h, m0 := H(), mem;
      ChainFacts(next, prev, tops, ends, aq);
      assert used + {aq} == used;
      Nowhere(mem, next.Keys, next.Keys - used);
      var nx := next[aq];
      if nx !in used {
        RemoveFreeQue(nx, next.Keys - used);
        ghost var m1 := mem;
        GrowsNext(h, H(), tops, ends, aq);
        AroundIn(h, tops, ends, nx);
        RemoveAreaQue(nx);
        BothSteps(m0, m1, mem, {}, h.next.Keys - h.used, {h.next[nx], h.prev[nx]}, {}, h.next.Keys,
            h.next.Keys - h.used);
        assert used + {aq} == used;
      }
    }

    /** `newPage`: the page from `t` to `e` is put into the chain; its area is in no queue. */
    method AddPage(t: Addr, e: Addr)
      requires Valid() && FreshPage(next, ends, t, e)
      modifies this`next, this`prev, this`used, this`tops, this`ends, this`mem
      ensures Isolated(t) && Q.Represents(links, freeque) && OnlyAt(old(mem), mem, next.Keys, {})
      ensures HEAD in old(next) && next == PagedNext(old(next), t, e) && prev == PagedPrev(old(next), old(prev), t, e)
      ensures used == old(used) + {e} && tops == old(tops) + {t} && ends == old(ends) + {e}
      ensures t in next && next[t] == e && t !in old(used) && e !in old(used)
    {
      hide Q.Represents, Chain, FreeQueue, NoFreeNeighbours, FreshPage, OnlyAt;
      ghost var h, m0 := H(), mem;
      FreshPageFacts(next, ends, t, e);
      NextOnce(next, prev, tops, ends, HEAD);
      KeysSame(h, tops, ends);
      InsertAreaQue(HEAD, e);
      ghost var m1 := mem;
      InsertAreaQue(HEAD, t);
      ghost var m2 := mem;
      used, tops, ends := used + {e}, tops + {t}, ends + {e};
      WriteHeaders(t, e, e);
      assert {t, e, e} == {t, e};
      BothSteps(m0, m1, m2, {HEAD, e, h.next[HEAD]}, {}, {HEAD, t, e}, {}, next.Keys, {});
      BothSteps(m0, m2, mem, next.Keys, {}, {t, e}, {}, next.Keys, {});
      NewPageIsSound(h, H(), old(tops), old(ends), t, e);
    }

    /** `appendFreeArea` for the area of a new page. */
    method AppendTop(t: Addr)
      requires Isolated(t) && t in tops && t !in used
      modifies this`freeque, this`links, this`mem
      ensures Valid()
    {
      hide Q.Represents, Chain, FreeQueue, NoFreeNeighbours, Loose, Sound, OnlyAt;
      FreedIsLoose(H().(used := used + {t}), tops, ends, t);
      assert used + {t} - {t} == used;
      assert H().(used := used + {t} - {t}) == H();
      TopFacts(H(), tops, ends, t);
      AppendLoose(t);
    }

    /** The end of `_mem_free`: a page that is one free area is taken out of the chain. */
    method RemovePage(t: Addr)
      requires Loose(H(), tops, ends, t) && Q.Represents(links, freeque) && t in tops && next[t] in ends
      modifies this`next, this`prev, this`used, this`tops, this`ends, this`mem
      ensures Valid() && old(CanUnpage(next, prev, t)) && OnlyAt(old(mem), mem, old(next.Keys), {})
      ensures next == old(UnpagedNext(next, prev, t)) && prev == old(UnpagedPrev(next, prev, t))
      ensures used == old(used - {next[t]}) && tops == old(tops) - {t} && ends == old(ends - {next[t]})
    {
      hide Q.Represents, Chain, FreeQueue, NoFreeNeighbours, OnlyAt;
      ghost var h, m0 := H(), mem;
      UnpageKeepsChain(next, prev, tops, ends, t);
      var e := next[t];
      AroundPage(h, tops, ends, t);
      RemoveAreaQue(e);
      ghost var m1, n1, p1 := mem, next[t], prev[t];
      RemoveAreaQue(t);
      BothSteps(m0, m1, mem, {h.next[e], h.prev[e]}, {}, {n1, p1}, {}, h.next.Keys, {});
      used, tops, ends := used - {e}, tops - {t}, ends - {e};
      OldPageIsSound(h, H(), old(tops), old(ends), t);
    }

    /** `MaxFreeSize`. */
    method MaxFreeSize() returns (r: int)
      requires Valid()
      ensures Largest(H(), r)
    {
      hide Q.Represents, Chain, Rings, Ascending, Exactly, NoFreeNeighbours;
      Q.MainEnds(links, freeque);
      ghost var frees := next.Keys - used;
      var q := Q.Prev(links, Q.Main);
      if q == Q.Main {
        r := 0;
        NoneIsFree(H());
      } else {
        RingFacts(next, freeque, |freeque| - 1);
        LastIsFree(H());
        ChainFacts(next, prev, tops, ends, q.a);
        r := FreeSize(q);
        LastIsLargest(H(), q.a);
      }
    }
  }
}
