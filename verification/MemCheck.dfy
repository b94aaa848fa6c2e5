/** The checker of the allocator: it walks through all areas of all pages. */
module MemCheck {
  import opened Tasks
  import opened Areas
  import opened Heaps
  import opened Pages
  import opened Blocks
  import opened Malloc
  import Q = QueueLinks

  /** The walk is at area `aq` of page `i`, at the top of it if `newpg`, or through. */
  ghost predicate At(p: Paged, first: seq<Addr>, last: seq<Addr>, i: nat, aq: Addr, newpg: bool) {
    if aq == HEAD then i == |first| && newpg
    else aq in p.h.next && Within(first, last, i, aq) && (newpg <==> aq == first[i])
  }

  /** Area `a` lies before the place of the walk. */
  ghost predicate Passed(first: seq<Addr>, last: seq<Addr>, i: nat, aq: Addr, a: int) {
    a >= 0 && ((exists k: nat :: k < i && Within(first, last, k, a))
        || (aq != HEAD && Within(first, last, i, a) && a < aq))
  }

  ghost predicate Walkable(p: Paged, first: seq<Addr>, last: seq<Addr>) {
    Sound(p.h, p.tops, p.ends) && InOrder(p, first, last)
  }

  lemma Starts(p: Paged, first: seq<Addr>, last: seq<Addr>, a: int)
    requires Walkable(p, first, last)
    ensures HEAD in p.h.next && At(p, first, last, 0, p.h.next[HEAD], true)
    ensures !Passed(first, last, 0, p.h.next[HEAD], a)
  {
    hide Sound, Edged, Inside;
    if |first| > 0 {
      EdgesIn(p.h.next, p.tops, p.ends, first, last, 0);
    }
  }

  /** What the checker sees at an area that is not the end of a page. */
  lemma Sees(p: Paged, first: seq<Addr>, last: seq<Addr>, i: nat, aq: Addr, newpg: bool)
    requires At(p, first, last, i, aq, newpg) && aq != HEAD && Walkable(p, first, last)
    ensures i < |first| == |last| && aq in p.h.next && (newpg <==> aq in p.tops)
    ensures (aq in p.ends <==> aq == last[i]) && (aq in p.ends ==> !newpg)
    ensures aq !in p.ends ==>
              && p.h.next[aq] in p.h.prev && p.h.prev[p.h.next[aq]] == aq
              && aq + QUEUESZ + MIN_FRAGMENT <= p.h.next[aq]
  {
    hide Sound, Edged, Inside, Ordered, Disjoint;
    OneEnd(p.tops, p.ends, first, last, i, aq);
    EdgesIn(p.h.next, p.tops, p.ends, first, last, i);
    if aq !in p.ends {
      InPage(p, aq);
    }
  }

  lemma InPage(p: Paged, a: Addr)
    requires Sound(p.h, p.tops, p.ends) && a in p.h.next && a != HEAD && a !in p.ends
    ensures p.h.next[a] in p.h.prev && p.h.prev[p.h.next[a]] == a && a + QUEUESZ + MIN_FRAGMENT <= p.h.next[a]
    ensures p.h.next[a] in p.h.next
    ensures forall b :: b in p.h.next && a < b ==> p.h.next[a] <= b
  {
    hide Bounded, NoFreeNeighbours, FreeQueue, Linked, Roomy, Edges, Apart;
    Neighbours(p.h.next, p.h.prev, p.tops, p.ends, a);
    forall b | b in p.h.next && a < b ensures p.h.next[a] <= b {
      Gap(p.h.next, p.ends, a, b);
    }
  }

  /** Inside a page: exactly one more area is behind. */
  lemma StepsOn(p: Paged, first: seq<Addr>, last: seq<Addr>, i: nat, aq: Addr, newpg: bool, a: int)
    requires At(p, first, last, i, aq, newpg) && aq != HEAD && Walkable(p, first, last) && aq !in p.ends
    ensures At(p, first, last, i, p.h.next[aq], false) && aq < p.h.next[aq] <= last[i] && i < |first| == |last|
    ensures a >= 0 && a in p.h.next ==>
              (Passed(first, last, i, p.h.next[aq], a) <==> Passed(first, last, i, aq, a) || a == aq)
  {
    hide Sound, Edged, Inside, Ordered, Disjoint;
    InPage(p, aq);
    OneEnd(p.tops, p.ends, first, last, i, aq);
    SoundApart(p);
    NextWithin(p.h.next, p.tops, p.ends, first, last, i, aq);
  }

  lemma SoundApart(p: Paged)
    requires Sound(p.h, p.tops, p.ends)
    ensures Apart(p.h.next, p.ends)
  {
  }

  /** Past the end of page `i`, with no more block behind than before. */
  ghost predicate Over(p: Paged, first: seq<Addr>, last: seq<Addr>, i: nat, aq: Addr, a: int) {
    && aq in p.h.next && i < |first| && At(p, first, last, i + 1, p.h.next[aq], true)
    && (Live(p, a) ==> (Passed(first, last, i + 1, p.h.next[aq], a) <==> Passed(first, last, i, aq, a)))
  }

  /** From the end of a page to the next one. */
  lemma StepsOver(p: Paged, first: seq<Addr>, last: seq<Addr>, i: nat, aq: Addr, newpg: bool, a: int)
    requires At(p, first, last, i, aq, newpg) && aq != HEAD && aq in p.ends && Walkable(p, first, last)
    ensures Over(p, first, last, i, aq, a)
  {
    hide Sound, Edged, Inside, Ordered, Disjoint;
    OneEnd(p.tops, p.ends, first, last, i, aq);
    EdgesIn(p.h.next, p.tops, p.ends, first, last, i);
    if i + 1 < |first| {
      EdgesIn(p.h.next, p.tops, p.ends, first, last, i + 1);
    }
    if Live(p, a) {
      if Passed(first, last, i, aq, a) {
        assert exists k: nat :: k < i + 1 && Within(first, last, k, a);
      }
      if Passed(first, last, i + 1, p.h.next[aq], a) {
        var k: nat :| k < i + 1 && Within(first, last, k, a);
        assert k == i ==> a != last[i];
      }
    }
  }

  /** The walk passes every block. */
  lemma PassesAll(p: Paged, first: seq<Addr>, last: seq<Addr>, a: int)
    requires Walkable(p, first, last) && Live(p, a)
    ensures Passed(first, last, |first|, HEAD, a)
  {
    hide Sound, Edged, Ordered, Disjoint;
    var k := PageOf(p.h.next, first, last, a);
  }

  /** `chkalloc`: the heap is always in order, and a pointer is accepted if and only if it is
      that of a block. */
  method ChkAlloc(macb: Allocator, ptr: Option<Addr>) returns (ok: bool)
    requires macb.Valid()
    ensures ok <==> ptr == None || Live(macb.P(), ptr.value - QUEUESZ)
  {
    hide Sound, Q.Represents, NoEmptyPage, InPages, At, Passed;
    ghost var p, first, last, a := macb.P(), macb.first, macb.last, if ptr.Some? then ptr.value - QUEUESZ else -1;
    var newpg, ptr_ok := true, ptr == None;
    Starts(p, first, last, a);
    var aq: Addr := macb.store.next[HEAD];
    ghost var i: nat := 0;
    while aq != HEAD
      invariant At(p, first, last, i, aq, newpg) && i <= |first|
      invariant ptr_ok <==> ptr == None || (Live(p, a) && Passed(first, last, i, aq, a))
      decreases |first| - i, if i < |first| == |last| then last[i] - aq else 0
    {
      Sees(p, first, last, i, aq, newpg);
      if newpg && aq !in macb.store.tops {
        return false;
      }
      if aq in macb.store.ends {
        if newpg {
          return false;
        }
        StepsOver(p, first, last, i, aq, newpg, a);
        newpg, aq, i := true, macb.store.next[aq], i + 1;
        continue;
      }
      StepsOn(p, first, last, i, aq, newpg, a);
      newpg := false;
      var nq := macb.store.next[aq];
      if nq <= aq || macb.store.prev[nq] != aq || nq - aq < QUEUESZ * 3 {
        return false;
      }
      if aq in macb.store.used && ptr == Some(aq + QUEUESZ) {
        ptr_ok := true;
      }
      aq := nq;
    }
    Through(p, first, last, i, newpg);
    if Live(p, a) {
      PassesAll(p, first, last, a);
    }
    if !newpg {
      return false;
    }
    return ptr_ok;
  }

  lemma Through(p: Paged, first: seq<Addr>, last: seq<Addr>, i: nat, newpg: bool)
    requires At(p, first, last, i, HEAD, newpg)
    ensures i == |first| && newpg
  {
  }
}
