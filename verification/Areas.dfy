/** The areas of a memory pool: a chain of headers in address order, flags, and the free areas
    by size.  Addresses are numbers; a header takes eight bytes. */
module Areas {
  import opened Tasks
  import opened Sequences

  type Addr = nat

  /** The head of the area chain, outside the pool. */
  const HEAD: Addr := 0

  const QUEUESZ := 8
  const MIN_FRAGMENT := 16

  /** `AreaSize`. */
  function Size(next: map<Addr, Addr>, a: Addr): int
    requires a in next
  {
    next[a] - (a + QUEUESZ)
  }

  /* ---- The chain. ---- */

  /** `next` and `prev` undo each other. */
  ghost predicate Linked(next: map<Addr, Addr>, prev: map<Addr, Addr>) {
    && next.Keys == prev.Keys
    && (forall a :: a in next ==> next[a] in prev && prev[next[a]] == a)
    && (forall a :: a in prev ==> prev[a] in next && next[prev[a]] == a)
  }

  /** The areas lie in pages, each from an area in `tops` to one in `ends`; in a page they lie
      one after the other, none inside another, each with room for a minimum fragment. */
  ghost predicate Tiled(next: map<Addr, Addr>, tops: set<Addr>, ends: set<Addr>) {
    Edges(next, tops, ends) && Roomy(next, ends) && Apart(next, ends)
  }

  ghost predicate Edges(next: map<Addr, Addr>, tops: set<Addr>, ends: set<Addr>) {
    && HEAD in next && HEAD !in tops && HEAD !in ends && tops !! ends && tops <= next.Keys && ends <= next.Keys
    && (forall a :: a in next && a != HEAD && a !in ends ==> next[a] != HEAD && next[a] !in tops)
    && (forall a :: a in next && (a == HEAD || a in ends) ==> next[a] == HEAD || next[a] in tops)
  }

  ghost predicate Roomy(next: map<Addr, Addr>, ends: set<Addr>) {
    forall a :: a in next && a != HEAD && a !in ends ==> Size(next, a) >= MIN_FRAGMENT
  }

  /** Where area `a` stops: at the next one, or behind the header of the end of a page. */
  function Bound(next: map<Addr, Addr>, ends: set<Addr>, a: Addr): Addr
    requires a in next
  {
    if a in ends then a + QUEUESZ else next[a]
  }

  ghost predicate Apart(next: map<Addr, Addr>, ends: set<Addr>) {
    forall a, b :: a in next && b in next && a != HEAD && a < b ==> Bound(next, ends, a) <= b
  }

  lemma Gap(next: map<Addr, Addr>, ends: set<Addr>, a: Addr, b: Addr)
    requires Apart(next, ends) && a in next && b in next && a != HEAD && a < b
    ensures Bound(next, ends, a) <= b
  {
  }

  ghost predicate Chain(next: map<Addr, Addr>, prev: map<Addr, Addr>, tops: set<Addr>, ends: set<Addr>) {
    Linked(next, prev) && Tiled(next, tops, ends)
  }

  /** `insertAreaQue`: `ent` just after `que`. */
  function InsertedNext(next: map<Addr, Addr>, que: Addr, ent: Addr): map<Addr, Addr>
    requires que in next
  {
    next[ent := next[que]][que := ent]
  }

  function InsertedPrev(next: map<Addr, Addr>, prev: map<Addr, Addr>, que: Addr, ent: Addr): map<Addr, Addr>
    requires que in next
  {
    prev[ent := que][next[que] := ent]
  }

  /** `removeAreaQue`. */
  function RemovedNext(next: map<Addr, Addr>, prev: map<Addr, Addr>, x: Addr): map<Addr, Addr>
    requires x in next && x in prev
  {
    next[prev[x] := next[x]] - {x}
  }

  function RemovedPrev(next: map<Addr, Addr>, prev: map<Addr, Addr>, x: Addr): map<Addr, Addr>
    requires x in next && x in prev
  {
    prev[next[x] := prev[x]] - {x}
  }

  lemma InsertKeepsChain(next: map<Addr, Addr>, prev: map<Addr, Addr>, tops: set<Addr>, ends: set<Addr>, que: Addr,
                         ent: Addr)
    requires Chain(next, prev, tops, ends) && que in next && que != HEAD && que !in ends
    requires que + QUEUESZ + MIN_FRAGMENT <= ent && ent + QUEUESZ + MIN_FRAGMENT <= next[que]
    ensures ent !in next && Chain(InsertedNext(next, que, ent), InsertedPrev(next, prev, que, ent), tops, ends)
  {
    hide Apart, Linked, Roomy, Edges;
    NothingBetween(next, ends, que, ent);
    InsertKeepsLinked(next, prev, que, ent);
    InsertKeepsApart(next, tops, ends, que, ent);
    InsertKeepsRoomy(next, ends, que, ent);
    InsertKeepsEdges(next, tops, ends, que, ent);
  }

  lemma NothingBetween(next: map<Addr, Addr>, ends: set<Addr>, que: Addr, ent: Addr)
    requires Apart(next, ends) && que in next && que != HEAD && que !in ends && que < ent < next[que]
    ensures ent !in next
  {
    if ent in next {
      Gap(next, ends, que, ent);
    }
  }

  lemma InsertKeepsEdges(next: map<Addr, Addr>, tops: set<Addr>, ends: set<Addr>, que: Addr, ent: Addr)
    requires Edges(next, tops, ends) && que in next && que != HEAD && que !in ends && ent !in next
    ensures Edges(InsertedNext(next, que, ent), tops, ends)
  {
  }

  lemma InsertKeepsLinked(next: map<Addr, Addr>, prev: map<Addr, Addr>, que: Addr, ent: Addr)
    requires Linked(next, prev) && que in next && ent !in next
    ensures Linked(InsertedNext(next, que, ent), InsertedPrev(next, prev, que, ent))
  {
    var n', p' := InsertedNext(next, que, ent), InsertedPrev(next, prev, que, ent);
    hide Linked;
    LinkedAt(next, prev, que);
    forall a | a in n' ensures n'[a] in p' && p'[n'[a]] == a {
      if a in next {
        LinkedAt(next, prev, a);
      }
    }
    forall a | a in p' ensures p'[a] in n' && n'[p'[a]] == a {
      if a in next {
        LinkedAt(next, prev, a);
      }
    }
    assert n'.Keys == p'.Keys;
    LinkedIs(n', p');
  }

  lemma LinkedAt(next: map<Addr, Addr>, prev: map<Addr, Addr>, a: Addr)
    requires Linked(next, prev) && a in next
    ensures next.Keys == prev.Keys && next[a] in prev && prev[next[a]] == a && prev[a] in next && next[prev[a]] == a
  {
  }

  lemma LinkedIs(next: map<Addr, Addr>, prev: map<Addr, Addr>)
    requires next.Keys == prev.Keys
    requires forall a :: a in next ==> next[a] in prev && prev[next[a]] == a
    requires forall a :: a in prev ==> prev[a] in next && next[prev[a]] == a
    ensures Linked(next, prev)
  {
  }

  lemma InsertKeepsRoomy(next: map<Addr, Addr>, ends: set<Addr>, que: Addr, ent: Addr)
    requires Roomy(next, ends) && que in next && que != HEAD && que !in ends
    requires que + QUEUESZ + MIN_FRAGMENT <= ent && ent + QUEUESZ + MIN_FRAGMENT <= next[que]
    ensures Roomy(InsertedNext(next, que, ent), ends)
  {
    hide Roomy;
    var n' := InsertedNext(next, que, ent);
    forall a | a in n' && a != HEAD && a !in ends ensures Size(n', a) >= MIN_FRAGMENT {
      if a in next {
        SizeAt(next, ends, a);
      }
    }
    RoomyIs(n', ends);
  }

  lemma RoomyIs(next: map<Addr, Addr>, ends: set<Addr>)
    requires forall a :: a in next && a != HEAD && a !in ends ==> Size(next, a) >= MIN_FRAGMENT
    ensures Roomy(next, ends)
  {
  }

  lemma SizeAt(next: map<Addr, Addr>, ends: set<Addr>, a: Addr)
    requires Roomy(next, ends) && a in next && a != HEAD && a !in ends
    ensures Size(next, a) >= MIN_FRAGMENT
  {
  }

  lemma InsertKeepsApart(next: map<Addr, Addr>, tops: set<Addr>, ends: set<Addr>, que: Addr, ent: Addr)
    requires Tiled(next, tops, ends) && que in next && que != HEAD && que !in ends && que < ent < next[que]
    requires ent !in next
    ensures Apart(InsertedNext(next, que, ent), ends)
  {
    hide Apart, Roomy, Edges;
    EndsIn(next, tops, ends);
    var n' := InsertedNext(next, que, ent);
    forall a, b | a in n' && b in n' && a != HEAD && a < b ensures Bound(n', ends, a) <= b {
      if a in next && b in next {
        Gap(next, ends, a, b);
      } else if a == ent {
        Gap(next, ends, que, b);
      } else if a != que {
        assert b == ent;
        OneSide(next, ends, a, que, ent);
      }
    }
    ApartIs(n', ends);
  }

  /** An area that starts before `ent`, inside the area `que`, ends at `que` or before. */
  lemma OneSide(next: map<Addr, Addr>, ends: set<Addr>, a: Addr, que: Addr, ent: Addr)
    requires Apart(next, ends) && que in next && que != HEAD && que !in ends && que < ent < next[que]
    requires a in next && a != HEAD && a != que && a < ent
    ensures Bound(next, ends, a) <= que
  {
    hide Apart;
    if a < que {
      Gap(next, ends, a, que);
    } else {
      Gap(next, ends, que, a);
    }
  }

  lemma ApartIs(next: map<Addr, Addr>, ends: set<Addr>)
    requires forall a, b :: a in next && b in next && a != HEAD && a < b ==> Bound(next, ends, a) <= b
    ensures Apart(next, ends)
  {
  }

  /** An area other than the ends, and what lies before and after it. */
  lemma Neighbours(next: map<Addr, Addr>, prev: map<Addr, Addr>, tops: set<Addr>, ends: set<Addr>, x: Addr)
    requires Chain(next, prev, tops, ends) && x in next && x != HEAD && x !in ends
    ensures x in prev && prev[x] in next && next[prev[x]] == x && next.Keys == prev.Keys
    ensures next[x] in next && next[x] in prev && prev[next[x]] == x && x + QUEUESZ + MIN_FRAGMENT <= next[x]
    ensures next[x] != HEAD && next[x] !in tops
    ensures x !in tops ==> prev[x] != HEAD && prev[x] !in ends && prev[x] + QUEUESZ + MIN_FRAGMENT <= x
    ensures x in tops ==> prev[x] == HEAD || prev[x] in ends
  {
    hide Apart, Linked, Roomy;
    LinkedAt(next, prev, x);
    SizeAt(next, ends, x);
    var p := prev[x];
    if p != HEAD && p !in ends {
      SizeAt(next, ends, p);
    }
  }

  lemma RemoveKeepsChain(next: map<Addr, Addr>, prev: map<Addr, Addr>, tops: set<Addr>, ends: set<Addr>, x: Addr)
    requires Chain(next, prev, tops, ends) && x in next && x != HEAD && x !in tops && x !in ends
    ensures x in prev && Chain(RemovedNext(next, prev, x), RemovedPrev(next, prev, x), tops, ends)
  {
    hide Linked, Tiled;
    Neighbours(next, prev, tops, ends, x);
    RemoveKeepsTiled(next, prev, tops, ends, x);
    RemoveKeepsLinked(next, prev, x);
  }

  lemma RemoveKeepsLinked(next: map<Addr, Addr>, prev: map<Addr, Addr>, x: Addr)
    requires Linked(next, prev) && x in next
    ensures x in prev && Linked(RemovedNext(next, prev, x), RemovedPrev(next, prev, x))
  {
    hide Linked;
    LinkedAt(next, prev, x);
    var n', p' := RemovedNext(next, prev, x), RemovedPrev(next, prev, x);
    forall a | a in n' ensures n'[a] in p' && p'[n'[a]] == a {
      LinkedAt(next, prev, a);
    }
    forall a | a in p' ensures p'[a] in n' && n'[p'[a]] == a {
      LinkedAt(next, prev, a);
    }
    assert n'.Keys == p'.Keys;
    LinkedIs(n', p');
  }

  lemma RemoveKeepsTiled(next: map<Addr, Addr>, prev: map<Addr, Addr>, tops: set<Addr>, ends: set<Addr>, x: Addr)
    requires Chain(next, prev, tops, ends) && x in next && x != HEAD && x !in tops && x !in ends
    ensures x in prev && next[x] != x && Tiled(RemovedNext(next, prev, x), tops, ends)
  {
    hide Apart, Linked, Roomy, Edges;
    Neighbours(next, prev, tops, ends, x);
    var p, n' := prev[x], RemovedNext(next, prev, x);
    forall a, b | a in n' && b in n' && a != HEAD && a < b ensures Bound(n', ends, a) <= b {
      if a == p {
        Gap(next, ends, p, b);
        Gap(next, ends, x, b);
      } else {
        Gap(next, ends, a, b);
      }
    }
    ApartIs(n', ends);
    RemoveKeepsRoomy(next, prev, ends, x);
    RemoveKeepsEdges(next, prev, tops, ends, x);
  }

  lemma RemoveKeepsRoomy(next: map<Addr, Addr>, prev: map<Addr, Addr>, ends: set<Addr>, x: Addr)
    requires Roomy(next, ends) && x in next && x in prev && prev[x] in next && prev[x] < x < next[x]
    requires next[prev[x]] == x
    ensures Roomy(RemovedNext(next, prev, x), ends)
  {
    hide Roomy;
    var n' := RemovedNext(next, prev, x);
    forall a | a in n' && a != HEAD && a !in ends ensures Size(n', a) >= MIN_FRAGMENT {
      SizeAt(next, ends, a);
    }
    RoomyIs(n', ends);
  }

  lemma RemoveKeepsEdges(next: map<Addr, Addr>, prev: map<Addr, Addr>, tops: set<Addr>, ends: set<Addr>, x: Addr)
    requires Edges(next, tops, ends) && x in next && x !in tops && x !in ends && x != HEAD
    requires x in prev && prev[x] in next && next[prev[x]] == x && prev[x] != HEAD && prev[x] !in ends
    ensures Edges(RemovedNext(next, prev, x), tops, ends)
  {
  }

  /* ---- Pages come and go. ---- */

  /** No area lies in or reaches into the page from `t` to the end of the header at `e`. */
  ghost predicate FreshPage(next: map<Addr, Addr>, ends: set<Addr>, t: Addr, e: Addr) {
    && HEAD < t && t + QUEUESZ + MIN_FRAGMENT <= e
    && forall a :: a in next && a != HEAD ==> (a < t && Bound(next, ends, a) <= t) || a >= e + QUEUESZ
  }

  lemma FreshAt(next: map<Addr, Addr>, ends: set<Addr>, t: Addr, e: Addr, a: Addr)
    requires FreshPage(next, ends, t, e) && a in next && a != HEAD
    ensures a != t && a != e && ((a < t && Bound(next, ends, a) <= t) || a >= e + QUEUESZ)
  {
  }

  /** `newPage`: the end and then the top are put behind the head. */
  function PagedNext(next: map<Addr, Addr>, t: Addr, e: Addr): map<Addr, Addr>
    requires HEAD in next
  {
    InsertedNext(InsertedNext(next, HEAD, e), HEAD, t)
  }

  function PagedPrev(next: map<Addr, Addr>, prev: map<Addr, Addr>, t: Addr, e: Addr): map<Addr, Addr>
    requires HEAD in next
  {
    InsertedPrev(InsertedNext(next, HEAD, e), InsertedPrev(next, prev, HEAD, e), HEAD, t)
  }

  lemma PageKeepsChain(next: map<Addr, Addr>, prev: map<Addr, Addr>, tops: set<Addr>, ends: set<Addr>, t: Addr, e: Addr)
    requires Chain(next, prev, tops, ends) && FreshPage(next, ends, t, e)
    ensures HEAD in next && t !in next && e !in next
    ensures Chain(PagedNext(next, t, e), PagedPrev(next, prev, t, e), tops + {t}, ends + {e})
  {
    hide Linked, Apart, Roomy, FreshPage, Edges, PagedNext;
    FreshPageFacts(next, ends, t, e);
    HeadIn(next, tops, ends);
    InsertKeepsLinked(next, prev, HEAD, e);
    InsertKeepsLinked(InsertedNext(next, HEAD, e), InsertedPrev(next, prev, HEAD, e), HEAD, t);
    assert PagedNext(next, t, e) == InsertedNext(InsertedNext(next, HEAD, e), HEAD, t) by {
      PagedIs(next, t, e);
    }
    PageKeepsRoomy(next, ends, t, e);
    EndsIn(next, tops, ends);
    PageKeepsApart(next, ends, t, e);
    forall a | a in next ensures next[a] != t {
      LinkedAt(next, prev, a);
    }
    PageKeepsEdges(next, tops, ends, t, e);
  }

  lemma EndsIn(next: map<Addr, Addr>, tops: set<Addr>, ends: set<Addr>)
    requires Edges(next, tops, ends)
    ensures ends <= next.Keys
  {
  }

  lemma HeadIn(next: map<Addr, Addr>, tops: set<Addr>, ends: set<Addr>)
    requires Edges(next, tops, ends)
    ensures HEAD in next
  {
  }

  lemma PagedIs(next: map<Addr, Addr>, t: Addr, e: Addr)
    requires HEAD in next && HEAD < t < e
    ensures var n' := PagedNext(next, t, e);
            && n' == InsertedNext(InsertedNext(next, HEAD, e), HEAD, t) && n'.Keys == next.Keys + {t, e}
            && forall a :: a in n' ==> n'[a] == if a == HEAD then t else if a == t then e
               else if a == e then next[HEAD] else next[a]
  {
  }

  lemma PageKeepsRoomy(next: map<Addr, Addr>, ends: set<Addr>, t: Addr, e: Addr)
    requires Roomy(next, ends) && HEAD in next && HEAD < t && t + QUEUESZ + MIN_FRAGMENT <= e
    ensures Roomy(PagedNext(next, t, e), ends + {e})
  {
    hide Roomy, PagedNext;
    PagedIs(next, t, e);
    var n' := PagedNext(next, t, e);
    forall a | a in n' && a != HEAD && a !in ends + {e} ensures Size(n', a) >= MIN_FRAGMENT {
      if a != t {
        SizeAt(next, ends, a);
      }
    }
    RoomyIs(n', ends + {e});
  }

  lemma PageKeepsApart(next: map<Addr, Addr>, ends: set<Addr>, t: Addr, e: Addr)
    requires Apart(next, ends) && FreshPage(next, ends, t, e) && HEAD in next && ends <= next.Keys
    ensures Apart(PagedNext(next, t, e), ends + {e})
  {
    hide Apart, PagedNext, FreshPage;
    FreshPageFacts(next, ends, t, e);
    PagedIs(next, t, e);
    var n' := PagedNext(next, t, e);
    forall a, b | a in n' && b in n' && a != HEAD && a < b ensures Bound(n', ends + {e}, a) <= b {
      PagedGap(next, ends, t, e, a, b);
    }
    ApartIs(n', ends + {e});
  }

  lemma FreshPageFacts(next: map<Addr, Addr>, ends: set<Addr>, t: Addr, e: Addr)
    requires FreshPage(next, ends, t, e)
    ensures HEAD < t < e && t + QUEUESZ + MIN_FRAGMENT <= e && t !in next && e !in next
  {
  }

  lemma PagedGap(next: map<Addr, Addr>, ends: set<Addr>, t: Addr, e: Addr, a: Addr, b: Addr)
    requires Apart(next, ends) && FreshPage(next, ends, t, e) && HEAD in next && t !in next && e !in next
    requires (a in next || a == t || a == e) && (b in next || b == t || b == e) && a != HEAD && a < b && t !in ends
    ensures a in PagedNext(next, t, e) && Bound(PagedNext(next, t, e), ends + {e}, a) <= b
  {
    hide Apart, FreshPage, PagedNext;
    FreshPageFacts(next, ends, t, e);
    PagedIs(next, t, e);
    if a == t || a == e {
      if b in next {
        FreshAt(next, ends, t, e, b);
      }
    } else {
      FreshAt(next, ends, t, e, a);
      if b in next {
        Gap(next, ends, a, b);
      }
    }
  }

  lemma PageKeepsEdges(next: map<Addr, Addr>, tops: set<Addr>, ends: set<Addr>, t: Addr, e: Addr)
    requires Edges(next, tops, ends) && t !in next && e !in next && HEAD < t < e
    requires forall a :: a in next ==> next[a] != t
    ensures Edges(PagedNext(next, t, e), tops + {t}, ends + {e})
  {
    hide PagedNext;
    PagedIs(next, t, e);
  }

  /** A page that is one free area goes back: its end and its top leave the chain. */
  function UnpagedNext(next: map<Addr, Addr>, prev: map<Addr, Addr>, t: Addr): map<Addr, Addr>
    requires CanUnpage(next, prev, t)
  {
    RemovedNext(RemovedNext(next, prev, next[t]), RemovedPrev(next, prev, next[t]), t)
  }

  function UnpagedPrev(next: map<Addr, Addr>, prev: map<Addr, Addr>, t: Addr): map<Addr, Addr>
    requires CanUnpage(next, prev, t)
  {
    RemovedPrev(RemovedNext(next, prev, next[t]), RemovedPrev(next, prev, next[t]), t)
  }

  ghost predicate CanUnpage(next: map<Addr, Addr>, prev: map<Addr, Addr>, t: Addr) {
    && t in next && next[t] in next && next[t] in prev
    && t in RemovedNext(next, prev, next[t]) && t in RemovedPrev(next, prev, next[t])
  }

  lemma UnpageKeepsChain(next: map<Addr, Addr>, prev: map<Addr, Addr>, tops: set<Addr>, ends: set<Addr>, t: Addr)
    requires Chain(next, prev, tops, ends) && t in tops && t in next && next[t] in ends
    ensures CanUnpage(next, prev, t)
    ensures Chain(UnpagedNext(next, prev, t), UnpagedPrev(next, prev, t), tops - {t}, ends - {next[t]})
  {
    hide Linked, Apart, Roomy;
    var e := next[t];
    LinkedAt(next, prev, t);
    LinkedAt(next, prev, e);
    RemoveKeepsLinked(next, prev, e);
    RemoveKeepsLinked(RemovedNext(next, prev, e), RemovedPrev(next, prev, e), t);
    var n' := UnpagedNext(next, prev, t);
    UnpagedIs(next, prev, t);
    forall a | a in n' && a != HEAD && a !in ends - {e} ensures Size(n', a) >= MIN_FRAGMENT && n'[a] == next[a] {
      NotBefore(next, prev, tops, ends, t, a);
      SizeAt(next, ends, a);
    }
    RoomyIs(n', ends - {e});
    forall a, b | a in n' && b in n' && a != HEAD && a < b ensures Bound(n', ends - {e}, a) <= b {
      if a !in ends {
        NotBefore(next, prev, tops, ends, t, a);
      }
      Gap(next, ends, a, b);
    }
    ApartIs(n', ends - {e});
    UnpageKeepsEdges(next, prev, tops, ends, t);
  }

  /** The map without a page. */
  lemma UnpagedIs(next: map<Addr, Addr>, prev: map<Addr, Addr>, t: Addr)
    requires Linked(next, prev) && CanUnpage(next, prev, t) && prev[next[t]] == t && next[t] != t
    ensures var n', e := UnpagedNext(next, prev, t), next[t];
            && n'.Keys == next.Keys - {t, e} && t in prev && e in next
            && forall a :: a in n' ==> n'[a] == if a == prev[t] then next[e] else next[a]
  {
    hide Linked;
    LinkedAt(next, prev, t);
    LinkedAt(next, prev, next[t]);
  }

  /** No area inside a page lies directly before the top of one. */
  lemma NotBefore(next: map<Addr, Addr>, prev: map<Addr, Addr>, tops: set<Addr>, ends: set<Addr>, t: Addr, a: Addr)
    requires Chain(next, prev, tops, ends) && t in tops && t in next && a in next && a != HEAD && a !in ends
    ensures t in prev && prev[t] != a
  {
    hide Roomy, Apart, Linked;
    LinkedAt(next, prev, t);
  }

  lemma UnpageKeepsEdges(next: map<Addr, Addr>, prev: map<Addr, Addr>, tops: set<Addr>, ends: set<Addr>, t: Addr)
    requires Chain(next, prev, tops, ends) && t in tops && t in next && next[t] in ends && CanUnpage(next, prev, t)
    ensures Edges(UnpagedNext(next, prev, t), tops - {t}, ends - {next[t]})
  {
    hide Roomy, Apart, Linked;
    var e, n' := next[t], UnpagedNext(next, prev, t);
    LinkedAt(next, prev, t);
    LinkedAt(next, prev, e);
    UnpagedIs(next, prev, t);
    forall a | a in n' && (a == HEAD || a in ends - {e}) ensures n'[a] == HEAD || n'[a] in tops - {t} {
      LinkedAt(next, prev, a);
    }
  }

  /* ---- Free areas: a chain of rings, each of areas of one size. ---- */

  /** `FreeSize` of the areas in ring `i`. */
  function RingSize(next: map<Addr, Addr>, free: seq<seq<Addr>>, i: nat): int
    requires i < |free| && free[i] != [] && free[i][0] in next
  {
    Size(next, free[i][0])
  }

  ghost predicate Rings(next: map<Addr, Addr>, free: seq<seq<Addr>>) {
    forall i :: 0 <= i < |free| ==>
      && free[i] != [] && NoRepeats(free[i])
      && forall a :: a in free[i] ==> a in next && free[i][0] in next && Size(next, a) == RingSize(next, free, i)
  }

  ghost predicate Ascending(next: map<Addr, Addr>, free: seq<seq<Addr>>)
    requires Rings(next, free)
  {
    forall i, k :: 0 <= i < k < |free| ==> RingSize(next, free, i) < RingSize(next, free, k)
  }

  /** The rings have exactly the areas `frees`. */
  ghost predicate Exactly(free: seq<seq<Addr>>, frees: set<Addr>) {
    && (forall i, a :: 0 <= i < |free| && a in free[i] ==> a in frees)
    && (forall a :: a in frees ==> exists i :: 0 <= i < |free| && a in free[i])
  }

  ghost predicate FreeQueue(next: map<Addr, Addr>, free: seq<seq<Addr>>, frees: set<Addr>) {
    Rings(next, free) && Ascending(next, free) && Exactly(free, frees)
  }

  /** `q` is the first ring with areas of size `blksz` or more, or the end. */
  ghost predicate Closest(next: map<Addr, Addr>, free: seq<seq<Addr>>, blksz: int, q: nat)
    requires Rings(next, free)
  {
    && q <= |free| && (forall i :: 0 <= i < q ==> RingSize(next, free, i) < blksz)
    && (q < |free| ==> blksz <= RingSize(next, free, q))
  }

  /** There is only one such place, so it does not matter from which end one looks. */
  lemma ClosestIsUnique(next: map<Addr, Addr>, free: seq<seq<Addr>>, blksz: int, q: nat, q': nat)
    requires Rings(next, free) && Closest(next, free, blksz, q) && Closest(next, free, blksz, q')
    ensures q == q'
  {
  }

  /** It is the smallest free area that is large enough. */
  lemma ClosestIsSmallest(next: map<Addr, Addr>, free: seq<seq<Addr>>, frees: set<Addr>, blksz: int, q: nat)
    requires FreeQueue(next, free, frees) && Closest(next, free, blksz, q)
    ensures forall a :: a in frees ==> a in next && (Size(next, a) >= blksz ==>
              q < |free| && RingSize(next, free, q) <= Size(next, a))
  {
    forall a | a in frees
      ensures a in next && (Size(next, a) >= blksz ==> q < |free| && RingSize(next, free, q) <= Size(next, a))
    {
      var i :| 0 <= i < |free| && a in free[i];
      assert Size(next, a) == RingSize(next, free, i);
    }
  }

  function Without(r: seq<Addr>, a: Addr): seq<Addr> {
    if r == [] then [] else if r[0] == a then r[1..] else [r[0]] + Without(r[1..], a)
  }

  lemma {:induction false} WithoutHas(r: seq<Addr>, a: Addr)
    requires NoRepeats(r) && a in r
    ensures NoRepeats(Without(r, a)) && forall b :: b in Without(r, a) <==> b in r && b != a
    ensures r[0] != a ==> Without(r, a) != [] && Without(r, a)[0] == r[0]
  {
    assert r == [r[0]] + r[1..];
    if r[0] == a {
      assert a !in r[1..];
    } else {
      WithoutHas(r[1..], a);
      assert r[0] !in r[1..];
    }
  }

  /** The free queue after `a` has left ring `i`: if `a` was the first of its ring, the next
      one takes its place in the chain. */
  function Taken(free: seq<seq<Addr>>, i: nat, a: Addr): seq<seq<Addr>>
    requires i < |free|
  {
    var r := Without(free[i], a);
    if r == [] then free[..i] + free[i + 1..] else free[i := r]
  }

  /** The free queue with `a` of size `size` put in at place `q`. */
  function Put(next: map<Addr, Addr>, free: seq<seq<Addr>>, q: nat, a: Addr): seq<seq<Addr>>
    requires q <= |free| && a in next && (q < |free| ==> free[q] != [] && free[q][0] in next)
  {
    if q < |free| && RingSize(next, free, q) == Size(next, a) then free[q := free[q] + [a]]
    else free[..q] + [[a]] + free[q..]
  }

  lemma TakenKeepsRings(next: map<Addr, Addr>, free: seq<seq<Addr>>, i: nat, a: Addr)
    requires Rings(next, free) && Ascending(next, free) && i < |free| && a in free[i]
    ensures Rings(next, Taken(free, i, a)) && Ascending(next, Taken(free, i, a))
  {
    WithoutHas(free[i], a);
    var r, f := Without(free[i], a), Taken(free, i, a);
    hide NoRepeats, Without;
    if r == [] {
      assert forall k :: 0 <= k < |f| ==> f[k] == free[if k < i then k else k + 1];
    } else {
      assert r[0] in r;
      assert forall k :: 0 <= k < |f| && k != i ==> f[k] == free[k];
      assert forall k :: 0 <= k < |f| ==> RingSize(next, f, k) == RingSize(next, free, k);
    }
  }

  lemma TakenIsExact(next: map<Addr, Addr>, free: seq<seq<Addr>>, frees: set<Addr>, i: nat, a: Addr)
    requires FreeQueue(next, free, frees) && i < |free| && a in free[i]
    ensures Exactly(Taken(free, i, a), frees - {a})
  {
    WithoutHas(free[i], a);
    var r, f := Without(free[i], a), Taken(free, i, a);
    forall k | 0 <= k < |free| && k != i ensures a !in free[k] {
      assert RingSize(next, free, k) != RingSize(next, free, i);
    }
    hide NoRepeats, Without, Rings, Ascending;
    if r == [] {
      assert forall k :: 0 <= k < |f| ==> f[k] == free[if k < i then k else k + 1];
      forall b | b in frees - {a} ensures exists k :: 0 <= k < |f| && b in f[k] {
        var k :| 0 <= k < |free| && b in free[k];
        assert k != i;
        assert f[if k < i then k else k - 1] == free[k];
      }
    } else {
      forall b | b in frees - {a} ensures exists k :: 0 <= k < |f| && b in f[k] {
        var k :| 0 <= k < |free| && b in free[k];
        assert b in f[k];
      }
    }
  }

  lemma PutKeepsRings(next: map<Addr, Addr>, free: seq<seq<Addr>>, q: nat, a: Addr)
    requires Rings(next, free) && Ascending(next, free) && a in next && Closest(next, free, Size(next, a), q)
    requires forall i :: 0 <= i < |free| ==> a !in free[i]
    ensures Rings(next, Put(next, free, q, a)) && Ascending(next, Put(next, free, q, a))
  {
    hide Size;
    var f := Put(next, free, q, a);
    if q < |free| && RingSize(next, free, q) == Size(next, a) {
      assert forall k :: 0 <= k < |f| && k != q ==> f[k] == free[k];
      assert Rings(next, f);
      assert forall k :: 0 <= k < |f| ==> RingSize(next, f, k) == RingSize(next, free, k);
    } else {
      assert forall k :: 0 <= k < |f| && k != q ==> f[k] == free[if k < q then k else k - 1];
      assert Rings(next, f);
    }
  }

  lemma PutIsExact(next: map<Addr, Addr>, free: seq<seq<Addr>>, frees: set<Addr>, q: nat, a: Addr)
    requires Rings(next, free) && Exactly(free, frees) && a in next && q <= |free|
    ensures Exactly(Put(next, free, q, a), frees + {a})
  {
    var f := Put(next, free, q, a);
    if q < |free| && RingSize(next, free, q) == Size(next, a) {
      assert a in f[q];
      forall b | b in frees ensures exists k :: 0 <= k < |f| && b in f[k] {
        var k :| 0 <= k < |free| && b in free[k];
        assert b in f[k];
      }
    } else {
      assert f[q] == [a];
      assert forall k :: 0 <= k < |f| && k != q ==> f[k] == free[if k < q then k else k - 1];
      forall b | b in frees ensures exists k :: 0 <= k < |f| && b in f[k] {
        var k :| 0 <= k < |free| && b in free[k];
        assert f[if k < q then k else k + 1] == free[k];
      }
    }
  }

  /** Areas elsewhere may change. */
  lemma SameFreeQueue(next: map<Addr, Addr>, next': map<Addr, Addr>, free: seq<seq<Addr>>, frees: set<Addr>)
    requires FreeQueue(next, free, frees)
    requires forall a :: a in frees && a in next ==> a in next' && next'[a] == next[a]
    ensures FreeQueue(next', free, frees)
  {
    forall i, a | 0 <= i < |free| && a in free[i] ensures a in next' && next'[a] == next[a] {
    }
    assert forall i :: 0 <= i < |free| ==> free[i][0] in free[i];
    assert Rings(next', free);
    assert forall i :: 0 <= i < |free| ==> RingSize(next', free, i) == RingSize(next, free, i);
  }

  lemma {:induction false} WithoutSlice(r: seq<Addr>, j: nat)
    requires NoRepeats(r) && j < |r|
    ensures Without(r, r[j]) == r[..j] + r[j + 1..]
  {
    if j > 0 {
      WithoutSlice(r[1..], j - 1);
      assert r[0] != r[j];
      assert [r[0]] + (r[1..][..j - 1] + r[1..][j..]) == r[..j] + r[j + 1..];
    }
  }

  /** The places of an area in the free queue. */
  lemma Taken1(free: seq<seq<Addr>>, i: nat, j: nat)
    requires i < |free| && NoRepeats(free[i]) && j < |free[i]|
    ensures Taken(free, i, free[i][j]) ==
              if |free[i]| == 1 then free[..i] + free[i + 1..] else free[i := free[i][..j] + free[i][j + 1..]]
  {
    WithoutSlice(free[i], j);
  }

  lemma FirstOfRing(next: map<Addr, Addr>, free: seq<seq<Addr>>, frees: set<Addr>, q: nat, blksz: nat)
    requires FreeQueue(next, free, frees) && Closest(next, free, blksz, q)
    ensures q < |free| ==> free[q] != [] && free[q][0] in frees && free[q][0] in next && Size(next, free[q][0]) >= blksz
    ensures q < |free| ==> RingSize(next, free, q) == Size(next, free[q][0])
    ensures q <= |free|
  {
    assert q < |free| ==> free[q][0] in free[q];
  }

  lemma RingFacts(next: map<Addr, Addr>, free: seq<seq<Addr>>, i: nat)
    requires Rings(next, free)
    ensures i < |free| ==> free[i] != [] && free[i][0] in next && RingSize(next, free, i) == Size(next, free[i][0])
  {
    assert i < |free| ==> free[i][0] in free[i];
  }

  lemma Place(next: map<Addr, Addr>, free: seq<seq<Addr>>, frees: set<Addr>, a: Addr) returns (i: nat, j: nat)
    requires FreeQueue(next, free, frees) && a in frees
    ensures i < |free| && j < |free[i]| && free[i][j] == a && NoRepeats(free[i])
  {
    i :| 0 <= i < |free| && a in free[i];
    j :| 0 <= j < |free[i]| && free[i][j] == a;
  }
}
