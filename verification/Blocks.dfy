/** The blocks of the library's allocator, and what calls do to them. */
module Blocks {
  import opened Tasks
  import opened Sequences
  import opened Areas
  import opened Memories
  import opened Heaps
  import opened Pages

  /** A heap with its pages. */
  datatype Paged = Paged(h: Heap, tops: set<Addr>, ends: set<Addr>)

  /** Area `a` is a block that has been handed out. */
  ghost predicate Live(p: Paged, a: int) {
    a > 0 && a in p.h.used && a in p.h.next && a !in p.ends
  }

  /** No page is one free area. */
  ghost predicate NoEmptyPage(p: Paged) {
    forall t :: t in p.tops && t in p.h.next && t !in p.h.used ==> p.h.next[t] !in p.ends
  }

  ghost predicate Good(p: Paged) {
    Sound(p.h, p.tops, p.ends) && NoEmptyPage(p)
  }

  /** The same blocks as before, but for `a`. */
  ghost predicate OthersStay(p: Paged, p': Paged, a: int) {
    forall b: int :: b != a ==> (Live(p, b) <==> Live(p', b)) && (Live(p, b) ==> p'.h.next[b] == p.h.next[b])
  }

  /** `size` is `n`, but for a rest that is too small for an area. */
  ghost predicate Fits(size: int, n: nat) {
    n <= size < n + MIN_FRAGMENT + QUEUESZ
  }

  /** Block `a` is new, of `n` bytes. */
  ghost predicate Gained(p: Paged, p': Paged, a: int, n: nat) {
    !Live(p, a) && Live(p', a) && Fits(Size(p'.h.next, a), n) && OthersStay(p, p', a)
  }

  /** Block `a` has gone. */
  ghost predicate Lost(p: Paged, p': Paged, a: int) {
    Live(p, a) && !Live(p', a) && OthersStay(p, p', a)
  }

  /** Block `a` is of `n` bytes now. */
  ghost predicate Resized(p: Paged, p': Paged, a: int, n: nat) {
    Live(p, a) && Live(p', a) && Fits(Size(p'.h.next, a), n) && OthersStay(p, p', a)
  }

  /** Chain, flags and pages are the same. */
  ghost predicate SameHeap(p: Paged, p': Paged) {
    SameAreas(p.h, p'.h) && p'.tops == p.tops && p'.ends == p.ends
  }

  lemma LiveFacts(p: Paged, a: int)
    requires Sound(p.h, p.tops, p.ends) && Live(p, a)
    ensures a in p.h.prev && p.h.next[a] in p.h.next && p.h.next[a] in p.h.prev && a < p.h.next[a]
    ensures a != HEAD && Size(p.h.next, a) >= MIN_FRAGMENT
  {
    hide Chain, FreeQueue;
    ChainFacts(p.h.next, p.h.prev, p.tops, p.ends, a);
  }

  /** Different blocks have no byte in common. */
  lemma BlocksApart(p: Paged, a: int, b: int)
    requires Sound(p.h, p.tops, p.ends) && Live(p, a) && Live(p, b) && a < b
    ensures p.h.next[a] <= b
  {
    hide Bounded, NoFreeNeighbours, FreeQueue, Linked, Roomy, Apart, Edges;
    Gap(p.h.next, p.ends, a, b);
  }

  /* ---- Cutting. ---- */

  /** An area that counts as used is cut: only it changes. */
  lemma TrimmedStay(p: Paged, p': Paged, a: Addr, size: nat)
    requires Sound(p.h, p.tops, p.ends) && a in p.h.used && a in p.h.next && a != HEAD && a !in p.ends
    requires size >= MIN_FRAGMENT && Size(p.h.next, a) >= size
    requires SameAreas(Trimmed(p.h, a, size), p'.h) && p'.tops == p.tops && p'.ends == p.ends
    ensures Live(p', a) && Fits(Size(p'.h.next, a), size) && OthersStay(p, p', a)
  {
    hide Chain, FreeQueue, NoFreeNeighbours;
    if Size(p.h.next, a) - size >= MIN_FRAGMENT + QUEUESZ {
      EmptyBetween(p.h, p.tops, p.ends, a, Rest(a, size));
    }
  }

  lemma TrimmedBlocks(p: Paged, p': Paged, a: Addr, size: nat)
    requires Good(p) && a in p.h.used && a in p.h.next && a != HEAD && a !in p.ends
    requires size >= MIN_FRAGMENT && Size(p.h.next, a) >= size
    requires SameAreas(Trimmed(p.h, a, size), p'.h) && p'.tops == p.tops && p'.ends == p.ends
    ensures NoEmptyPage(p') && Live(p', a) && Fits(Size(p'.h.next, a), size) && OthersStay(p, p', a)
  {
    hide Chain, FreeQueue, NoFreeNeighbours, OthersStay, Fits;
    TrimmedStay(p, p', a, size);
    if Size(p.h.next, a) - size >= MIN_FRAGMENT + QUEUESZ {
      EmptyBetween(p.h, p.tops, p.ends, a, Rest(a, size));
    }
    TopsIn(p);
  }

  lemma TopsIn(p: Paged)
    requires Sound(p.h, p.tops, p.ends)
    ensures p.tops <= p.h.next.Keys && p.tops !! p.ends && HEAD !in p.tops && HEAD !in p.ends
  {
    hide Bounded, NoFreeNeighbours, FreeQueue, Linked, Roomy, Apart;
  }

  /** Counting a free area as used. */
  lemma CountedAsUsed(p: Paged, p': Paged, a: Addr)
    requires Good(p) && a in p.h.next && a !in p.h.used && a > 0 && p'.h.next == p.h.next && p'.h.used == p.h.used + {a}
    requires p'.tops == p.tops && p'.ends == p.ends && Sound(p'.h, p'.tops, p'.ends)
    ensures Good(p') && OthersStay(p, p', a) && !Live(p, a)
  {
    hide Sound;
  }

  lemma StayTwice(p: Paged, p1: Paged, p2: Paged, a: int)
    requires OthersStay(p, p1, a) && OthersStay(p1, p2, a)
    ensures OthersStay(p, p2, a)
  {
  }

  /* ---- Pages. ---- */

  /** A new page whose first area counts as used. */
  lemma PagedBlocks(p: Paged, p': Paged, t: Addr, e: Addr)
    requires Good(p) && FreshPage(p.h.next, p.ends, t, e) && HEAD in p.h.next
    requires p'.h.next == PagedNext(p.h.next, t, e) && p'.h.used == p.h.used + {e} + {t}
    requires p'.tops == p.tops + {t} && p'.ends == p.ends + {e}
    ensures NoEmptyPage(p') && OthersStay(p, p', t) && !Live(p, t)
  {
    hide Chain, FreeQueue, PagedNext, FreshPage, NoFreeNeighbours;
    FreshPageFacts(p.h.next, p.ends, t, e);
    PagedIs(p.h.next, t, e);
    TopsIn(p);
    forall x | x in p'.tops && x in p'.h.next && x !in p'.h.used ensures p'.h.next[x] !in p'.ends {
      NextOnce(p.h.next, p.h.prev, p.tops, p.ends, x);
      KeysSame(p);
    }
  }

  lemma KeysSame(p: Paged)
    requires Sound(p.h, p.tops, p.ends)
    ensures p.h.next.Keys == p.h.prev.Keys
  {
    hide Bounded, NoFreeNeighbours, FreeQueue, Tiled;
  }

  /** Joining after a block has been given back. */
  lemma JoinedStay(p: Paged, p': Paged, a: int)
    requires Sound(p.h, p.tops, p.ends) && Live(p, a) && HasFreed(p.h, p'.h, a) && p'.tops == p.tops
    requires p'.ends == p.ends
    ensures Lost(p, p', a)
  {
    hide Chain, FreeQueue, NoFreeNeighbours, Freed, CanFree;
    LiveFacts(p, a);
    FreedUsed(p.h, a);
    forall c: int | c != a ensures (Live(p, c) <==> Live(p', c)) && (Live(p, c) ==> p'.h.next[c] == p.h.next[c]) {
      if Live(p, c) {
        OtherPrev(p.h, p.tops, p.ends, a, c);
      }
    }
  }

  lemma JoinedBlocks(p: Paged, p': Paged, a: int, b: Addr)
    requires Good(p) && Live(p, a) && HasFreed(p.h, p'.h, a) && p'.tops == p.tops && p'.ends == p.ends
    requires a in p.h.prev && b == JoinedAt(p.h, a)
    ensures Lost(p, p', a)
    ensures NoEmptyPageBut(p', b)
  {
    hide Sound, Freed, CanFree, Lost;
    JoinedStay(p, p', a);
    forall t | t in p'.tops && t in p'.h.next && t !in p'.h.used && t != b ensures p'.h.next[t] !in p'.ends {
      FreedOthers(p, p', a, b, t);
    }
  }

  lemma FreedUsed(h: Heap, a: Addr)
    requires CanFree(h, a)
    ensures Freed(h, a).used == h.used - {a}
  {
  }

  /** Free tops other than the joined area have the neighbours they had. */
  lemma FreedOthers(p: Paged, p': Paged, a: int, b: Addr, t: Addr)
    requires Good(p) && Live(p, a) && HasFreed(p.h, p'.h, a) && p'.tops == p.tops && p'.ends == p.ends
    requires a in p.h.prev && b == JoinedAt(p.h, a) && t in p'.tops && t in p'.h.next && t !in p'.h.used && t != b
    ensures p'.h.next[t] !in p'.ends
  {
    hide Chain, FreeQueue, NoFreeNeighbours;
    ChainFacts(p.h.next, p.h.prev, p.tops, p.ends, a);
  }

  /** The joined area is put into the free queue, unless it is a whole page. */
  lemma QueuedBlocks(p: Paged, p': Paged, b: Addr)
    requires SameHeap(p, p') && b in p.h.next && !(b in p.tops && p.h.next[b] in p.ends)
    requires NoEmptyPageBut(p, b)
    ensures NoEmptyPage(p') && OthersStay(p, p', -1)
  {
  }

  /** The page of `t` has been taken out of the chain. */
  ghost predicate Unpaged(p: Paged, p': Paged, t: Addr) {
    && CanUnpage(p.h.next, p.h.prev, t) && p'.h.next == UnpagedNext(p.h.next, p.h.prev, t)
    && p'.h.used == p.h.used - {p.h.next[t]} && p'.tops == p.tops - {t} && p'.ends == p.ends - {p.h.next[t]}
  }

  /** No free top but `but` has the end of its page behind it. */
  ghost predicate NoEmptyPageBut(p: Paged, but: Addr) {
    forall t :: t in p.tops && t in p.h.next && t !in p.h.used && t != but ==> p.h.next[t] !in p.ends
  }

  /** A page that is one free area has gone. */
  lemma UnpagedBlocks(p: Paged, p': Paged, t: Addr)
    requires Loose(p.h, p.tops, p.ends, t) && t in p.tops && p.h.next[t] in p.ends
    requires Unpaged(p, p', t) && NoEmptyPageBut(p, t)
    ensures NoEmptyPage(p') && OthersStay(p, p', -1)
  {
    hide Chain, FreeQueue, NoFreeNeighbours, UnpagedNext;
    UnpagedFacts(p.h.next, p.h.prev, p.tops, p.ends, t);
    forall x | x in p'.tops && x in p'.h.next && x !in p'.h.used ensures p'.h.next[x] !in p'.ends {
      assert x in p.h.next && x != HEAD && x !in p.ends;
    }
  }

  lemma LostForGood(p: Paged, p1: Paged, p2: Paged, a: int)
    requires Lost(p, p1, a) && OthersStay(p1, p2, -1)
    ensures Lost(p, p2, a)
  {
    assert Live(p1, a) <==> Live(p2, a);
    forall b: int | b != a ensures (Live(p, b) <==> Live(p2, b)) && (Live(p, b) ==> p2.h.next[b] == p.h.next[b]) {
      assert Live(p1, b) <==> Live(p, b);
      if Live(p, b) {
        LivePositive(p, b);
      }
    }
  }

  lemma LivePositive(p: Paged, b: int)
    ensures Live(p, b) ==> b > 0
  {
  }

  /** A block has taken in the free area behind it. */
  lemma GrownBlocks(p: Paged, p': Paged, a: int)
    requires Good(p) && Live(p, a) && p.h.next[a] in p.h.next && p.h.next[a] in p.h.prev
    requires SameAreas(JoinedNext(p.h, a), p'.h) && p'.tops == p.tops && p'.ends == p.ends
    ensures NoEmptyPage(p') && Live(p', a) && Size(p'.h.next, a) >= Size(p.h.next, a) && OthersStay(p, p', a)
  {
    hide Chain, FreeQueue, NoFreeNeighbours;
    ChainFacts(p.h.next, p.h.prev, p.tops, p.ends, a);
  }

  /** A page that is clear of all areas is so after two have been joined. */
  lemma StillFresh(p: Paged, a: int, t: Addr, e: Addr)
    requires Good(p) && Live(p, a) && p.h.next[a] in p.h.next && p.h.next[a] in p.h.prev
    requires FreshPage(p.h.next, p.ends, t, e)
    ensures FreshPage(JoinedNext(p.h, a).next, p.ends, t, e)
  {
    hide Chain, FreeQueue, NoFreeNeighbours;
    ChainFacts(p.h.next, p.h.prev, p.tops, p.ends, a);
    var x := p.h.next[a];
    if x !in p.h.used {
      FreshAt(p.h.next, p.ends, t, e, a);
      FreshAt(p.h.next, p.ends, t, e, x);
    }
  }

  /* ---- Allocation. ---- */

  /** `p` with `a` counted as used. */
  function Marked(p: Paged, a: Addr): Paged {
    p.(h := p.h.(used := p.h.used + {a}))
  }

  /** Since `p`, area `a` has been set aside for a block of `size` bytes. */
  ghost predicate SetAside(p: Paged, p1: Paged, a: Addr, size: nat) {
    && a > 0 && a in p1.h.next && a !in p1.ends && Size(p1.h.next, a) >= size
    && !Live(p, a) && OthersStay(p, Marked(p1, a), a) && Good(Marked(p1, a))
  }

  lemma FoundBlock(p: Paged, p1: Paged, a: Addr, size: nat)
    requires Good(p) && SameHeap(p, p1) && FreeFor(p1.h, a, size) && Sound(Marked(p1, a).h, p1.tops, p1.ends)
    ensures SetAside(p, p1, a, size)
  {
    hide Chain, FreeQueue, NoFreeNeighbours;
    CountedAsUsed(p, Marked(p1, a), a);
  }

  lemma PagedBlock(p: Paged, p1: Paged, t: Addr, e: Addr, size: nat)
    requires Good(p) && FreshPage(p.h.next, p.ends, t, e) && HEAD in p.h.next && e - (t + QUEUESZ) >= size
    requires p1.h.next == PagedNext(p.h.next, t, e) && p1.h.used == p.h.used + {e}
    requires p1.tops == p.tops + {t} && p1.ends == p.ends + {e} && Sound(Marked(p1, t).h, p1.tops, p1.ends)
    ensures SetAside(p, p1, t, size)
  {
    hide Sound, PagedNext, FreshPage, OthersStay, NoEmptyPage;
    FreshPageFacts(p.h.next, p.ends, t, e);
    PagedIs(p.h.next, t, e);
    PagedBlocks(p, Marked(p1, t), t, e);
    NotAnEnd(p, t, e);
  }

  lemma NotAnEnd(p: Paged, t: Addr, e: Addr)
    requires Good(p) && FreshPage(p.h.next, p.ends, t, e)
    ensures t !in p.ends && t != e
  {
    hide Chain, FreeQueue, NoFreeNeighbours, FreshPage;
    FreshPageFacts(p.h.next, p.ends, t, e);
  }

  lemma AllocatedBlock(p: Paged, p1: Paged, p2: Paged, a: Addr, size: nat)
    requires SetAside(p, p1, a, size) && size >= MIN_FRAGMENT
    requires SameAreas(Trimmed(Marked(p1, a).h, a, size), p2.h) && p2.tops == p1.tops && p2.ends == p1.ends
    ensures NoEmptyPage(p2) && Gained(p, p2, a, size)
  {
    hide Sound, Trimmed;
    TrimmedBlocks(Marked(p1, a), p2, a, size);
    StayTwice(p, Marked(p1, a), p2, a);
  }

  /** Block `a` is cut from the smallest free area that is large enough, or, if there is none, from
      the new page. */
  ghost predicate BestFit(h: Heap, a: int, n: nat, page: Option<Addr>) {
    if exists c: int :: FreeFor(h, c, n) then
      FreeFor(h, a, n) && forall c: int :: FreeFor(h, c, n) ==> Size(h.next, a) <= Size(h.next, c)
    else
      page.Some? && page.value == a
  }

  lemma BestFitSame(h: Heap, h': Heap, a: int, n: nat, page: Option<Addr>)
    requires h'.next == h.next && h'.used == h.used
    ensures BestFit(h, a, n, page) <==> BestFit(h', a, n, page)
    ensures (exists c: int :: FreeFor(h, c, n)) <==> (exists c: int :: FreeFor(h', c, n))
  {
    assert forall c: int :: FreeFor(h, c, n) <==> FreeFor(h', c, n);
  }

  lemma FoundFits(h: Heap, h1: Heap, a: Addr, n: nat, page: Option<Addr>)
    requires h1.next == h.next && h1.used == h.used && FreeFor(h1, a, n)
    requires forall c: int :: FreeFor(h1, c, n) ==> Size(h1.next, a) <= Size(h1.next, c)
    ensures BestFit(h, a, n, page) && exists c: int :: FreeFor(h, c, n)
  {
    BestFitSame(h, h1, a, n, page);
  }

  /* ---- Reallocation. ---- */

  /** A block that had grown is cut to what is asked for. */
  lemma ResizedBlock(p: Paged, p1: Paged, p2: Paged, a: Addr, size: nat)
    requires Good(p) && Live(p, a) && Good(p1) && Live(p1, a) && OthersStay(p, p1, a) && size >= MIN_FRAGMENT
    requires Size(p1.h.next, a) >= size
    requires SameAreas(Trimmed(p1.h, a, size), p2.h) && p2.tops == p1.tops && p2.ends == p1.ends
    ensures NoEmptyPage(p2) && Resized(p, p2, a, size)
  {
    hide Sound, Trimmed;
    TrimmedBlocks(p1, p2, a, size);
    StayTwice(p, p1, p2, a);
  }

  /** A block that had grown is cut to what it was. */
  lemma RestoredBlock(p: Paged, p1: Paged, p2: Paged, a: Addr)
    requires Live(p, a) && p.h.next[a] in p.h.next && p.h.next[a] in p.h.prev && SameAreas(JoinedNext(p.h, a), p1.h)
    requires a in p1.h.next && Size(p.h.next, a) >= 0 && SameAreas(Trimmed(p1.h, a, Size(p.h.next, a)), p2.h)
    requires p2.tops == p1.tops == p.tops && p2.ends == p1.ends == p.ends && Good(p)
    ensures SameHeap(p, p2) && NoEmptyPage(p2)
  {
    hide Sound;
    LiveFacts(p, a);
    GrowThenTrim(p.h, p.tops, p.ends, a);
  }

  /** One block for another. */
  ghost predicate Moved(p: Paged, p': Paged, a: int, b: int, n: nat) {
    && Live(p, a) && !Live(p, b) && !Live(p', a) && Live(p', b) && Fits(Size(p'.h.next, b), n)
    && forall c: int :: c != a && c != b ==>
         (Live(p, c) <==> Live(p', c)) && (Live(p, c) ==> p'.h.next[c] == p.h.next[c])
  }

  lemma MovedBlock(p: Paged, p1: Paged, p2: Paged, p3: Paged, a: int, b: int, n: nat)
    requires Live(p, a) && Live(p1, a) && OthersStay(p, p1, a) && Gained(p1, p2, b, n) && Lost(p2, p3, a)
    ensures Moved(p, p3, a, b, n)
  {
    assert a != b;
    assert Live(p3, b) && p3.h.next[b] == p2.h.next[b];
  }

  /** `a` has taken in the free area behind it, if there is one. */
  ghost predicate Grown(p: Paged, p1: Paged, a: int) {
    && Live(p, a) && p.h.next[a] in p.h.next && p.h.next[a] in p.h.prev && SameAreas(JoinedNext(p.h, a), p1.h)
    && p1.tops == p.tops && p1.ends == p.ends && Live(p1, a) && Size(p1.h.next, a) >= Size(p.h.next, a) >= MIN_FRAGMENT
    && OthersStay(p, p1, a) && NoEmptyPage(p1) && p1.h.used + {a} == p1.h.used && Good(p)
  }

  lemma GrownIsGood(p: Paged, p1: Paged, a: int)
    requires Live(p, a) && p.h.next[a] in p.h.next && p.h.next[a] in p.h.prev && SameAreas(JoinedNext(p.h, a), p1.h)
    requires p1.tops == p.tops && p1.ends == p.ends && Good(p)
    ensures Grown(p, p1, a) && Live(p1, a) && NoEmptyPage(p1)
    ensures p1.h.used + {a} == p1.h.used && p1.h.(used := p1.h.used + {a}) == p1.h
    ensures Size(p1.h.next, a) >= Size(p.h.next, a) >= MIN_FRAGMENT
  {
    hide Sound, OthersStay, NoEmptyPage, JoinedNext;
    LiveFacts(p, a);
    GrownBlocks(p, p1, a);
    assert p1.h.used + {a} == p1.h.used;
  }

  lemma CutBlock(p: Paged, p1: Paged, p2: Paged, a: int, size: nat)
    requires Grown(p, p1, a) && Size(p1.h.next, a) >= size >= MIN_FRAGMENT && Sound(p1.h, p1.tops, p1.ends)
    requires SameAreas(Trimmed(p1.h, a, size), p2.h) && p2.tops == p1.tops && p2.ends == p1.ends
    ensures NoEmptyPage(p2) && Resized(p, p2, a, size)
  {
    hide Sound, OthersStay, NoEmptyPage, JoinedNext, Trimmed, Resized;
    ResizedBlock(p, p1, p2, a, size);
  }

  lemma UncutBlock(p: Paged, p1: Paged, p2: Paged, a: int)
    requires Grown(p, p1, a) && p2.tops == p1.tops && p2.ends == p1.ends
    requires SameAreas(Trimmed(p1.h, a, Size(p.h.next, a)), p2.h)
    ensures SameHeap(p, p2) && NoEmptyPage(p2)
  {
    hide Sound, OthersStay, NoEmptyPage, JoinedNext, Trimmed;
    RestoredBlock(p, p1, p2, a);
  }

  lemma GoneBlock(p: Paged, p1: Paged, p2: Paged, a: int)
    requires Grown(p, p1, a) && Lost(p1, p2, a)
    ensures Lost(p, p2, a)
  {
    hide Sound, OthersStay, NoEmptyPage, JoinedNext;
    StayTwice(p, p1, p2, a);
  }

  /* ---- The order of the pages. ---- */

  ghost predicate InOrder(p: Paged, first: seq<Addr>, last: seq<Addr>) {
    InPages(p.h.next, p.tops, p.ends, first, last)
  }

  lemma SoundLeads(p: Paged)
    requires Sound(p.h, p.tops, p.ends)
    ensures Leads(p.h.next, p.ends) && Apart(p.h.next, p.ends) && Linked(p.h.next, p.h.prev)
  {
    hide FreeQueue, Bounded, NoFreeNeighbours, Chain;
    ChainLeads(p.h.next, p.h.prev, p.tops, p.ends);
  }

  lemma ChainLeads(next: map<Addr, Addr>, prev: map<Addr, Addr>, tops: set<Addr>, ends: set<Addr>)
    requires Chain(next, prev, tops, ends)
    ensures Leads(next, ends) && Apart(next, ends) && Linked(next, prev)
  {
    hide Linked, Roomy, Apart, Edges;
    forall b | b in next ensures next[b] in next && (b != HEAD && b !in ends ==> b < next[b]) {
      LinkedAt(next, prev, b);
      if b != HEAD && b !in ends {
        SizeAt(next, ends, b);
      }
    }
  }

  lemma TrimKeepsOrder(p: Paged, p': Paged, a: Addr, size: nat, first: seq<Addr>, last: seq<Addr>)
    requires a in p.h.next && a != HEAD && a !in p.ends && size >= MIN_FRAGMENT && p'.tops == p.tops
    requires p'.ends == p.ends
    requires SameAreas(Trimmed(p.h, a, size), p'.h) && Sound(p.h, p.tops, p.ends) && InOrder(p, first, last)
    ensures InOrder(p', first, last)
  {
    hide InPages, Chain, FreeQueue, NoFreeNeighbours, Bounded, Leads, Linked, Apart;
    SoundLeads(p);
    if Size(p.h.next, a) - size >= MIN_FRAGMENT + QUEUESZ {
      EmptyBetween(p.h, p.tops, p.ends, a, Rest(a, size));
      InsertKeepsPages(p.h.next, p.tops, p.ends, first, last, a, Rest(a, size));
    }
  }

  lemma JoinNextKeepsOrder(p: Paged, a: Addr, first: seq<Addr>, last: seq<Addr>)
    requires a in p.h.next && a != HEAD && a !in p.ends && Bounded(p.h, p.ends)
    requires Chain(p.h.next, p.h.prev, p.tops, p.ends)
    requires InOrder(p, first, last)
    ensures p.h.next[a] in p.h.next && p.h.next[a] in p.h.prev
    ensures InPages(JoinedNext(p.h, a).next, p.tops, p.ends, first, last)
  {
    hide InPages, Chain;
    ChainFacts(p.h.next, p.h.prev, p.tops, p.ends, a);
    var x := p.h.next[a];
    if x !in p.h.used {
      RemoveKeepsPages(p.h.next, p.h.prev, p.tops, p.ends, first, last, x);
    }
  }

  lemma FreedKeepsOrder(p: Paged, p': Paged, a: int, first: seq<Addr>, last: seq<Addr>)
    requires Live(p, a) && HasFreed(p.h, p'.h, a) && p'.tops == p.tops && p'.ends == p.ends
    requires Sound(p.h, p.tops, p.ends) && InOrder(p, first, last)
    ensures InOrder(p', first, last)
  {
    hide InPages, Chain, FreeQueue, NoFreeNeighbours;
    ChainFacts(p.h.next, p.h.prev, p.tops, p.ends, a);
    var h0 := p.h.(used := p.h.used - {a});
    JoinNextKeepsOrder(p.(h := h0), a, first, last);
    var h1 := JoinedNext(h0, a);
    assert h1.prev[a] == p.h.prev[a] && a in h1.next;
    if h1.prev[a] !in h1.used {
      assert h1.prev[a] in h1.next;
      RemoveKeepsPages(h1.next, h1.prev, p.tops, p.ends, first, last, a);
    }
  }

  lemma PageKeepsOrder(p: Paged, p': Paged, t: Addr, e: Addr, first: seq<Addr>, last: seq<Addr>)
    requires HEAD in p.h.next && p'.h.next == PagedNext(p.h.next, t, e) && p'.tops == p.tops + {t}
    requires p'.ends == p.ends + {e}
    requires FreshPage(p.h.next, p.ends, t, e) && Sound(p.h, p.tops, p.ends) && InOrder(p, first, last)
    ensures InOrder(p', [t] + first, [e] + last)
  {
    hide InPages, Sound, FreshPage, PagedNext, Leads, Apart, Linked;
    FreshPageFacts(p.h.next, p.ends, t, e);
    SoundLeads(p);
    AddKeepsPages(p.h.next, p.tops, p.ends, first, last, t, e);
  }

  /** The pages but for page `i`. */
  ghost predicate InOrderWithout(p: Paged, first: seq<Addr>, last: seq<Addr>, i: nat) {
    i < |first| == |last| && InOrder(p, RemoveAt(first, i), RemoveAt(last, i))
  }

  /** The place of the page of `t`. */
  lemma UnpageKeepsOrder(p: Paged, p': Paged, t: Addr, first: seq<Addr>, last: seq<Addr>) returns (i: nat)
    requires t in p.h.next && t in p.tops && p.h.next[t] in p.ends && t > 0 && t !in p.ends
    requires Unpaged(p, p', t) && Loose(p.h, p.tops, p.ends, t) && InOrder(p, first, last)
    ensures InOrderWithout(p', first, last, i)
  {
    hide Chain, FreeQueue, NoFreeNeighbours, Leads, Apart, Linked, UnpagedNext, CanUnpage, InPages;
    LooseLeads(p, t);
    i := LastOfPage(p, t, first, last);
    DropKeepsPages(p.h.next, p.h.prev, p.tops, p.ends, first, last, i);
  }

  lemma LastOfPage(p: Paged, t: Addr, first: seq<Addr>, last: seq<Addr>) returns (i: nat)
    requires t in p.h.next && t in p.tops && p.h.next[t] in p.ends && t > 0 && t !in p.ends
    requires Leads(p.h.next, p.ends) && Apart(p.h.next, p.ends) && InOrder(p, first, last)
    ensures i < |first| == |last| && first[i] == t && last[i] == p.h.next[t]
  {
    hide Ordered, Apart, Leads, Edged, Disjoint, Inside;
    i := PageOf(p.h.next, first, last, t);
    OneEnd(p.tops, p.ends, first, last, i, t);
    NextWithin(p.h.next, p.tops, p.ends, first, last, i, t);
    LeadsAt(p.h.next, p.ends, t);
    OneEnd(p.tops, p.ends, first, last, i, p.h.next[t]);
  }

  lemma LooseLeads(p: Paged, t: Addr)
    requires Loose(p.h, p.tops, p.ends, t)
    ensures Leads(p.h.next, p.ends) && Apart(p.h.next, p.ends) && Linked(p.h.next, p.h.prev)
  {
    hide FreeQueue, Bounded, NoFreeNeighbours, Chain;
    ChainLeads(p.h.next, p.h.prev, p.tops, p.ends);
  }

  lemma WithoutPage(p: Paged, first: seq<Addr>, last: seq<Addr>, i: nat)
    requires InOrderWithout(p, first, last, i)
    ensures i < |first| == |last| && InOrder(p, RemoveAt(first, i), RemoveAt(last, i))
  {
  }

  lemma UnpagedFlags(p: Paged, p': Paged, t: Addr)
    requires CanUnpage(p.h.next, p.h.prev, t) && p'.h.next == UnpagedNext(p.h.next, p.h.prev, t)
    requires p'.h.used == p.h.used - {p.h.next[t]} && p'.tops == p.tops - {t} && p'.ends == p.ends - {p.h.next[t]}
    requires t in p.tops && Loose(p.h, p.tops, p.ends, t)
    ensures Unpaged(p, p', t) && t > 0 && t !in p.ends
  {
    hide FreeQueue, Chain, NoFreeNeighbours, UnpagedNext, CanUnpage;
  }

  lemma AllocatedOrder(p: Paged, p1: Paged, p2: Paged, a: Addr, size: nat, first: seq<Addr>, last: seq<Addr>)
    requires SetAside(p, p1, a, size) && size >= MIN_FRAGMENT && InOrder(p1, first, last)
    requires SameAreas(Trimmed(Marked(p1, a).h, a, size), p2.h) && p2.tops == p1.tops && p2.ends == p1.ends
    ensures InOrder(p2, first, last)
  {
    hide Sound, Trimmed, InPages, OthersStay, NoEmptyPage;
    TrimKeepsOrder(Marked(p1, a), p2, a, size, first, last);
  }

  lemma GrownOrder(p: Paged, p1: Paged, a: int, first: seq<Addr>, last: seq<Addr>)
    requires Grown(p, p1, a) && InOrder(p, first, last)
    ensures InOrder(p1, first, last)
  {
    hide InPages, Chain, FreeQueue, NoFreeNeighbours, OthersStay, NoEmptyPage, JoinedNext;
    JoinNextKeepsOrder(p, a, first, last);
  }

  /* ---- Contents. ---- */

  /** Byte `i` of block `a`. */
  function Cell(m: Memory, a: int, i: nat): int {
    if a >= 0 then Byte(m, a + QUEUESZ + i) else 0
  }

  /** The blocks of `p`, but for `a`, have the content they had. */
  ghost predicate Preserved(p: Paged, m: Memory, m': Memory, a: int) {
    forall b: int, i: nat :: Live(p, b) && b != a && i < Size(p.h.next, b) ==> Cell(m', b, i) == Cell(m, b, i)
  }

  /** The first `n` bytes of what was block `a` are those of block `b` now. */
  ghost predicate Carried(m: Memory, m': Memory, a: int, b: int, n: int) {
    forall i: nat :: i < n ==> Cell(m', b, i) == Cell(m, a, i)
  }

  lemma PreservedAt(p: Paged, m: Memory, m': Memory, a: int, b: int, i: nat)
    requires Preserved(p, m, m', a) && Live(p, b) && b != a && i < Size(p.h.next, b)
    ensures Cell(m', b, i) == Cell(m, b, i)
  {
  }

  lemma PreservedTwice(p: Paged, m: Memory, m1: Memory, m2: Memory, a: int)
    requires (Preserved(p, m, m1, a) || Preserved(p, m, m1, -1))
    requires (Preserved(p, m1, m2, a) || Preserved(p, m1, m2, -1))
    ensures Preserved(p, m, m2, a)
  {
    forall b: int, i: nat | Live(p, b) && b != a && i < Size(p.h.next, b) ensures Cell(m2, b, i) == Cell(m, b, i) {
      LivePositive(p, b);
      assert Cell(m1, b, i) == Cell(m, b, i);
      assert Cell(m2, b, i) == Cell(m1, b, i);
    }
  }

  /** The blocks that are still there are preserved. */
  lemma PreservedBefore(p: Paged, p1: Paged, m: Memory, m': Memory, a: int, b: int)
    requires OthersStay(p, p1, a) && Preserved(p1, m, m', b) && (b == a || b == -1)
    ensures Preserved(p, m, m', a)
  {
    forall c: int, i: nat | Live(p, c) && c != a && i < Size(p.h.next, c) ensures Cell(m', c, i) == Cell(m, c, i) {
      assert Live(p1, c) && p1.h.next[c] == p.h.next[c];
    }
  }

  lemma CarriedAlong(m: Memory, m1: Memory, m2: Memory, a: int, b: int, c: int, n: int)
    requires Carried(m, m1, a, b, n) && Carried(m1, m2, b, c, n)
    ensures Carried(m, m2, a, c, n)
  {
    forall i: nat | i < n ensures Cell(m2, c, i) == Cell(m, a, i) {
      assert Cell(m1, b, i) == Cell(m, a, i);
    }
  }

  /** The areas that may have links of the free queue in them: the free ones, and `a`. */
  function Linkable(p: Paged, a: int): set<Addr> {
    set x | x in p.h.next && x != HEAD && x !in p.ends && (x !in p.h.used || x == a)
  }

  /** Only headers of areas and links of those that may have some have been written. */
  ghost predicate Noted(p: Paged, m: Memory, m': Memory, a: int) {
    OnlyAt(m, m', p.h.next.Keys, Linkable(p, a))
  }

  lemma NotedFrees(p: Paged, m: Memory, m': Memory, s: set<Addr>, l: set<Addr>, a: int)
    requires Sound(p.h, p.tops, p.ends) && OnlyAt(m, m', s, l) && s <= p.h.next.Keys
    requires l <= p.h.next.Keys - p.h.used || (Live(p, a) && l <= p.h.next.Keys - p.h.used + {a})
    ensures Noted(p, m, m', a)
  {
    hide Chain, FreeQueue, NoFreeNeighbours, OnlyAt;
    Wider(m, m', s, l, p.h.next.Keys, Linkable(p, a));
  }

  /** The same when `a` has just been taken from the free areas. */
  lemma NotedFound(p: Paged, m: Memory, m': Memory, a: Addr)
    requires Sound(Marked(p, a).h, p.tops, p.ends) && a in p.h.next && a != HEAD && a !in p.ends
    requires OnlyAt(m, m', {}, p.h.next.Keys - p.h.used)
    ensures Noted(Marked(p, a), m, m', a)
  {
    hide Chain, FreeQueue, NoFreeNeighbours, OnlyAt;
    Wider(m, m', {}, p.h.next.Keys - p.h.used, p.h.next.Keys, Linkable(Marked(p, a), a));
  }

  /** Then the content of a block is as it was. */
  lemma BlockKept(p: Paged, m: Memory, m': Memory, a: int, b: int, i: nat)
    requires Sound(p.h, p.tops, p.ends) && Live(p, b) && b != a && Noted(p, m, m', a) && i < Size(p.h.next, b)
    ensures Cell(m', b, i) == Cell(m, b, i)
  {
    hide OnlyAt, InCells, Linked, Edges, Roomy, Apart, Tiled, FreeQueue, NoFreeNeighbours, Bounded;
    BlockIsClear(p.h.next, p.tops, p.ends, p.h.next.Keys, Linkable(p, a), b, b + QUEUESZ + i);
    OnlyAtCell(m, m', p.h.next.Keys, Linkable(p, a), b + QUEUESZ + i);
  }

  /** So is the content of all blocks that were there before, and are there in `q`. */
  lemma BlocksKept(p: Paged, q: Paged, m: Memory, m': Memory, a: int)
    requires Sound(q.h, q.tops, q.ends) && (OthersStay(p, q, a) || OthersStay(p, q, -1)) && Noted(q, m, m', a)
    ensures Preserved(p, m, m', a)
  {
    hide Sound, Noted;
    forall b: int, i: nat | Live(p, b) && b != a && i < Size(p.h.next, b) ensures Cell(m', b, i) == Cell(m, b, i) {
      LivePositive(p, b);
      BlockKept(q, m, m', a, b, i);
    }
  }

  /** `n` bytes from `src` on have been copied to `dst`. */
  ghost predicate Copied(m: Memory, m': Memory, dst: Addr, src: Addr, n: nat) {
    forall x: Addr {:trigger Byte(m', x)} ::
      Byte(m', x) == if dst <= x < dst + n then Byte(m, src + (x - dst)) else Byte(m, x)
  }

  lemma CopiedAt(m: Memory, m': Memory, dst: Addr, src: Addr, n: nat, x: Addr)
    requires Copied(m, m', dst, src, n)
    ensures Byte(m', x) == if dst <= x < dst + n then Byte(m, src + (x - dst)) else Byte(m, x)
  {
  }

  lemma CopyOne(m: Memory, m': Memory, dst: Addr, src: Addr, n: nat)
    requires Copied(m, m', dst, src, n) && (dst + n < src || src + n < dst)
    ensures Copied(m, m'[dst + n := Byte(m', src + n)], dst, src, n + 1)
  {
    var m2 := m'[dst + n := Byte(m', src + n)];
    forall x: Addr {:trigger Byte(m2, x)}
      ensures Byte(m2, x) == if dst <= x < dst + (n + 1) then Byte(m, src + (x - dst)) else Byte(m, x)
    {
      CopyOneAt(m, m', dst, src, n, x);
    }
  }

  lemma CopyOneAt(m: Memory, m': Memory, dst: Addr, src: Addr, n: nat, x: Addr)
    requires Copied(m, m', dst, src, n) && (dst + n < src || src + n < dst)
    ensures Byte(m'[dst + n := Byte(m', src + n)], x) ==
              if dst <= x < dst + (n + 1) then Byte(m, src + (x - dst)) else Byte(m, x)
  {
    hide Copied;
    CopiedAt(m, m', dst, src, n, src + n);
    CopiedAt(m, m', dst, src, n, x);
  }

  /** `n` bytes copied from block `a` into block `b` touch no other block. */
  lemma CopyKeepsOthers(p: Paged, m: Memory, m': Memory, a: int, b: int, n: nat)
    requires Live(p, a) && Live(p, b) && a != b && n <= Size(p.h.next, b) && n <= Size(p.h.next, a)
    requires Copied(m, m', b + QUEUESZ, a + QUEUESZ, n) && Sound(p.h, p.tops, p.ends)
    ensures Preserved(p, m, m', b) && Carried(m, m', a, b, n)
  {
    hide Sound;
    forall c: int, i: nat | Live(p, c) && c != b && i < Size(p.h.next, c) ensures Cell(m', c, i) == Cell(m, c, i) {
      var x: Addr := c + QUEUESZ + i;
      assert x < b + QUEUESZ || b + QUEUESZ + n <= x by {
        if c < b {
          BlocksApart(p, c, b);
        } else {
          BlocksApart(p, b, c);
        }
      }
      CopiedAt(m, m', b + QUEUESZ, a + QUEUESZ, n, x);
    }
    forall i: nat | i < n ensures Cell(m', b, i) == Cell(m, a, i) {
      CopiedAt(m, m', b + QUEUESZ, a + QUEUESZ, n, b + QUEUESZ + i);
    }
  }

  /** Block `b` instead of block `a`, with its content, and no other block touched. */
  ghost predicate Exchanged(p: Paged, p': Paged, m: Memory, m': Memory, a: int, b: int, n: nat) {
    Moved(p, p', a, b, n) && Preserved(p, m, m', a) && Carried(m, m', a, b, Size(p.h.next, a))
  }

  function SizeOf(p: Paged, a: int): int {
    if a >= 0 && a in p.h.next then Size(p.h.next, a) else 0
  }

  /** Both blocks exist, before the content is copied. */
  ghost predicate Both(p: Paged, p1: Paged, p2: Paged, a: int, b: int, n: nat) {
    Grown(p, p1, a) && Gained(p1, p2, b, n) && n >= SizeOf(p, a) && Good(p2)
  }

  lemma BothApart(p: Paged, p1: Paged, p2: Paged, a: int, b: int, n: nat)
    requires Both(p, p1, p2, a, b, n)
    ensures Live(p2, a) && Live(p2, b) && a != b
    ensures 0 <= SizeOf(p, a) <= SizeOf(p2, a) && SizeOf(p, a) <= SizeOf(p2, b)
    ensures a + QUEUESZ + SizeOf(p, a) <= b + QUEUESZ || b + QUEUESZ + SizeOf(p, a) <= a + QUEUESZ
  {
    hide Sound, NoEmptyPage, JoinedNext;
    assert Live(p2, a) && p2.h.next[a] == p1.h.next[a];
    if a < b {
      BlocksApart(p2, a, b);
    } else {
      BlocksApart(p2, b, a);
    }
  }

  /** After copying and giving the old block back: `m2` is the memory when both exist, `m3` when
      the content has been copied. */
  lemma BothExchanged(p: Paged, p1: Paged, p2: Paged, p3: Paged, m: Memory, m2: Memory, m3: Memory, m': Memory,
                      a: int, b: int, n: nat)
    requires Both(p, p1, p2, a, b, n) && Lost(p2, p3, a) && Preserved(p, m, m2, -1)
    requires a > 0 && b > 0 && SizeOf(p, a) >= 0 && Copied(m2, m3, b + QUEUESZ, a + QUEUESZ, SizeOf(p, a))
    requires Preserved(p2, m3, m', a)
    ensures Exchanged(p, p3, m, m', a, b, n)
  {
    hide Sound, NoEmptyPage, JoinedNext, Copied, Moved, Carried, Preserved;
    BothApart(p, p1, p2, a, b, n);
    CopyKeepsOthers(p2, m2, m3, a, b, SizeOf(p, a));
    MovedBlock(p, p1, p2, p3, a, b, n);
    BothStay(p, p1, p2, a, b, n);
    PreservedPast(p, p2, m2, m3, a, b);
    PreservedPast(p, p2, m3, m', a, b);
    PreservedTwice(p, m, m2, m3, a);
    PreservedTwice(p, m, m3, m', a);
    KeepsOne(p, m, m2, -1, a, SizeOf(p, a));
    CarriedAlong(m, m2, m3, a, a, b, SizeOf(p, a));
    KeepsOne(p2, m3, m', a, b, SizeOf(p, a));
    CarriedAlong(m, m3, m', a, b, b, SizeOf(p, a));
  }

  /** All blocks but `a` are as they were when `b` has been added. */
  ghost predicate StayBut(p: Paged, p2: Paged, a: int, b: int) {
    !Live(p, b) && forall c: int :: Live(p, c) && c != a ==> c != b && Live(p2, c) && p2.h.next[c] == p.h.next[c]
  }

  lemma BothStay(p: Paged, p1: Paged, p2: Paged, a: int, b: int, n: nat)
    requires Both(p, p1, p2, a, b, n)
    ensures StayBut(p, p2, a, b)
  {
    hide Sound, NoEmptyPage, JoinedNext;
  }

  lemma PreservedPast(p: Paged, p2: Paged, m: Memory, m': Memory, a: int, b: int)
    requires StayBut(p, p2, a, b) && (Preserved(p2, m, m', a) || Preserved(p2, m, m', b))
    ensures Preserved(p, m, m', a)
  {
    forall c: int, i: nat | Live(p, c) && c != a && i < Size(p.h.next, c) ensures Cell(m', c, i) == Cell(m, c, i) {
      assert Live(p2, c) && p2.h.next[c] == p.h.next[c];
    }
  }

  /** A block that is preserved is so in its first `n` bytes. */
  lemma KeepsOne(p: Paged, m: Memory, m': Memory, a: int, b: int, n: int)
    requires Preserved(p, m, m', a) && Live(p, b) && b != a && n <= SizeOf(p, b)
    ensures Carried(m, m', b, b, n)
  {
    forall i: nat | i < n ensures Cell(m', b, i) == Cell(m, b, i) {
      PreservedAt(p, m, m', a, b, i);
    }
  }

  lemma GainedFacts(p: Paged, p': Paged, a: int, n: nat)
    requires Gained(p, p', a, n)
    ensures a > 0
  {
  }

  lemma ExchangedFacts(p: Paged, p': Paged, m: Memory, m': Memory, a: int, b: int, n: nat)
    requires Exchanged(p, p', m, m', a, b, n)
    ensures a != b
  {
  }

  /** The room of block `a` with the free area behind it. */
  function RoomOf(p: Paged, a: int): int {
    if a >= 0 && a in p.h.next && p.h.next[a] in p.h.next && p.h.next[a] in p.h.prev && a in JoinedNext(p.h, a).next
    then Size(JoinedNext(p.h, a).next, a) else 0
  }

  /** The heap when block `a` has taken in the free area behind it. */
  function JoinedHeap(p: Paged, a: int): Heap {
    if a >= 0 && a in p.h.next && p.h.next[a] in p.h.next && p.h.next[a] in p.h.prev then JoinedNext(p.h, a) else p.h
  }

  lemma GrownFit(p: Paged, p1: Paged, a: int, b: int, n: nat, page: Option<Addr>)
    requires Grown(p, p1, a)
    ensures BestFit(p1.h, b, n, page) <==> BestFit(JoinedHeap(p, a), b, n, page)
    ensures (exists c: int :: FreeFor(p1.h, c, n)) <==> (exists c: int :: FreeFor(JoinedHeap(p, a), c, n))
  {
    hide JoinedNext, OthersStay, NoEmptyPage, Sound, BestFit;
    BestFitSame(p1.h, JoinedHeap(p, a), b, n, page);
  }

  lemma GrownRoom(p: Paged, p1: Paged, a: int)
    requires Grown(p, p1, a)
    ensures SizeOf(p1, a) == RoomOf(p, a)
  {
    hide JoinedNext, OthersStay, NoEmptyPage, Sound;
  }

  function Min(a: int, b: int): int {
    if a <= b then a else b
  }

  /** What reallocation does to the block at `ptr`: it goes when nothing is asked for; it stays
      where it is exactly if it has room there, with the free area behind it, and keeps its
      content as far as it goes; else it is exchanged for a block cut from the smallest free area or
      a new page; and exactly if there is no memory for that, all blocks are as they were.  All
      other blocks keep their content. */
  ghost predicate Reallocated(p: Paged, p': Paged, m: Memory, m': Memory, ptr: Addr, r: Option<Addr>, size: nat,
                              page: Option<Addr>, memory: bool) {
    var a := ptr - QUEUESZ;
    && (r == Some(ptr) <==> 0 < size <= RoomOf(p, a))
    && (size == 0 ==> r == None && Lost(p, p', a) && Preserved(p, m, m', a))
    && (r == None <==>
          size == 0 || (size > RoomOf(p, a) && !memory && !exists c: int :: FreeFor(JoinedHeap(p, a), c, size)))
    && (size > 0 && r == None ==> SameHeap(p, p') && Preserved(p, m, m', -1))
    && (r == Some(ptr) ==> ResizedWith(p, p', m, m', a, size))
    && (r.Some? && r != Some(ptr) ==>
          && Exchanged(p, p', m, m', a, r.value - QUEUESZ, size)
          && BestFit(JoinedHeap(p, a), r.value - QUEUESZ, size, page))
  }

  /** Block `a` is of `size` bytes now, with the content it had. */
  ghost predicate ResizedWith(p: Paged, p': Paged, m: Memory, m': Memory, a: int, size: nat) {
    && Resized(p, p', a, size) && Preserved(p, m, m', a)
    && Carried(m, m', a, a, Min(Size(p.h.next, a), Size(p'.h.next, a)))
  }

  /** What allocation does. */
  ghost predicate Allocated(p: Paged, p': Paged, m: Memory, m': Memory, r: Option<Addr>, size: nat, memory: bool) {
    && (r == None <==> size == 0 || (!memory && !exists a: int :: FreeFor(p.h, a, size)))
    && (r == None ==> p' == p && m' == m)
    && (r.Some? ==> r.value >= QUEUESZ && Gained(p, p', r.value - QUEUESZ, size) && Preserved(p, m, m', -1))
  }

  /* ---- What the calls do to the content of blocks. ---- */

  /** Setting an area aside and cutting it. */
  lemma GainedKeeps(p: Paged, p1: Paged, p2: Paged, m: Memory, m1: Memory, m2: Memory, a: int, n: nat)
    requires Sound(p1.h, p1.tops, p1.ends) && Sound(p2.h, p2.tops, p2.ends) && OthersStay(p, p1, a)
    requires Gained(p, p2, a, n)
    requires Noted(p1, m, m1, a) && Noted(p2, m1, m2, -1)
    ensures Preserved(p, m, m2, -1)
  {
    hide Sound, Noted, Preserved;
    NotedMore(p2, m1, m2, a);
    BlocksKept(p, p1, m, m1, a);
    BlocksKept(p, p2, m1, m2, a);
    PreservedTwice(p, m, m1, m2, a);
    NoneLeftOut(p, m, m2, a);
  }

  lemma AllocatedKeeps(p: Paged, p1: Paged, p2: Paged, m: Memory, m1: Memory, m2: Memory, a: Addr, n: nat)
    requires SetAside(p, p1, a, n) && Gained(p, p2, a, n) && Sound(p2.h, p2.tops, p2.ends)
    requires Noted(Marked(p1, a), m, m1, a) && OnlyAt(m1, m2, p2.h.next.Keys, p2.h.next.Keys - p2.h.used)
    ensures Preserved(p, m, m2, -1)
  {
    hide Sound, Noted, OnlyAt, Preserved, Gained, NoEmptyPage;
    NotedFrees(p2, m1, m2, p2.h.next.Keys, p2.h.next.Keys - p2.h.used, -1);
    GainedKeeps(p, Marked(p1, a), p2, m, m1, m2, a, n);
  }

  /** Headers of a new page. */
  lemma NotedPage(p: Paged, m: Memory, m': Memory, a: Addr)
    requires OnlyAt(m, m', p.h.next.Keys, {})
    ensures Noted(Marked(p, a), m, m', a)
  {
    hide OnlyAt;
    Wider(m, m', p.h.next.Keys, {}, p.h.next.Keys, Linkable(Marked(p, a), a));
  }

  lemma LostIs(p: Paged, p': Paged, a: int)
    requires Lost(p, p', a)
    ensures Live(p, a) && OthersStay(p, p', a)
  {
  }

  lemma BothIs(p: Paged, p1: Paged, p2: Paged, a: int, b: int, n: nat)
    requires Grown(p, p1, a) && Gained(p1, p2, b, n) && n >= SizeOf(p, a) && Good(p2)
    ensures Both(p, p1, p2, a, b, n)
  {
  }

  lemma NotedMore(p: Paged, m: Memory, m': Memory, a: int)
    requires Noted(p, m, m', -1)
    ensures Noted(p, m, m', a)
  {
    hide OnlyAt;
    Wider(m, m', p.h.next.Keys, Linkable(p, -1), p.h.next.Keys, Linkable(p, a));
  }

  /** Joining, and then putting the area into the free queue or giving the page back. */
  lemma LostKeeps(p: Paged, q: Paged, m: Memory, m1: Memory, m2: Memory, a: int)
    requires Sound(p.h, p.tops, p.ends) && Sound(q.h, q.tops, q.ends) && OthersStay(p, q, a)
    requires Noted(p, m, m1, a) && (Noted(q, m1, m2, -1) || Noted(p, m1, m2, a))
    ensures Preserved(p, m, m2, a)
  {
    hide Sound, Noted, Preserved, OthersStay;
    StaySame(p, a);
    BlocksKept(p, p, m, m1, a);
    if Noted(q, m1, m2, -1) {
      NotedMore(q, m1, m2, a);
      BlocksKept(p, q, m1, m2, a);
    } else {
      BlocksKept(p, p, m1, m2, a);
    }
    PreservedTwice(p, m, m1, m2, a);
  }

  /** Growing and cutting back: nothing is lost. */
  lemma UncutKeeps(p: Paged, p2: Paged, m: Memory, m1: Memory, m2: Memory)
    requires Sound(p.h, p.tops, p.ends) && Sound(p2.h, p2.tops, p2.ends) && SameHeap(p, p2)
    requires Noted(p, m, m1, -1) && Noted(p2, m1, m2, -1)
    ensures Preserved(p, m, m2, -1)
  {
    hide Sound, Noted, Preserved;
    BlocksKept(p, p, m, m1, -1);
    BlocksKept(p, p2, m1, m2, -1);
    PreservedTwice(p, m, m1, m2, -1);
  }

  /** Growing and giving back. */
  lemma GoneKeeps(p: Paged, p1: Paged, m: Memory, m1: Memory, m2: Memory, a: int)
    requires Grown(p, p1, a) && Noted(p, m, m1, -1) && Preserved(p1, m1, m2, a)
    ensures Preserved(p, m, m2, a)
  {
    hide Sound, Noted, Preserved, NoEmptyPage, JoinedNext;
    BlocksKept(p, p, m, m1, -1);
    PreservedBefore(p, p1, m1, m2, a, a);
    PreservedTwice(p, m, m1, m2, a);
  }

  /** Growing and finding another block. */
  lemma BothKeep(p: Paged, p1: Paged, p2: Paged, m: Memory, m1: Memory, m2: Memory, a: int, b: int, n: nat)
    requires Both(p, p1, p2, a, b, n) && Noted(p, m, m1, -1) && Preserved(p1, m1, m2, -1)
    ensures Preserved(p, m, m2, -1)
  {
    hide Sound, Noted, NoEmptyPage, JoinedNext, Gained;
    BlocksKept(p, p, m, m1, -1);
    forall c: int, i: nat | Live(p, c) && c != -1 && i < Size(p.h.next, c) ensures Cell(m2, c, i) == Cell(m, c, i) {
      PreservedAt(p, m, m1, -1, c, i);
      assert Live(p1, c) && i < Size(p1.h.next, c);
      PreservedAt(p1, m1, m2, -1, c, i);
    }
  }

  lemma StaySame(p: Paged, a: int)
    ensures OthersStay(p, p, a)
  {
  }

  /** Growing and cutting: what fits in the block stays in it. */
  lemma CutKeeps(p: Paged, p1: Paged, p2: Paged, m: Memory, m1: Memory, m2: Memory, a: int, n: nat)
    requires Grown(p, p1, a) && Resized(p, p2, a, n) && Sound(p2.h, p2.tops, p2.ends)
    requires Noted(p, m, m1, -1) && Noted(p2, m1, m2, -1)
    ensures ResizedWith(p, p2, m, m2, a, n)
  {
    hide Sound, Noted, Preserved, OthersStay, Carried, NoEmptyPage, JoinedNext;
    StaySame(p, -1);
    StaySame(p2, -1);
    BlocksKept(p, p, m, m1, -1);
    BlocksKept(p2, p2, m1, m2, -1);
    PreservedBefore(p, p2, m1, m2, a, -1);
    PreservedTwice(p, m, m1, m2, a);
    var k := Min(Size(p.h.next, a), Size(p2.h.next, a));
    KeepsOne(p, m, m1, -1, a, k);
    KeepsOne(p2, m1, m2, -1, a, k);
    CarriedAlong(m, m1, m2, a, a, a, k);
  }

  /** An exception that is no block is none. */
  lemma NoneLeftOut(p: Paged, m: Memory, m': Memory, a: int)
    requires Preserved(p, m, m', a) && !Live(p, a)
    ensures Preserved(p, m, m', -1)
  {
    forall b: int, i: nat | Live(p, b) && b != -1 && i < Size(p.h.next, b) ensures Cell(m', b, i) == Cell(m, b, i) {
      PreservedAt(p, m, m', a, b, i);
    }
  }
}
