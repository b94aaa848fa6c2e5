/** The library's memory allocator: blocks cut from pages that are obtained and given back as
    needed. */
module Malloc {
  import opened Tasks
  import opened Sequences
  import opened Areas
  import opened Memories
  import opened Heaps
  import opened Stores
  import opened Pages
  import opened Blocks
  import Q = QueueLinks

  /** `ROUND` and the minimum, for sizes far below the largest number. */
  function RoundUp(size: nat): (r: nat)
    ensures r >= size && (size > 0 ==> r >= MIN_FRAGMENT) && (size == 0 ==> r == 0)
    ensures r % QUEUESZ == 0 && r < (if 0 < size < MIN_FRAGMENT then MIN_FRAGMENT else size) + QUEUESZ
  {
    var s := if 0 < size < MIN_FRAGMENT then MIN_FRAGMENT else size;
    (s + QUEUESZ - 1) / QUEUESZ * QUEUESZ
  }

  lemma RoundTwice(size: nat)
    ensures RoundUp(RoundUp(size)) == RoundUp(size)
  {
  }

  /** `toPageCount`. */
  function PageCount(size: nat, pagesz: nat): nat
    requires pagesz > 0
  {
    (size + pagesz - 1) / pagesz
  }

  /** The end header of a page for `size` bytes at `t`. */
  function PageEnd(t: Addr, size: nat, pagesz: nat): int
    requires pagesz > 0
  {
    t + PageCount(size + QUEUESZ * 2, pagesz) * pagesz - QUEUESZ
  }

  lemma PageIsLargeEnough(t: Addr, size: nat, pagesz: nat)
    requires pagesz > 0
    ensures PageEnd(t, size, pagesz) - (t + QUEUESZ) >= size
    ensures PageEnd(t, size, pagesz) - pagesz - (t + QUEUESZ) < size
  {
    var n := size + QUEUESZ * 2;
    var q := (n + pagesz - 1) / pagesz;
    assert q * pagesz >= n && (q - 1) * pagesz < n;
    assert (q - 1) * pagesz == q * pagesz - pagesz;
  }

  /** The pages are the same, or there is the new one if no free area is large enough. */
  ghost predicate PagesFor(p: Paged, p': Paged, size: nat, page: Option<Addr>, pagesz: nat) {
    if exists c: int :: FreeFor(p.h, c, size) then p'.tops == p.tops && p'.ends == p.ends
    else
      && page.Some? && pagesz > 0 && PageEnd(page.value, size, pagesz) >= 0
      && p'.tops == p.tops + {page.value} && p'.ends == p.ends + {PageEnd(page.value, size, pagesz)}
  }

  lemma PageFits(h: Heap, a: Addr, n: nat, page: Option<Addr>)
    requires !exists c: int :: FreeFor(h, c, n)
    requires page == Some(a)
    ensures BestFit(h, a, n, page)
  {
  }

  lemma NoPages()
    ensures InPages(map[HEAD := HEAD], {}, {}, [], [])
  {
  }

  class Allocator {
    const pagesz: nat
    const store: Store
    /** The pages in the order of the chain. */
    ghost var first: seq<Addr>
    ghost var last: seq<Addr>

    ghost function P(): Paged
      reads this, store
    {
      Paged(store.H(), store.tops, store.ends)
    }

    ghost predicate Valid()
      reads this, store
    {
      store.Valid() && NoEmptyPage(P()) && InOrder(P(), first, last)
    }

    /** `_tkm_init`. */
    constructor (pagesz: nat, mem: Memory)
      ensures Valid() && fresh(store) && this.pagesz == pagesz && store.mem == mem && forall a: int :: !Live(P(), a)
    {
      hide Sound, Q.Represents, InPages;
      NoPages();
      this.pagesz := pagesz;
      first, last := [], [];
      store := new Store(pagesz / 4, mem);
    }

    /** What `getblk` may answer: nothing, or a page that is clear of all others. */
    ghost predicate PageFor(page: Option<Addr>, size: nat)
      reads this, store
    {
      page.Some? && pagesz > 0 && size > 0 ==>
        PageEnd(page.value, RoundUp(size), pagesz) >= 0
        && FreshPage(store.next, store.ends, page.value, PageEnd(page.value, RoundUp(size), pagesz))
    }

    /** `_mem_malloc`; `page` is what `getblk` answers if it is asked. */
    method Alloc(req: nat, page: Option<Addr>) returns (r: Option<Addr>)
      requires Valid() && PageFor(page, req)
      modifies this`first, this`last, store
      ensures Valid()
      ensures Allocated(old(P()), P(), old(store.mem), store.mem, r, RoundUp(req), pagesz > 0 && page.Some?)
      ensures r.Some? ==> BestFit(old(P()).h, r.value - QUEUESZ, RoundUp(req), page)
      ensures r.Some? ==> PagesFor(old(P()), P(), RoundUp(req), page, pagesz)
    {
      hide Sound, Q.Represents, NoEmptyPage, FreeFor, FreshPage, Trimmed, Gained, SetAside, InPages, OnlyAt,
        Noted, Linkable, Preserved, BestFit;
      ghost var p, m := P(), store.mem;
      var size := RoundUp(req);
      if size <= 0 {
        return None;
      }
      var q := store.Isolate(size);
      if q != None {
        FoundBlock(p, P(), q.value, size);
        FoundFits(p.h, P().h, q.value, size, page);
        NotedFound(P(), m, store.mem, q.value);
      } else {
        q := NewPage(size, page);
        if q == None {
          return None;
        }
        PageFits(p.h, q.value, size, page);
      }
      ghost var p1, m1 := P(), store.mem;
      store.Allocate(q.value, size);
      AllocatedBlock(p, p1, P(), q.value, size);
      AllocatedKeeps(p, p1, P(), m, m1, store.mem, q.value, size);
      AllocatedOrder(p, p1, P(), q.value, size, first, last);
      return Some(q.value + QUEUESZ);
    }

    /** `newPage`. */
    method NewPage(size: nat, page: Option<Addr>) returns (q: Option<Addr>)
      requires Valid() && size >= MIN_FRAGMENT && RoundUp(size) == size && PageFor(page, size)
      modifies this`first, this`last, store`next, store`prev, store`used, store`tops, store`ends, store`mem
      ensures q == None <==> pagesz == 0 || page == None
      ensures q.Some? ==>
                && q == page && P().tops == old(P()).tops + {page.value}
                && P().ends == old(P()).ends + {PageEnd(page.value, size, pagesz)}
      ensures q == None ==> Valid() && P() == old(P()) && store.mem == old(store.mem)
      ensures q.Some? ==> Noted(Marked(P(), q.value), old(store.mem), store.mem, q.value)
      ensures q.Some? ==> store.Isolated(q.value) && SetAside(old(P()), P(), q.value, size) && InOrder(P(), first, last)
    {
      hide Sound, Q.Represents, NoEmptyPage, FreshPage, PagedNext, PagedPrev, SetAside, InPages, OnlyAt, Noted,
        Linkable;
      ghost var p := P();
      if pagesz == 0 || page == None {
        return None;
      }
      var top := page.value;
      var end := PageEnd(top, size, pagesz);
      PageIsLargeEnough(top, size, pagesz);
      store.AddPage(top, end);
      NotedPage(P(), old(store.mem), store.mem, top);
      PagedBlock(p, P(), top, end, size);
      PageKeepsOrder(p, P(), top, end, first, last);
      first, last := [top] + first, [end as nat] + last;
      return Some(top);
    }

    /** `_mem_free`.  An area at the top of a page has a used one, the end of another page or
        the head, before it. */
    method Free(ptr: Option<Addr>)
      requires Valid() && (ptr.Some? ==> Live(P(), ptr.value - QUEUESZ))
      modifies this`first, this`last, store
      ensures Valid()
      ensures ptr == None ==> P() == old(P()) && store.mem == old(store.mem)
      ensures ptr.Some? ==> Lost(old(P()), P(), ptr.value - QUEUESZ)
      ensures ptr.Some? ==> Preserved(old(P()), old(store.mem), store.mem, ptr.value - QUEUESZ)
    {
      hide Sound, Q.Represents, NoEmptyPage, Loose, Lost, OthersStay, NoEmptyPageBut, UnpagedNext, UnpagedPrev,
        CanUnpage, InPages, Unpaged, HasFreed, OnlyAt, Noted, Linkable, Preserved;
      if ptr == None {
        return;
      }
      var aq := ptr.value - QUEUESZ;
      ghost var p, m := P(), store.mem;
      LiveFacts(p, aq);
      var b := store.Join(aq);
      ghost var p1, m1 := P(), store.mem;
      NotedFrees(p, m, m1, p.h.next.Keys, p.h.next.Keys - p.h.used + {aq as nat}, aq);
      JoinedBlocks(p, p1, aq, b);
      FreedKeepsOrder(p, p1, aq, first, last);
      if b in store.tops && store.next[b] in store.ends {
        store.RemovePage(b);
        NotedFrees(p, m1, store.mem, p1.h.next.Keys, {}, aq);
        UnpagedFlags(p1, P(), b);
        UnpagedBlocks(p1, P(), b);
        ghost var i := UnpageKeepsOrder(p1, P(), b, first, last);
        WithoutPage(P(), first, last, i);
        first, last := RemoveAt(first, i), RemoveAt(last, i);
      } else {
        store.AppendLoose(b);
        NotedFrees(P(), m1, store.mem, store.next.Keys, store.next.Keys - store.used, -1);
        QueuedBlocks(p1, P(), b);
      }
      LostForGood(p, p1, P(), aq);
      LostIs(p, P(), aq);
      LostKeeps(p, P(), m, m1, store.mem, aq);
    }

    /** `_mem_realloc`.  If there is no memory for a larger block, the old one is as it was. */
    method Realloc(ptr: Option<Addr>, req: nat, page: Option<Addr>) returns (r: Option<Addr>)
      requires Valid() && PageFor(page, RoundUp(req)) && (ptr.Some? ==> Live(P(), ptr.value - QUEUESZ))
      modifies this`first, this`last, store
      ensures Valid()
      ensures ptr == None ==>
                && Allocated(old(P()), P(), old(store.mem), store.mem, r, RoundUp(req), pagesz > 0 && page.Some?)
                && (r.Some? ==> BestFit(old(P()).h, r.value - QUEUESZ, RoundUp(req), page))
      ensures ptr.Some? ==>
                Reallocated(old(P()), P(), old(store.mem), store.mem, ptr.value, r, RoundUp(req), page,
                            pagesz > 0 && page.Some?)
    {
      hide Sound, Q.Represents, NoEmptyPage, InPages, Allocated, Reallocated;
      RoundTwice(req);
      var size := RoundUp(req);
      if ptr == None {
        r := Alloc(size, page);
      } else {
        r := ReallocBlock(ptr.value, size, page);
      }
    }

    /** `_mem_realloc` for a block: it takes in the free area behind it, and is cut, given
        back, or exchanged for a new one. */
    method ReallocBlock(ptr: Addr, size: nat, page: Option<Addr>) returns (r: Option<Addr>)
      requires Valid() && RoundUp(size) == size && PageFor(page, size) && Live(P(), ptr - QUEUESZ)
      modifies this`first, this`last, store
      ensures Valid()
      ensures Reallocated(old(P()), P(), old(store.mem), store.mem, ptr, r, size, page, pagesz > 0 && page.Some?)
    {
      hide Sound, Q.Represents, NoEmptyPage, Lost, Gained, Resized, Moved, SameHeap, OthersStay, FreshPage,
        Exchanged, Grown, RoomOf, FreeFor, JoinedNext, Trimmed, InPages, OnlyAt, Noted, Linkable, Preserved,
        ResizedWith, Both, BestFit, JoinedHeap;
      var aq := ptr - QUEUESZ;
      ghost var p, m := P(), store.mem;
      LiveFacts(p, aq);
      ClearPage(page, size, aq);
      var oldsz := Size(store.next, aq);
      store.Grow(aq);
      ghost var p1, m1 := P(), store.mem;
      NotedFrees(p, m, m1, p.h.next.Keys, p.h.next.Keys - p.h.used, -1);
      GrownIsGood(p, p1, aq);
      GrownOrder(p, p1, aq, first, last);
      GrownRoom(p, p1, aq);
      var sz := Size(store.next, aq);
      if size <= sz {
        if size > 0 {
          store.Allocate(aq, size);
          CutBlock(p, p1, P(), aq, size);
          NotedFrees(P(), m1, store.mem, store.next.Keys, store.next.Keys - store.used, -1);
          CutKeeps(p, p1, P(), m, m1, store.mem, aq, size);
          TrimKeepsOrder(p1, P(), aq, size, first, last);
          return Some(ptr);
        }
        Free(Some(ptr));
        GoneBlock(p, p1, P(), aq);
        GoneKeeps(p, p1, m, m1, store.mem, aq);
        return None;
      }
      var newptr := Alloc(size, page);
      GrownFit(p, p1, aq, if newptr.Some? then newptr.value - QUEUESZ else 0, size, page);
      if newptr == None {
        store.Allocate(aq, oldsz);
        UncutBlock(p, p1, P(), aq);
        NotedFrees(P(), m1, store.mem, store.next.Keys, store.next.Keys - store.used, -1);
        UncutKeeps(p, P(), m, m1, store.mem);
        TrimKeepsOrder(p1, P(), aq, oldsz, first, last);
        return None;
      }
      GainedFacts(p1, P(), newptr.value - QUEUESZ, size);
      BothIs(p, p1, P(), aq, newptr.value - QUEUESZ, size);
      BothKeep(p, p1, P(), m, m1, store.mem, aq, newptr.value - QUEUESZ, size);
      Exchange(ptr, newptr.value, oldsz, size, p, p1, m);
      ExchangedFacts(p, P(), m, store.mem, aq, newptr.value - QUEUESZ, size);
      return newptr;
    }

    /** The page that `getblk` offers is clear also of the larger block. */
    lemma ClearPage(page: Option<Addr>, size: nat, a: int)
      requires Valid() && PageFor(page, size) && Live(P(), a) && store.next[a] in store.next
      requires store.next[a] in store.prev
      requires RoundUp(size) == size
      ensures page.Some? && pagesz > 0 && size > 0 ==>
                PageEnd(page.value, size, pagesz) >= 0
                && FreshPage(JoinedNext(P().h, a).next, store.ends, page.value, PageEnd(page.value, size, pagesz))
    {
      hide Sound, NoEmptyPage, FreshPage, JoinedNext, InPages;
      if page.Some? && pagesz > 0 && size > 0 {
        StillFresh(P(), a, page.value, PageEnd(page.value, size, pagesz));
      }
    }

    /** Copy the content and give the old block back. */
    method Exchange(ptr: Addr, newptr: Addr, oldsz: nat, size: nat, ghost p: Paged, ghost p1: Paged, ghost m: Memory)
      requires Valid() && ptr > QUEUESZ && newptr > QUEUESZ
      requires Both(p, p1, P(), ptr - QUEUESZ, newptr - QUEUESZ, size) && oldsz == SizeOf(p, ptr - QUEUESZ)
      requires Preserved(p, m, store.mem, -1)
      modifies this`first, this`last, store
      ensures Valid() && Exchanged(p, P(), m, store.mem, ptr - QUEUESZ, newptr - QUEUESZ, size)
    {
      hide Sound, Q.Represents, NoEmptyPage, Both, Exchanged, Lost, Copied, InPages, Preserved;
      ghost var p2, m2 := P(), store.mem;
      BothApart(p, p1, p2, ptr - QUEUESZ, newptr - QUEUESZ, size);
      MemCpy(newptr, ptr, oldsz);
      ghost var m3 := store.mem;
      Free(Some(ptr));
      BothExchanged(p, p1, p2, P(), m, m2, m3, store.mem, ptr - QUEUESZ, newptr - QUEUESZ, size);
    }

    /** `memcpy`. */
    method MemCpy(dst: Addr, src: Addr, n: nat)
      requires dst + n <= src || src + n <= dst
      modifies store`mem
      ensures Copied(old(store.mem), store.mem, dst, src, n)
    {
      var i := 0;
      while i < n
        invariant i <= n && Copied(old(store.mem), store.mem, dst, src, i)
      {
        CopyOne(old(store.mem), store.mem, dst, src, i);
        store.mem := store.mem[dst + i := Byte(store.mem, src + i)];
        i := i + 1;
      }
    }
  }
}
