/** Variable-size memory pools: blocks are cut from a pool and given back in any order. */
module MemoryPools {
  import opened Tasks
  import opened Areas
  import opened Memories
  import opened Heaps
  import opened Stores
  import opened Blocks
  import Q = QueueLinks

  class Pool {
    const mplsz: nat
    const store: Store

    ghost function H(): Heap
      reads this, store
    {
      store.H()
    }

    ghost function P(): Paged
      reads this, store
    {
      Paged(H(), store.tops, store.ends)
    }

    ghost predicate Valid()
      reads this, store
    {
      store.Valid()
    }

    /** `init_mempool`: one free area. */
    constructor (mempool: Addr, mplsz: nat, mem: Memory)
      requires mempool > HEAD && mplsz >= MIN_FRAGMENT
      ensures Valid() && fresh(store) && this.mplsz == mplsz
      ensures FreeFor(H(), mempool, mplsz) && H().next.Keys == {HEAD, mempool, mempool + QUEUESZ + mplsz}
    {
      hide Sound, Q.Represents, FreeFor;
      this.mplsz := mplsz;
      var s := OnePage(mempool, mplsz, mem);
      store := s;
    }

    /** `get_blk`: the smallest free area that is large enough, the rest of it cut off if
        that can stand alone. */
    method GetBlk(blksz: nat) returns (blk: Option<Addr>)
      requires Valid() && blksz >= MIN_FRAGMENT
      modifies store
      ensures Valid() && store.ends == old(store.ends)
      ensures blk == None <==> forall a: int :: !FreeFor(old(H()), a, blksz)
      ensures blk == None ==> H() == old(H())
      ensures blk.Some? ==> blk.value >= QUEUESZ && HasGot(old(H()), H(), blk.value - QUEUESZ, blksz)
      ensures blk.Some? ==> GotClear(old(P()), P(), old(store.mem), store.mem, blk.value - QUEUESZ, blksz)
    {
      hide Sound, Q.Represents, FreeFor, OnlyAt, GotClear, SameAreas, Trimmed, HasGot;
      ghost var p, m := P(), store.mem;
      var aq := store.Isolate(blksz);
      if aq == None {
        return None;
      }
      ghost var p1, m1 := P(), store.mem;
      store.Allocate(aq.value, blksz);
      GotIt(p.h, p1.h, H(), aq.value, blksz);
      GotKeeps(p, p1, P(), m, m1, store.mem, aq.value, blksz);
      return Some(aq.value + QUEUESZ);
    }

    /** `rel_blk`: the block joins its free neighbours. */
    method RelBlk(blk: Addr) returns (ok: bool)
      requires Valid() && blk >= QUEUESZ && blk - QUEUESZ in H().next && blk - QUEUESZ != HEAD
      requires blk - QUEUESZ !in store.ends
      modifies store
      ensures Valid() && store.ends == old(store.ends)
      ensures ok <==> blk - QUEUESZ in old(H()).used
      ensures !ok ==> H() == old(H())
      ensures ok ==> HasFreed(old(H()), H(), blk - QUEUESZ)
      ensures ok ==> FreedClear(old(P()), P(), old(store.mem), store.mem, blk - QUEUESZ)
    {
      hide Sound, Loose, Q.Represents, HasFreed, OnlyAt, FreedClear;
      ghost var p, m := P(), store.mem;
      var aq := blk - QUEUESZ;
      if aq !in store.used {
        return false;
      }
      var b := store.Join(aq);
      ghost var h, m1 := H(), store.mem;
      store.AppendLoose(b);
      SameFreed(p.h, h, H(), aq);
      FreedKeeps(p, P(), m, m1, store.mem, aq);
      return true;
    }
  }

  /** Block `a` is new, and the content of all blocks is as it was. */
  ghost predicate GotClear(p: Paged, p': Paged, m: Memory, m': Memory, a: int, n: nat) {
    Gained(p, p', a, n) && Preserved(p, m, m', -1)
  }

  /** Block `a` has gone, and the content of all others is as it was. */
  ghost predicate FreedClear(p: Paged, p': Paged, m: Memory, m': Memory, a: int) {
    Lost(p, p', a) && Preserved(p, m, m', a)
  }

  lemma GotKeeps(p: Paged, p1: Paged, p2: Paged, m: Memory, m1: Memory, m2: Memory, a: Addr, n: nat)
    requires Sound(p.h, p.tops, p.ends) && Sound(Marked(p1, a).h, p.tops, p.ends) && Sound(p2.h, p.tops, p.ends)
    requires FreeFor(p1.h, a, n) && n >= MIN_FRAGMENT && a != HEAD && a !in p.ends
    requires p1 == p.(h := p.h.(free := p1.h.free)) && p2.tops == p.tops && p2.ends == p.ends
    requires SameAreas(Trimmed(Marked(p1, a).h, a, n), p2.h)
    requires OnlyAt(m, m1, {}, p1.h.next.Keys - p1.h.used) && OnlyAt(m1, m2, p2.h.next.Keys, p2.h.next.Keys - p2.h.used)
    ensures GotClear(p, p2, m, m2, a, n)
  {
    hide Sound, OnlyAt, Trimmed, SameAreas, Noted;
    var q := Marked(p1, a);
    NotedFound(p1, m, m1, a);
    TrimmedStay(q, p2, a, n);
    assert OthersStay(p, q, a);
    StayTwice(p, q, p2, a);
    NotedFrees(p2, m1, m2, p2.h.next.Keys, p2.h.next.Keys - p2.h.used, -1);
    GainedKeeps(p, q, p2, m, m1, m2, a, n);
  }

  lemma FreedKeeps(p: Paged, p': Paged, m: Memory, m1: Memory, m2: Memory, a: int)
    requires Sound(p.h, p.tops, p.ends) && Sound(p'.h, p'.tops, p'.ends) && Live(p, a)
    requires HasFreed(p.h, p'.h, a) && p'.tops == p.tops && p'.ends == p.ends
    requires OnlyAt(m, m1, p.h.next.Keys, p.h.next.Keys - p.h.used + {a as nat})
    requires OnlyAt(m1, m2, p'.h.next.Keys, p'.h.next.Keys - p'.h.used)
    ensures FreedClear(p, p', m, m2, a)
  {
    hide Sound, OnlyAt, HasFreed, Noted;
    JoinedStay(p, p', a);
    NotedFrees(p, m, m1, p.h.next.Keys, p.h.next.Keys - p.h.used + {a as nat}, a);
    NotedFrees(p', m1, m2, p'.h.next.Keys, p'.h.next.Keys - p'.h.used, -1);
    LostKeeps(p, p', m, m1, m2, a);
  }

  /** One page for the whole pool, one free area in it. */
  method OnePage(tp: Addr, mplsz: nat, mem: Memory) returns (s: Store)
    requires tp > HEAD && mplsz >= MIN_FRAGMENT
    ensures fresh(s) && s.Valid() && FreeFor(s.H(), tp, mplsz) && s.next.Keys == {HEAD, tp, tp + QUEUESZ + mplsz}
  {
    hide Sound, Q.Represents, PagedNext, FreshPage;
    s := new Store(mplsz / 4, mem);
    var ep := tp + QUEUESZ + mplsz;
    OnlyHead(tp, ep);
    PagedIs(s.next, tp, ep);
    s.AddPage(tp, ep);
    s.AppendTop(tp);
  }

  lemma OnlyHead(t: Addr, e: Addr)
    requires HEAD < t && t + QUEUESZ + MIN_FRAGMENT <= e
    ensures FreshPage(map[HEAD := HEAD], {}, t, e)
  {
  }

  lemma GotIt(h: Heap, h1: Heap, h2: Heap, a: Addr, blksz: nat)
    requires h1 == h.(free := h1.free) && FreeFor(h1, a, blksz)
    requires forall b: int :: FreeFor(h1, b, blksz) ==> Size(h1.next, a) <= Size(h1.next, b)
    requires SameAreas(Trimmed(h1.(used := h1.used + {a}), a, blksz), h2)
    ensures HasGot(h, h2, a, blksz)
  {
    forall b: int ensures FreeFor(h, b, blksz) <==> FreeFor(h1, b, blksz) {
    }
  }

  lemma SameFreed(h: Heap, h1: Heap, h2: Heap, a: Addr)
    requires HasFreed(h, h1, a) && SameAreas(h1, h2)
    ensures HasFreed(h, h2, a)
  {
  }
}
