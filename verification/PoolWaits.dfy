/** A memory pool and the tasks that wait for a block of it. */
module PoolWaits {
  import opened Tasks
  import opened Sequences
  import opened WaitQueues
  import opened Areas
  import opened Memories
  import opened Heaps
  import opened MemoryPools
  import Q = QueueLinks

  /** A waiting task and the rounded size it asks for. */
  type Waiter = Entry<nat>

  datatype GetResult = GotBlock(blk: Addr) | MustWait | GetError(ercd: MplErcd)

  datatype MplErcd = E_PAR | E_TMOUT

  /** `roundSize`. */
  function RoundSize(sz: nat): (r: nat)
    ensures r >= sz && r >= MIN_FRAGMENT && r % QUEUESZ == 0
    ensures r < (if sz < MIN_FRAGMENT then MIN_FRAGMENT else sz) + QUEUESZ
  {
    ((if sz < MIN_FRAGMENT then MIN_FRAGMENT else sz) + QUEUESZ - 1) / QUEUESZ * QUEUESZ
  }

  ghost predicate Rounded(q: seq<Waiter>) {
    forall w :: w in q ==> w.what >= MIN_FRAGMENT
  }

  lemma RestIsFine(tpri: bool, q: seq<Waiter>, i: nat)
    requires i < |q| && Rounded(q) && InTurn(tpri, q)
    ensures q[i].what >= MIN_FRAGMENT && Rounded(RemoveAt(q, i)) && InTurn(tpri, RemoveAt(q, i))
  {
    CutInTurn(tpri, q, i);
  }

  lemma JoinedIsFine(q: seq<Waiter>, q': seq<Waiter>, w: Waiter)
    requires Rounded(q) && w.what >= MIN_FRAGMENT && forall x :: x in q' <==> x in q || x == w
    ensures Rounded(q')
  {
  }

  /** If block `b` was in use, it is in use still, of the same size. */
  ghost predicate StaysAt(h: Heap, h': Heap, b: int) {
    InUse(h, b, 0) ==> InUse(h', b, 0) && h'.next[b] == h.next[b]
  }

  ghost predicate BlocksStay(h: Heap, h': Heap) {
    forall b: int :: StaysAt(h, h', b)
  }

  /** Task and block of `g` are right: large enough and not in use before. */
  ghost predicate GrantedAt(h: Heap, h': Heap, w: Waiter, g: (Task, Addr)) {
    g.0 == w.task && InUse(h', g.1 - QUEUESZ, w.what) && !InUse(h, g.1 - QUEUESZ, 0)
  }

  /** No block has come into use but the granted ones. */
  ghost predicate OnlyGranted(h: Heap, h': Heap, granted: seq<(Task, Addr)>) {
    forall b: int :: InUse(h', b, 0) && !InUse(h, b, 0) ==>
      exists k :: 0 <= k < |granted| && granted[k].1 - QUEUESZ == b
  }

  ghost predicate Distinct(granted: seq<(Task, Addr)>) {
    forall i, k :: 0 <= i < k < |granted| ==> granted[i].1 != granted[k].1
  }

  /** One block after the other was cut from the smallest area that was large enough. */
  ghost predicate OneByOne(h: Heap, h': Heap, q: seq<Waiter>, granted: seq<(Task, Addr)>) {
    |granted| <= |q| && exists hs :: CutIn(hs, h, h', q, granted)
  }

  ghost predicate CutIn(hs: seq<Heap>, h: Heap, h': Heap, q: seq<Waiter>, granted: seq<(Task, Addr)>) {
    && |granted| <= |q| && |hs| == |granted| + 1 && hs[0] == h && hs[|granted|] == h'
    && forall k :: 0 <= k < |granted| ==> HasGot(hs[k], hs[k + 1], granted[k].1 - QUEUESZ, q[k].what)
  }

  lemma OneMoreCut(h: Heap, h1: Heap, h2: Heap, q: seq<Waiter>, granted: seq<(Task, Addr)>, g: (Task, Addr))
    requires OneByOne(h, h1, q, granted) && |granted| < |q| && HasGot(h1, h2, g.1 - QUEUESZ, q[|granted|].what)
    ensures OneByOne(h, h2, q, granted + [g])
  {
    hide HasGot;
    var hs :| CutIn(hs, h, h1, q, granted);
    assert CutIn(hs + [h2], h, h2, q, granted + [g]);
  }

  /** The first tasks of the queue, in this order, have a block each that is large enough: no
      two the same, none that was in use before; and nothing else has changed for blocks. */
  ghost predicate Served(h: Heap, h': Heap, q: seq<Waiter>, granted: seq<(Task, Addr)>) {
    && |granted| <= |q| && BlocksStay(h, h') && Distinct(granted) && OnlyGranted(h, h', granted)
    && OneByOne(h, h', q, granted)
    && forall k :: 0 <= k < |granted| ==> GrantedAt(h, h', q[k], granted[k])
  }

  lemma ServedNobody(h: Heap, q: seq<Waiter>)
    ensures Served(h, h, q, [])
  {
    assert CutIn([h], h, h, q, []);
  }

  /** One more task is served. */
  lemma ServedOneMore(h: Heap, h1: Heap, h2: Heap, tops: set<Addr>, ends: set<Addr>, q: seq<Waiter>,
                      granted: seq<(Task, Addr)>, blk: Addr)
    requires Served(h, h1, q, granted) && |granted| < |q| && q[|granted|].what >= MIN_FRAGMENT
    requires HasGot(h1, h2, blk - QUEUESZ, q[|granted|].what) && Sound(h1, tops, ends)
    ensures Served(h, h2, q, granted + [(q[|granted|].task, blk)])
  {
    hide Sound, HasGot, InUse, BlocksStay, Distinct, OnlyGranted, StaysAt, OneByOne;
    OneMoreCut(h, h1, h2, q, granted, (q[|granted|].task, blk));
    var a, w := blk - QUEUESZ, q[|granted|];
    var g := granted + [(w.task, blk)];
    GotIsInUse(h1, h2, tops, ends, a, w.what);
    GotStays(h1, h2, tops, ends, a, w.what);
    NotBefore(h, h1, a);
    forall k | 0 <= k < |granted| ensures GrantedAt(h, h2, q[k], granted[k]) && granted[k].1 - QUEUESZ != a {
      InUseStays(h1, h2, tops, ends, a, w.what, granted[k].1 - QUEUESZ, q[k].what);
    }
    assert Distinct(g) by {
      DistinctWith(granted, (w.task, blk));
    }
    StaysTwice(h, h1, h2);
    OnlyOneMore(h, h1, h2, tops, ends, w.what, granted, (w.task, blk));
  }

  lemma DistinctWith(granted: seq<(Task, Addr)>, g: (Task, Addr))
    requires Distinct(granted) && forall k :: 0 <= k < |granted| ==> granted[k].1 != g.1
    ensures Distinct(granted + [g])
  {
  }

  lemma GotStays(h: Heap, h': Heap, tops: set<Addr>, ends: set<Addr>, a: int, blksz: nat)
    requires HasGot(h, h', a, blksz) && blksz >= MIN_FRAGMENT && Sound(h, tops, ends)
    ensures BlocksStay(h, h')
  {
    hide Sound, HasGot, InUse;
    forall b: int ensures StaysAt(h, h', b) {
      if InUse(h, b, 0) {
        InUseStays(h, h', tops, ends, a, blksz, b, 0);
      }
    }
  }

  lemma NotBefore(h: Heap, h': Heap, a: int)
    requires BlocksStay(h, h') && !InUse(h', a, 0)
    ensures !InUse(h, a, 0)
  {
    assert StaysAt(h, h', a);
  }

  lemma StaysTwice(h: Heap, h1: Heap, h2: Heap)
    requires BlocksStay(h, h1) && BlocksStay(h1, h2)
    ensures BlocksStay(h, h2)
  {
    hide InUse;
    forall b: int ensures StaysAt(h, h2, b) {
      assert StaysAt(h, h1, b) && StaysAt(h1, h2, b);
    }
  }

  lemma OnlyOneMore(h: Heap, h1: Heap, h2: Heap, tops: set<Addr>, ends: set<Addr>, blksz: nat,
                    granted: seq<(Task, Addr)>, g: (Task, Addr))
    requires OnlyGranted(h, h1, granted) && HasGot(h1, h2, g.1 - QUEUESZ, blksz) && blksz >= MIN_FRAGMENT
    requires Sound(h1, tops, ends)
    ensures OnlyGranted(h, h2, granted + [g])
  {
    hide Sound, HasGot, InUse;
    var gs := granted + [g];
    forall b: int | InUse(h2, b, 0) && !InUse(h, b, 0) ensures exists k :: 0 <= k < |gs| && gs[k].1 - QUEUESZ == b {
      if b == g.1 - QUEUESZ {
        assert gs[|granted|].1 - QUEUESZ == b;
      } else {
        OnlyGot(h1, h2, tops, ends, g.1 - QUEUESZ, blksz, b);
        var k :| 0 <= k < |granted| && granted[k].1 - QUEUESZ == b;
        assert gs[k] == granted[k];
      }
    }
  }

  /** Whatever else is in use was in use. */
  lemma OnlyGot(h: Heap, h': Heap, tops: set<Addr>, ends: set<Addr>, a: int, blksz: nat, b: int)
    requires HasGot(h, h', a, blksz) && InUse(h', b, 0) && b != a && blksz >= MIN_FRAGMENT && Sound(h, tops, ends)
    ensures InUse(h, b, 0)
  {
    hide NoFreeNeighbours, Chain, FreeQueue;
    LiveBlocksStay(h, tops, ends, a, b, blksz);
  }

  lemma UsedAreas(h: Heap, tops: set<Addr>, ends: set<Addr>)
    requires Sound(h, tops, ends)
    ensures h.used <= h.next.Keys
  {
    hide NoFreeNeighbours, Chain, FreeQueue;
  }

  class MemoryPool {
    const tpri: bool
    const pool: Pool
    var wait_queue: seq<Waiter>

    ghost predicate Valid()
      reads this, pool, pool.store
    {
      pool.Valid() && Rounded(wait_queue) && InTurn(tpri, wait_queue) && HeadMustWait()
    }

    /** No free area is large enough for the first waiting task. */
    ghost predicate HeadMustWait()
      reads this, pool, pool.store
    {
      wait_queue != [] ==> forall a: int :: !FreeFor(pool.H(), a, wait_queue[0].what)
    }

    constructor (mempool: Addr, mplsz: nat, mem: Memory, tpri: bool)
      requires mempool > HEAD && mplsz >= MIN_FRAGMENT
      ensures Valid() && wait_queue == [] && fresh(pool) && fresh(pool.store) && this.tpri == tpri
    {
      hide Sound, Q.Represents, FreeFor;
      this.tpri := tpri;
      pool := new Pool(mempool, mplsz, mem);
      wait_queue := [];
    }

    /** `mpl_wakeup`: as long as the first task can be served, it is. */
    method Wakeup() returns (granted: seq<(Task, Addr)>)
      requires pool.Valid() && Rounded(wait_queue) && InTurn(tpri, wait_queue)
      modifies this`wait_queue, pool.store
      ensures Valid() && pool.store.ends == old(pool.store.ends)
      ensures Served(old(pool.H()), pool.H(), old(wait_queue), granted)
      ensures wait_queue == old(wait_queue)[|granted|..]
    {
      hide Sound, Q.Represents, FreeFor, Rounded, InTurn, Largest, HasGot, Served;
      granted := [];
      ServedNobody(pool.H(), wait_queue);
      ServedSize(pool.H(), pool.H(), wait_queue, granted);
      while wait_queue != []
        invariant pool.Valid() && Rounded(wait_queue) && InTurn(tpri, wait_queue)
        invariant pool.store.ends == old(pool.store.ends)
        invariant |granted| <= |old(wait_queue)| && wait_queue == old(wait_queue)[|granted|..]
        invariant Served(old(pool.H()), pool.H(), old(wait_queue), granted)
        decreases |wait_queue|
      {
        var top := wait_queue[0];
        RestIsFine(tpri, wait_queue, 0);
        assert RemoveAt(wait_queue, 0) == wait_queue[1..];
        var max := pool.store.MaxFreeSize();
        LargestMeans(pool.H(), max, top.what);
        if top.what > max {
          return;
        }
        ghost var h, tops, ends := pool.H(), pool.store.tops, pool.store.ends;
        var blk := pool.GetBlk(top.what);
        ServedOneMore(old(pool.H()), h, pool.H(), tops, ends, old(wait_queue), granted, blk.value);
        granted := granted + [(top.task, blk.value)];
        wait_queue := wait_queue[1..];
      }
    }

    /** `_tk_get_mpl`, called by task `t` of priority `pri`. */
    method GetMpl(t: Task, pri: nat, sz: nat, poll: bool) returns (r: GetResult)
      requires Valid()
      modifies this`wait_queue, pool.store
      ensures Valid()
      ensures r == GetError(E_PAR) <==> sz == 0 || RoundSize(sz) > pool.mplsz
      ensures r.GetError? ==> wait_queue == old(wait_queue) && pool.H() == old(pool.H())
      ensures r.MustWait? || r == GetError(E_TMOUT) ==>
                !(old(WouldBeFirst(tpri, wait_queue, pri)) && exists a: int :: FreeFor(old(pool.H()), a, RoundSize(sz)))
      ensures r == GetError(E_TMOUT) ==> poll
      ensures r.GotBlock? ==>
                && old(WouldBeFirst(tpri, wait_queue, pri)) && wait_queue == old(wait_queue)
                && HasGot(old(pool.H()), pool.H(), r.blk - QUEUESZ, RoundSize(sz))
      ensures r.MustWait? ==>
                && !poll && pool.H() == old(pool.H())
                && Joined(tpri, old(wait_queue), wait_queue, Entry(t, pri, RoundSize(sz)))
    {
      hide Sound, Q.Represents, FreeFor, Rounded, InTurn, Joined;
      var blksz := RoundSize(sz);
      if sz == 0 || blksz > pool.mplsz {
        return GetError(E_PAR);
      }
      if WouldBeFirst(tpri, wait_queue, pri) {
        var blk := pool.GetBlk(blksz);
        if blk.Some? {
          if wait_queue != [] {
            NoneMoreIsFree(old(pool.H()), pool.H(), blk.value - QUEUESZ, blksz, wait_queue[0].what);
          }
          return GotBlock(blk.value);
        }
      }
      if poll {
        return GetError(E_TMOUT);
      }
      wait_queue := Join(tpri, wait_queue, Entry(t, pri, blksz));
      JoinedIsFine(old(wait_queue), wait_queue, Entry(t, pri, blksz));
      return MustWait;
    }

    /** Whether `blk` lies between the first and the last area of the pool. */
    predicate InRange(blk: Addr)
      reads this, pool, pool.store
    {
      && HEAD in pool.store.next && HEAD in pool.store.prev
      && pool.store.next[HEAD] <= blk <= pool.store.prev[HEAD]
    }

    /** `_tk_rel_mpl`: an address outside the pool is refused, and so is that of an area that
        is not in use. */
    method RelMpl(blk: Addr) returns (ok: bool, granted: seq<(Task, Addr)>)
      requires Valid()
      requires InRange(blk) ==>
                 blk >= QUEUESZ && blk - QUEUESZ in pool.H().next && blk - QUEUESZ != HEAD
                     && blk - QUEUESZ !in pool.store.ends
      modifies this`wait_queue, pool.store
      ensures Valid() && (ok <==> old(InRange(blk)) && blk - QUEUESZ in old(pool.H()).used)
      ensures !ok ==> wait_queue == old(wait_queue) && pool.H() == old(pool.H()) && granted == []
      ensures ok ==> ReturnedAndServed(old(pool.H()), pool.H(), blk - QUEUESZ, old(wait_queue), granted)
      ensures |granted| <= |old(wait_queue)| && wait_queue == old(wait_queue)[|granted|..]
    {
      hide Sound, Q.Represents, FreeFor, Rounded, InTurn, Served, HasFreed, ReturnedAndServed;
      granted := [];
      HeadIsThere(pool.H(), pool.store.tops, pool.store.ends);
      if blk < pool.store.next[HEAD] || blk > pool.store.prev[HEAD] {
        return false, [];
      }
      ghost var h, tops, ends := pool.H(), pool.store.tops, pool.store.ends;
      ok := pool.RelBlk(blk);
      if ok {
        ghost var h1 := pool.H();
        granted := Wakeup();
        ServedSize(h1, pool.H(), old(wait_queue), granted);
        OthersAreKept(h, h1, pool.H(), tops, ends, blk - QUEUESZ, old(wait_queue), granted);
      }
    }

    /** A waiting task gives up; the next one may ask for less. */
    method ReleaseWaiter(i: nat) returns (granted: seq<(Task, Addr)>)
      requires Valid() && i < |wait_queue|
      modifies this`wait_queue, pool.store
      ensures Valid() && |granted| < |old(wait_queue)|
      ensures wait_queue == old(RemoveAt(wait_queue, i))[|granted|..]
      ensures Served(old(pool.H()), pool.H(), old(RemoveAt(wait_queue, i)), granted)
    {
      hide Sound, Q.Represents, FreeFor, Rounded, InTurn, Served;
      RestIsFine(tpri, wait_queue, i);
      wait_queue := RemoveAt(wait_queue, i);
      ghost var q := wait_queue;
      granted := Wakeup();
      ServedSize(old(pool.H()), pool.H(), q, granted);
    }

    /** `mpl_chg_pri`: the task at place `i` has a new priority. */
    method ChgPri(i: nat, pri: nat) returns (granted: seq<(Task, Addr)>)
      requires Valid() && i < |wait_queue| && tpri
      modifies this`wait_queue, pool.store
      ensures Valid()
      ensures exists q :: Joined(true, old(RemoveAt(wait_queue, i)), q, old(wait_queue[i].(pri := pri)))
                && |granted| <= |q| && wait_queue == q[|granted|..] && Served(old(pool.H()), pool.H(), q, granted)
    {
      hide Sound, Q.Represents, FreeFor, Rounded, InTurn, Joined, Served;
      RestIsFine(tpri, wait_queue, i);
      var w := wait_queue[i].(pri := pri);
      ghost var others := RemoveAt(wait_queue, i);
      wait_queue := Join(tpri, RemoveAt(wait_queue, i), w);
      JoinedIsFine(others, wait_queue, w);
      ghost var q := wait_queue;
      granted := Wakeup();
      ServedSize(old(pool.H()), pool.H(), q, granted);
    }
  }

  lemma ServedSize(h: Heap, h': Heap, q: seq<Waiter>, granted: seq<(Task, Addr)>)
    requires Served(h, h', q, granted)
    ensures |granted| <= |q|
  {
  }

  lemma HeadIsThere(h: Heap, tops: set<Addr>, ends: set<Addr>)
    requires Sound(h, tops, ends)
    ensures HEAD in h.next && HEAD in h.prev
  {
    hide Bounded, NoFreeNeighbours, FreeQueue, Roomy, Apart;
  }

  /** Block `a` has gone back, which served the first tasks of the queue; all other blocks in
      use are in use still, of the same size. */
  ghost predicate ReturnedAndServed(h: Heap, h': Heap, a: int, q: seq<Waiter>, granted: seq<(Task, Addr)>) {
    && (exists h1 :: HasFreed(h, h1, a) && Served(h1, h', q, granted))
    && (forall b: int :: b != a ==> StaysAt(h, h', b))
  }

  lemma OthersAreKept(h: Heap, h1: Heap, h2: Heap, tops: set<Addr>, ends: set<Addr>, a: int, q: seq<Waiter>,
                      granted: seq<(Task, Addr)>)
    requires a > 0 && a in h.used && a !in ends && HasFreed(h, h1, a) && Served(h1, h2, q, granted)
    requires Sound(h, tops, ends)
    ensures ReturnedAndServed(h, h2, a, q, granted)
  {
    hide Sound, Served, HasFreed, InUse;
    ServedStay(h1, h2, q, granted);
    forall b: int | b != a ensures StaysAt(h, h2, b) {
      if InUse(h, b, 0) {
        KeptInUse(h, h1, tops, ends, a, b);
      }
      assert StaysAt(h1, h2, b);
    }
  }

  lemma KeptInUse(h: Heap, h1: Heap, tops: set<Addr>, ends: set<Addr>, a: int, b: int)
    requires a > 0 && a in h.used && a !in ends && HasFreed(h, h1, a) && InUse(h, b, 0) && b != a
    requires Sound(h, tops, ends)
    ensures StaysAt(h, h1, b)
  {
    hide Sound, Freed, CanFree;
    UsedAreas(h, tops, ends);
    LiveBlocksStay(h, tops, ends, a, b, 0);
    FreedUses(h, a);
  }

  lemma ServedStay(h: Heap, h': Heap, q: seq<Waiter>, granted: seq<(Task, Addr)>)
    requires Served(h, h', q, granted)
    ensures BlocksStay(h, h')
  {
  }

  lemma FreedUses(h: Heap, a: Addr)
    requires CanFree(h, a)
    ensures Freed(h, a).used == h.used - {a}
  {
  }
}
