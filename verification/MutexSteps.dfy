/** What the system calls do to owners, lists and queues, before priorities follow. */
module MutexSteps {
  import opened Tasks
  import opened Sequences
  import W = WaitQueues
  import opened MutexState

  /* ---- A mutex goes from its owner to the first waiter. ---- */

  /** `m`, already off the list of its owner, goes to the first waiter, or to nobody. */
  function HandedOver(s: Sys, m: Mutex): Sys
    requires m < |s.queue| == |s.owner| && |s.waits| == |s.held|
    requires s.queue[m] != [] ==> s.queue[m][0] < |s.waits|
  {
    if s.queue[m] == [] then s.(owner := s.owner[m := None])
    else
      var h := s.queue[m][0];
      s.(waits := s.waits[h := None], queue := s.queue[m := s.queue[m][1..]],
         owner := s.owner[m := Some(h)], held := s.held[h := [m] + s.held[h]])
  }

  lemma FirstInShape(s: Sys, m: Mutex)
    requires Shape(s) && m < |s.queue|
    ensures s.queue[m] != [] ==> s.queue[m][0] < |s.bpri|
  {
    assert s.queue[m] != [] ==> s.queue[m][0] in s.queue[m];
  }

  /** Whoever is given a mutex waits no longer, so its rank may fall to the bottom. */
  function HandedRank(s: Sys, m: Mutex, rank: seq<nat>): seq<nat>
    requires m < |s.queue| && (s.queue[m] != [] ==> s.queue[m][0] < |rank|)
  {
    if s.queue[m] == [] then rank else rank[s.queue[m][0] := 0]
  }

  ghost predicate HandsOver(s: Sys, s': Sys, m: Mutex) {
    Shape(s) && m < |s.queue| && (s.queue[m] != [] ==> s.queue[m][0] < |s.bpri|) && s' == HandedOver(s, m)
  }

  lemma HandedShape(s: Sys, s': Sys, m: Mutex)
    requires HandsOver(s, s', m)
    ensures Shape(s')
  {
    if s.queue[m] != [] {
      forall k, u | 0 <= k < |s'.queue| && u in s'.queue[k] ensures u < |s'.bpri| {
        assert u in s.queue[k];
      }
    }
  }

  lemma Pushed(l: seq<Mutex>, m: Mutex)
    requires NoRepeats(l) && m !in l
    ensures NoRepeats([m] + l)
    ensures forall k :: k in [m] + l <==> k == m || k in l
  {
  }

  lemma HandedOwners(s: Sys, s': Sys, m: Mutex)
    requires HandsOver(s, s', m) && Shape(s') && Owners(s, Some(m))
    ensures Owners(s', None)
  {
    if s.queue[m] == [] {
      assert s'.held == s.held;
    } else {
      var h := s.queue[m][0];
      assert m !in s.held[h];
      Pushed(s.held[h], m);
      hide NoRepeats;
      assert s'.held[h] == [m] + s.held[h];
    }
  }

  lemma HandedWaiters(s: Sys, s': Sys, m: Mutex)
    requires HandsOver(s, s', m) && Shape(s') && Waiters(s)
    ensures Waiters(s')
  {
    if s.queue[m] != [] {
      assert NoRepeats(s.queue[m]) && s.queue[m][0] in s.queue[m];
    }
  }

  lemma HandedSorted(s: Sys, s': Sys, m: Mutex)
    requires HandsOver(s, s', m) && Shape(s') && Sorted(s)
    ensures Sorted(s')
  {
    forall k | 0 <= k < |s'.queue| && s'.attr[k] != TA_TFIFO ensures SortedBy(s'.queue[k], s'.pri) {
      assert SortedBy(s.queue[k], s.pri);
    }
  }

  lemma HandedRanked(s: Sys, s': Sys, m: Mutex, rank: seq<nat>)
    requires HandsOver(s, s', m) && Shape(s') && Waiters(s) && Ranked(s, rank) && s.owner[m].Some?
    ensures Ranked(s', HandedRank(s, m, rank))
  {
    var rk := HandedRank(s, m, rank);
    forall u, o | 0 <= u < |s'.waits| && 0 <= o < |s'.bpri| && WaitsFor(s', u, o) ensures rk[o] < rk[u] {
      if s.waits[u] == Some(m) {
        assert WaitsFor(s, u, s.owner[m].value);
      } else {
        assert WaitsFor(s, u, o);
      }
    }
  }

  lemma HandedLinks(s: Sys, m: Mutex, rank: seq<nat>)
    requires Links(s, Some(m), rank) && m < |s.queue| && s.owner[m].Some?
    ensures s.queue[m] != [] ==> s.queue[m][0] < |s.bpri|
    ensures Links(HandedOver(s, m), None, HandedRank(s, m, rank))
  {
    FirstInShape(s, m);
    var s' := HandedOver(s, m);
    HandedShape(s, s', m);
    hide Owners, Waiters, Sorted, Ranked, HandedOver, HandedRank;
    HandedOwners(s, s', m);
    HandedWaiters(s, s', m);
    HandedSorted(s, s', m);
    HandedRanked(s, s', m, rank);
  }

  lemma HandedCeilings(s: Sys, s': Sys, m: Mutex)
    requires HandsOver(s, s', m) && Shape(s') && Waiters(s) && Ceilings(s)
    ensures Ceilings(s')
  {
    if s.queue[m] != [] {
      assert s.queue[m][0] in s.queue[m];
    }
  }

  /** Nobody but the new owner has anything to adjust. */
  lemma HandedOthers(s: Sys, s': Sys, m: Mutex, u: Task, x: nat)
    requires HandsOver(s, s', m) && Shape(s') && Owners(s, Some(m)) && u < |s.bpri|
    requires s.queue[m] != [] ==> s.queue[m][0] != u
    ensures Least(s', u, x) <==> Least(s, u, x)
  {
    forall k | k in s.held[u] ensures k < |s.attr| && Demand(s', k) == Demand(s, k) {
      assert k != m;
    }
    SameDemands(s, s', u, x);
  }

  /** The new owner needs at most the ceiling: the tasks it was queued before ask for no
      more than it has. */
  lemma HandedNewOwner(s: Sys, s': Sys, m: Mutex, h: Task)
    requires HandsOver(s, s', m) && Shape(s') && Owners(s, Some(m)) && Sorted(s)
    requires s.queue[m] != [] && s.queue[m][0] == h && Fixed(s, h)
    requires s.attr[m] == TA_CEILING ==> s.ceil[m] <= s.bpri[h]
    ensures s.attr[m] == TA_CEILING && s.ceil[m] < s.pri[h] ==> Least(s', h, s.ceil[m])
    ensures !(s.attr[m] == TA_CEILING && s.ceil[m] < s.pri[h]) ==> Fixed(s', h)
  {
    assert s'.held[h] == [m] + s.held[h] && s'.held[h][0] == m && m !in s.held[h];
    assert m in s'.held[h] && (s.attr[m] == TA_CEILING ==> Demand(s', m) == Some(s.ceil[m]));
    forall k | k in s.held[h] ensures k in s'.held[h] && k < |s.attr| && Demand(s', k) == Demand(s, k) {
    }
    forall k | k in s'.held[h] && k != m ensures k in s.held[h] {
    }
    if s.attr[m] == TA_INHERIT {
      assert SortedBy(s.queue[m], s.pri);
    }
  }

  lemma HandedFixed(s: Sys, s': Sys, m: Mutex, x: set<Task>)
    requires HandsOver(s, s', m) && Shape(s') && Owners(s, Some(m)) && Sorted(s) && Waiters(s) && Ceilings(s)
    requires FixedExcept(s, x)
    requires forall u :: u in x && u < |s.bpri| ==> s.waits[u] == None
    ensures s.queue[m] == [] ==> FixedExcept(s', x)
    ensures s.queue[m] != [] ==> s.queue[m][0] !in x && FixedExcept(s', x + {s.queue[m][0]})
    ensures s.queue[m] != [] && !(s.attr[m] == TA_CEILING && s.ceil[m] < s.pri[s.queue[m][0]]) ==> FixedExcept(s', x)
    ensures s.queue[m] != [] && s.attr[m] == TA_CEILING && s.ceil[m] < s.pri[s.queue[m][0]] ==>
              Least(s', s.queue[m][0], s.ceil[m])
  {
    if s.queue[m] != [] {
      var h := s.queue[m][0];
      assert h in s.queue[m] && s.waits[h] == Some(m);
      HandedNewOwner(s, s', m, h);
    }
    hide Owners, Sorted, Waiters, Ceilings, Least;
    forall u | 0 <= u < |s.bpri| && u !in x && (s.queue[m] != [] ==> u != s.queue[m][0]) ensures Fixed(s', u) {
      HandedOthers(s, s', m, u, s.pri[u]);
    }
  }

  /* ---- A task takes a free mutex. ---- */

  function Taken(s: Sys, t: Task, m: Mutex): Sys
    requires m < |s.owner| && t < |s.held|
  {
    s.(owner := s.owner[m := Some(t)], held := s.held[t := [m] + s.held[t]])
  }

  lemma QueueMeansOwner(s: Sys, m: Mutex)
    requires Shape(s) && Waiters(s) && m < |s.queue|
    ensures s.queue[m] != [] ==> s.owner[m].Some?
  {
    if s.queue[m] != [] {
      var u := s.queue[m][0];
      assert u in s.queue[m];
      assert u < |s.waits| && s.waits[u] == Some(m);
    }
  }

  lemma TakenLinks(s: Sys, t: Task, m: Mutex, rank: seq<nat>)
    requires Links(s, None, rank) && t < |s.bpri| && m < |s.owner| && s.owner[m] == None
    ensures Links(Taken(s, t, m), None, rank) && s.queue[m] == []
  {
    var s' := Taken(s, t, m);
    QueueMeansOwner(s, m);
    assert Waiters(s') && Sorted(s');
    forall u, o | 0 <= u < |s'.waits| && 0 <= o < |s'.bpri| && WaitsFor(s', u, o) ensures rank[o] < rank[u] {
      assert WaitsFor(s, u, o);
    }
    TakenOwners(s, t, m);
  }

  lemma TakenOwners(s: Sys, t: Task, m: Mutex)
    requires Shape(s) && Owners(s, None) && t < |s.bpri| && m < |s.owner| && s.owner[m] == None
    ensures Shape(Taken(s, t, m)) && Owners(Taken(s, t, m), None)
  {
    assert m !in s.held[t];
  }

  lemma TakenFixed(s: Sys, t: Task, m: Mutex)
    requires Shape(s) && Owners(s, None) && t < |s.bpri| && m < |s.owner| && s.owner[m] == None && s.queue[m] == []
    requires FixedExcept(s, {}) && (s.attr[m] == TA_CEILING ==> s.ceil[m] <= s.bpri[t])
    ensures Shape(Taken(s, t, m)) && FixedExcept(Taken(s, t, m), {t})
    ensures s.attr[m] == TA_CEILING && s.ceil[m] < s.pri[t] ==> Least(Taken(s, t, m), t, s.ceil[m])
    ensures !(s.attr[m] == TA_CEILING && s.ceil[m] < s.pri[t]) ==> FixedExcept(Taken(s, t, m), {})
  {
    TakenOwners(s, t, m);
    var s' := Taken(s, t, m);
    forall u | 0 <= u < |s.bpri| && u != t ensures Fixed(s', u) {
      assert Fixed(s, u);
      SameDemands(s, s', u, s.pri[u]);
    }
    assert Fixed(s, t);
    hide FixedExcept, Owners;
    TakenNewOwner(s, t, m);
  }

  lemma TakenNewOwner(s: Sys, t: Task, m: Mutex)
    requires Shape(s) && t < |s.bpri| && m < |s.owner| && s.queue[m] == [] && Fixed(s, t)
    requires s.attr[m] == TA_CEILING ==> s.ceil[m] <= s.bpri[t]
    requires Shape(Taken(s, t, m))
    ensures s.attr[m] == TA_CEILING && s.ceil[m] < s.pri[t] ==> Least(Taken(s, t, m), t, s.ceil[m])
    ensures !(s.attr[m] == TA_CEILING && s.ceil[m] < s.pri[t]) ==> Fixed(Taken(s, t, m), t)
  {
    var s' := Taken(s, t, m);
    assert s'.held[t][0] == m && s'.held[t] == [m] + s.held[t];
    assert m in s'.held[t] && (s.attr[m] == TA_CEILING ==> Demand(s', m) == Some(s.ceil[m]));
    forall k | k in s.held[t] ensures k in s'.held[t] {
    }
  }

  lemma TakenCeilings(s: Sys, t: Task, m: Mutex)
    requires Shape(s) && t < |s.bpri| && m < |s.owner| && Shape(Taken(s, t, m)) && Ceilings(s)
    requires s.attr[m] == TA_CEILING ==> s.ceil[m] <= s.bpri[t]
    ensures Ceilings(Taken(s, t, m))
  {
  }

  /* ---- A task starts to wait. ---- */

  ghost predicate Enqueued(s: Sys, s': Sys, t: Task, m: Mutex)
    requires Shape(s) && t < |s.bpri| && m < |s.queue|
  {
    && s' == s.(waits := s.waits[t := Some(m)], queue := s'.queue) && |s'.queue| == |s.queue|
    && (forall k :: 0 <= k < |s.queue| && k != m ==> s'.queue[k] == s.queue[k])
    && (forall u :: u in s'.queue[m] <==> u in s.queue[m] || u == t) && NoRepeats(s'.queue[m])
    && if s.attr[m] == TA_TFIFO then s'.queue[m] == s.queue[m] + [t] else SortedBy(s'.queue[m], s'.pri)
  }

  lemma EnqueuedWaiters(s: Sys, s': Sys, t: Task, m: Mutex)
    requires Shape(s) && t < |s.bpri| && m < |s.queue| && Enqueued(s, s', t, m)
    requires Waiters(s) && s.waits[t] == None && s.owner[m].Some?
    ensures Shape(s') && Waiters(s')
  {
    forall k, u | 0 <= k < |s'.queue| && u in s'.queue[k] ensures u < |s'.bpri| {
      assert u == t || u in s.queue[k];
    }
    assert forall k :: 0 <= k < |s.queue| ==> NoRepeats(s'.queue[k]);
    forall k, u | 0 <= k < |s'.queue| && 0 <= u < |s'.waits| ensures u in s'.queue[k] <==> s'.waits[u] == Some(k) {
      assert u in s.queue[k] <==> s.waits[u] == Some(k);
    }
  }

  lemma EnqueuedOwners(s: Sys, s': Sys, t: Task, m: Mutex)
    requires Shape(s) && Shape(s') && t < |s.bpri| && m < |s.queue| && Enqueued(s, s', t, m) && Owners(s, None)
    ensures Owners(s', None)
  {
    hide Shape, Owners;
    OwnersSame(s, s', None);
  }

  lemma EnqueuedSorted(s: Sys, s': Sys, t: Task, m: Mutex)
    requires Shape(s) && Shape(s') && t < |s.bpri| && m < |s.queue| && Enqueued(s, s', t, m) && Sorted(s)
    ensures Sorted(s')
  {
  }

  lemma EnqueuedLinks(s: Sys, s': Sys, t: Task, m: Mutex, rank: seq<nat>)
    requires Links(s, None, rank) && t < |s.bpri| && m < |s.queue| && Enqueued(s, s', t, m)
    requires s.waits[t] == None && s.owner[m].Some? && rank[s.owner[m].value] < rank[t]
    ensures Links(s', None, rank)
  {
    hide Owners, Waiters, Sorted;
    EnqueuedWaiters(s, s', t, m);
    EnqueuedOwners(s, s', t, m);
    EnqueuedSorted(s, s', t, m);
    forall u, o | 0 <= u < |s'.waits| && 0 <= o < |s'.bpri| && WaitsFor(s', u, o) ensures rank[o] < rank[u] {
      assert u != t ==> WaitsFor(s, u, o);
    }
  }

  lemma EnqueuedOthers(s: Sys, s': Sys, t: Task, m: Mutex, u: Task, x: nat)
    requires Shape(s) && Shape(s') && t < |s.bpri| && m < |s.queue| && Enqueued(s, s', t, m) && Owners(s, None)
    requires u < |s.bpri| && (m in s.held[u] ==> s.attr[m] != TA_INHERIT)
    ensures Least(s', u, x) <==> Least(s, u, x)
  {
    forall k | k in s.held[u] ensures k < |s.attr| && Demand(s', k) == Demand(s, k) {
    }
    SameDemands(s, s', u, x);
  }

  /** The owner `o`, raised to the new waiter's priority if that is more urgent, is settled. */
  lemma EnqueuedOwner(s: Sys, s': Sys, t: Task, m: Mutex, o: Task, y: nat)
    requires Shape(s) && Shape(s') && t < |s.bpri| && m < |s.queue| && Enqueued(s, s', t, m)
    requires Owners(s, None) && Sorted(s) && Sorted(s') && Waiters(s) && s.waits[t] == None
    requires s.owner[m] == Some(o) && s.attr[m] == TA_INHERIT && Least(s, o, y)
    requires s.pri[o] == if y > s.pri[t] then s.pri[t] else y
    ensures Fixed(s', o)
  {
    assert m in s.held[o];
    EnqueuedDemand(s, s', t, m);
    forall k | k in s.held[o] ensures k < |s.attr| && (k != m ==> Demand(s', k) == Demand(s, k)) {
    }
    hide Owners, Sorted, Waiters, Enqueued, Demand;
  }

  /** The new waiter is the first if it is the most urgent. */
  lemma EnqueuedDemand(s: Sys, s': Sys, t: Task, m: Mutex)
    requires Shape(s) && Shape(s') && t < |s.bpri| && m < |s.queue| && Enqueued(s, s', t, m)
    requires Sorted(s) && Sorted(s') && s.attr[m] == TA_INHERIT
    ensures s'.pri == s.pri && s'.bpri == s.bpri && s'.held == s.held
    ensures Demand(s', m) == match Demand(s, m) case None => Some(s.pri[t])
                             case Some(d) => Some(if d <= s.pri[t] then d else s.pri[t])
  {
    assert t in s'.queue[m];
    HeadIsLeast(s', m, t);
    var h :| h in s'.queue[m] && Demand(s', m) == Some(s'.pri[h]);
    if h != t {
      HeadIsLeast(s, m, h);
    }
    if s.queue[m] != [] {
      assert s.queue[m][0] in s.queue[m] && s.queue[m][0] in s'.queue[m];
      HeadIsLeast(s', m, s.queue[m][0]);
    }
  }

  /* ---- A task stops waiting without the mutex. ---- */

  ghost predicate Dequeued(s: Sys, s': Sys, t: Task, m: Mutex)
    requires Shape(s) && t < |s.bpri| && m < |s.queue|
  {
    && s' == s.(waits := s.waits[t := None], queue := s'.queue) && |s'.queue| == |s.queue|
    && (forall k :: 0 <= k < |s.queue| && k != m ==> s'.queue[k] == s.queue[k])
    && (forall u :: u in s'.queue[m] <==> u in s.queue[m] && u != t) && NoRepeats(s'.queue[m])
    && (SortedBy(s.queue[m], s.pri) ==> SortedBy(s'.queue[m], s.pri))
    && (s.queue[m] != [] && s.queue[m][0] != t ==> s'.queue[m] != [] && s'.queue[m][0] == s.queue[m][0])
    && s'.queue[m] == Dropped(s.queue[m], Some(t))
  }

  lemma DequeuedWaiters(s: Sys, s': Sys, t: Task, m: Mutex)
    requires Shape(s) && t < |s.bpri| && m < |s.queue| && Dequeued(s, s', t, m)
    requires Waiters(s) && s.waits[t] == Some(m)
    ensures Shape(s') && Waiters(s')
  {
    forall k, u | 0 <= k < |s'.queue| && u in s'.queue[k] ensures u < |s'.bpri| {
      assert u in s.queue[k];
    }
    assert forall k :: 0 <= k < |s.queue| ==> NoRepeats(s'.queue[k]);
    forall k, u | 0 <= k < |s'.queue| && 0 <= u < |s'.waits| ensures u in s'.queue[k] <==> s'.waits[u] == Some(k) {
      assert u in s.queue[k] <==> s.waits[u] == Some(k);
    }
  }

  lemma DequeuedLinks(s: Sys, s': Sys, t: Task, m: Mutex, rank: seq<nat>, loose: Option<Mutex>)
    requires Links(s, loose, rank) && t < |s.bpri| && m < |s.queue| && Dequeued(s, s', t, m) && s.waits[t] == Some(m)
    ensures Links(s', loose, rank)
  {
    DequeuedWaiters(s, s', t, m);
    hide Waiters;
    DequeuedRest(s, s', t, m, rank, loose);
  }

  lemma DequeuedRest(s: Sys, s': Sys, t: Task, m: Mutex, rank: seq<nat>, loose: Option<Mutex>)
    requires Shape(s) && Shape(s') && t < |s.bpri| && m < |s.queue| && Dequeued(s, s', t, m)
    requires Owners(s, loose) && Sorted(s) && Ranked(s, rank)
    ensures Owners(s', loose) && Sorted(s') && Ranked(s', rank)
  {
    assert Sorted(s') by {
      hide Owners, Ranked;
      forall k | 0 <= k < |s'.queue| && s'.attr[k] != TA_TFIFO ensures SortedBy(s'.queue[k], s'.pri) {
      }
    }
    hide Sorted, Owners;
    OwnersSame(s, s', loose);
    forall u, o | 0 <= u < |s'.waits| && 0 <= o < |s'.bpri| && WaitsFor(s', u, o) ensures rank[o] < rank[u] {
      assert WaitsFor(s, u, o);
    }
  }

  lemma DequeuedOthers(s: Sys, s': Sys, t: Task, m: Mutex, u: Task, x: nat, loose: Option<Mutex>)
    requires Shape(s) && Shape(s') && t < |s.bpri| && m < |s.queue| && Dequeued(s, s', t, m) && Owners(s, loose)
    requires u < |s.bpri| && (m in s.held[u] ==> s.attr[m] != TA_INHERIT)
    ensures Least(s', u, x) <==> Least(s, u, x)
  {
    forall k | k in s.held[u] ensures k < |s.attr| && Demand(s', k) == Demand(s, k) {
    }
    SameDemands(s, s', u, x);
  }

  /** An owner whose priority is not that of the leaving waiter does not owe it to it. */
  lemma DequeuedOwner(s: Sys, s': Sys, t: Task, m: Mutex, o: Task)
    requires Shape(s) && Shape(s') && t < |s.bpri| && m < |s.queue| && Dequeued(s, s', t, m)
    requires Owners(s, None) && Sorted(s) && Waiters(s) && s.waits[t] == Some(m)
    requires s.owner[m] == Some(o) && s.attr[m] == TA_INHERIT && Fixed(s, o) && s.pri[o] != s.pri[t]
    ensures Fixed(s', o)
  {
    assert m in s.held[o] && t in s.queue[m];
    assert SortedBy(s.queue[m], s.pri);
    if s'.queue[m] != [] {
      assert s'.queue[m][0] in s'.queue[m] && s'.queue[m][0] in s.queue[m];
      HeadIsLeast(s, m, s'.queue[m][0]);
    }
    forall k | k in s.held[o] ensures k != m ==> Demand(s', k) == Demand(s, k) {
    }
  }

  /* ---- The base priority changes. ---- */

  lemma RebasedLinks(s: Sys, t: Task, p: nat, rank: seq<nat>)
    requires Links(s, None, rank) && t < |s.bpri|
    ensures Links(s.(bpri := s.bpri[t := p]), None, rank)
  {
    var s' := s.(bpri := s.bpri[t := p]);
    assert Owners(s', None);
    assert Waiters(s');
    assert Sorted(s');
    RankedSame(s, s', rank);
  }

  lemma RebasedFixed(s: Sys, t: Task, p: nat)
    requires Shape(s) && t < |s.bpri| && FixedExcept(s, {})
    ensures FixedExcept(s.(bpri := s.bpri[t := p]), {t})
  {
    var s' := s.(bpri := s.bpri[t := p]);
    forall u | 0 <= u < |s.bpri| && u != t ensures Fixed(s', u) {
      assert Fixed(s, u);
      forall m | m in s.held[u] ensures m < |s.attr| && Demand(s', m) == Demand(s, m) {
      }
      SameDemands(s, s', u, s.pri[u]);
    }
  }

  /** The ceilings that bind `t`, waiting or owning. */
  ghost predicate CeilingAllows(s: Sys, t: Task, p: nat)
    requires Shape(s) && t < |s.bpri|
  {
    forall m :: 0 <= m < |s.attr| && s.attr[m] == TA_CEILING && (s.owner[m] == Some(t) || s.waits[t] == Some(m)) ==>
      s.ceil[m] <= p
  }

  lemma RebasedCeilings(s: Sys, t: Task, p: nat)
    requires Shape(s) && t < |s.bpri| && Ceilings(s) && CeilingAllows(s, t, p)
    ensures Ceilings(s.(bpri := s.bpri[t := p]))
  {
  }

  /* ---- A mutex with nobody waiting for it is deleted, a task ends. ---- */

  lemma VacatedQueues(s: Sys, m: Mutex)
    requires Shape(s) && Owners(s, Some(m)) && Waiters(s) && Sorted(s) && m < |s.owner| && s.queue[m] == []
    ensures var s' := s.(owner := s.owner[m := None]); Shape(s') && Owners(s', None) && Waiters(s') && Sorted(s')
  {
  }

  lemma VacatedLinks(s: Sys, m: Mutex, rank: seq<nat>)
    requires Links(s, Some(m), rank) && m < |s.owner| && s.queue[m] == []
    ensures Links(s.(owner := s.owner[m := None]), None, rank)
  {
    var s' := s.(owner := s.owner[m := None]);
    hide Owners, Waiters, Sorted;
    VacatedQueues(s, m);
    forall u, o | 0 <= u < |s'.waits| && 0 <= o < |s'.bpri| && WaitsFor(s', u, o) ensures rank[o] < rank[u] {
      assert WaitsFor(s, u, o);
    }
  }

  lemma UnlinkedLinks(s: Sys, t: Task, m: Mutex, rank: seq<nat>)
    requires Links(s, None, rank) && t < |s.bpri| && m < |s.owner| && s.owner[m] == Some(t)
    ensures Links(Unlinked(s, t, Some(m)), Some(m), rank)
  {
    var s' := Unlinked(s, t, Some(m));
    DroppedOnce(s.held[t], Some(m));
    forall k ensures k in s'.held[t] <==> k in s.held[t] && k != m {
      DroppedHas(s.held[t], Some(m), k);
    }
    assert Owners(s', Some(m));
    assert Waiters(s') && Sorted(s');
    RankedSame(s, s', rank);
  }

  lemma UnlinkedFixed(s: Sys, t: Task, relm: Option<Mutex>, x: set<Task>)
    requires Shape(s) && t < |s.bpri| && FixedExcept(s, x) && Shape(Unlinked(s, t, relm))
    ensures FixedExcept(Unlinked(s, t, relm), x + {t})
  {
    var s' := Unlinked(s, t, relm);
    forall u | 0 <= u < |s.bpri| && u !in x && u != t ensures Fixed(s', u) {
      assert Fixed(s, u);
      forall m | m in s.held[u] ensures m < |s.attr| && Demand(s', m) == Demand(s, m) {
      }
      SameDemands(s, s', u, s.pri[u]);
    }
  }

  lemma EndedLinks(s: Sys, t: Task, p: nat, rank: seq<nat>)
    requires Links(s, None, rank) && t < |s.bpri| && s.held[t] == [] && s.waits[t] == None
    ensures Links(s.(bpri := s.bpri[t := p], pri := s.pri[t := p]), None, rank)
  {
    var s' := s.(bpri := s.bpri[t := p], pri := s.pri[t := p]);
    assert Owners(s', None);
    assert Waiters(s');
    assert Sorted(s') by {
      forall k | 0 <= k < |s'.queue| && s'.attr[k] != TA_TFIFO ensures SortedBy(s'.queue[k], s'.pri) {
        assert t !in s.queue[k];
        assert SortedBy(s.queue[k], s.pri);
      }
    }
    RankedSame(s, s', rank);
  }

  lemma EndedFixed(s: Sys, t: Task, p: nat, rank: seq<nat>)
    requires Links(s, None, rank) && t < |s.bpri| && s.held[t] == [] && s.waits[t] == None && FixedExcept(s, {t})
    ensures FixedExcept(s.(bpri := s.bpri[t := p], pri := s.pri[t := p]), {})
  {
    var s' := s.(bpri := s.bpri[t := p], pri := s.pri[t := p]);
    forall u | 0 <= u < |s.bpri| ensures Fixed(s', u) {
      if u != t {
        assert Fixed(s, u);
        forall m | m in s.held[u] ensures m < |s.attr| && Demand(s', m) == Demand(s, m) {
          if s.queue[m] != [] {
            assert s.queue[m][0] in s.queue[m];
          }
        }
        SameDemands(s, s', u, s.pri[u]);
      }
    }
  }

  /* ---- What the calls change besides priorities. ---- */

  /** The same but for priorities and the order of queues sorted by priority. */
  ghost predicate SameHolders(s: Sys, s': Sys) {
    && s'.bpri == s.bpri && s'.waits == s.waits && s'.held == s.held && s'.owner == s.owner
    && s'.attr == s.attr && s'.ceil == s.ceil && |s'.queue| == |s.queue| == |s.attr|
    && (forall m :: 0 <= m < |s.queue| && s.attr[m] == TA_TFIFO ==> s'.queue[m] == s.queue[m])
  }

  lemma BelowKeepsHolders(s: Sys, s': Sys, t: Task, rank: seq<nat>)
    requires Shape(s) && Shape(s') && |rank| == |s.bpri| && t < |s.bpri| && Below(s, s', t, rank)
    ensures SameHolders(s, s')
  {
  }

  lemma SameCeilings(s: Sys, s': Sys)
    requires Shape(s) && Shape(s') && Ceilings(s) && SameHolders(s, s')
    ensures Ceilings(s')
  {
  }

  /** A task at the bottom that waits for nobody is raised alone. */
  lemma BottomAlone(s: Sys, s': Sys, t: Task, rank: seq<nat>)
    requires Shape(s) && Shape(s') && |rank| == |s.bpri| && t < |s.bpri| && Below(s, s', t, rank) && rank[t] == 0
    ensures s'.queue == s.queue && |s'.pri| == |s.pri|
    ensures forall u :: 0 <= u < |s.pri| && u != t ==> s'.pri[u] == s.pri[u]
  {
    forall m | 0 <= m < |s.queue| ensures s'.queue[m] == s.queue[m] {
      assert !OwnedBelow(s, m, t, rank);
    }
  }

  /** After the raise of the new owner `h`. */
  lemma RaisedAtLast(s1: Sys, s2: Sys, h: Task, p: nat, rank: seq<nat>, x: set<Task>)
    requires Changed(s1, s2, h, p, rank, None, x + {h}) && Least(s1, h, p) && Ceilings(s1) && h !in x
    ensures Links(s2, None, rank) && FixedExcept(s2, x) && Ceilings(s2) && SameHolders(s1, s2) && Orderly(s1, s2, {h})
  {
    ChangedSettles(s1, s2, h, p, rank, None, x + {h});
    assert x + {h} - {h} == x;
    hide Orderly, FixedExcept, Ceilings, Owners, Waiters, Sorted, Ranked, Least, Below;
    BelowKeepsHolders(s1, s2, h, rank);
    SameCeilings(s1, s2);
  }

  ghost function FirstWaiter(s: Sys, m: Mutex): Option<Task>
    requires m < |s.queue|
  {
    if s.queue[m] == [] then None else Some(s.queue[m][0])
  }

  /** Who still waits when the first has been served. */
  ghost function Others(s: Sys, m: Mutex): seq<Task>
    requires m < |s.queue|
  {
    if s.queue[m] == [] then [] else s.queue[m][1..]
  }

  /** The mutex has been handed over and the new owner may have been raised. */
  ghost predicate Passed(s: Sys, s': Sys, m: Mutex) {
    && Shape(s) && m < |s.queue| && (s.queue[m] != [] ==> s.queue[m][0] < |s.bpri|)
    && SameHolders(HandedOver(s, m), s')
    && s'.queue == HandedOver(s, m).queue && |s'.pri| == |s.pri|
    && (forall u :: 0 <= u < |s.pri| && FirstWaiter(s, m) != Some(u) ==> s'.pri[u] == s.pri[u])
  }

  lemma PassedNobody(s: Sys, s': Sys, m: Mutex, rank: seq<nat>, x: set<Task>)
    requires Links(s, Some(m), rank) && m < |s.queue| && s.owner[m].Some? && FixedExcept(s, x) && Ceilings(s)
    requires forall u :: u in x ==> u < |s.bpri| && s.waits[u] == None
    requires s.queue[m] == [] && s' == HandedOver(s, m)
    ensures Links(s', None, rank) && FixedExcept(s', x) && Ceilings(s') && Passed(s, s', m)
  {
    HandedLinks(s, m, rank);
    HandedFixed(s, s', m, x);
    HandedCeilings(s, s', m);
  }

  /** Before the new owner is raised. */
  lemma PassedFirst(s: Sys, s': Sys, m: Mutex, h: Task, rank: seq<nat>, x: set<Task>)
    requires Links(s, Some(m), rank) && m < |s.queue| && s.owner[m].Some? && FixedExcept(s, x) && Ceilings(s)
    requires forall u :: u in x ==> u < |s.bpri| && s.waits[u] == None
    requires s.queue[m] != [] && s.queue[m][0] == h && h < |s.bpri| && s' == HandedOver(s, m)
    ensures var rk := rank[h := 0];
            Links(s', None, rk) && Ceilings(s') && h !in x && Ready(s', h, rk, None, x + {h})
    ensures s.attr[m] == TA_CEILING && s.ceil[m] < s.pri[h] ==> Least(s', h, s.ceil[m])
    ensures !(s.attr[m] == TA_CEILING && s.ceil[m] < s.pri[h]) ==> FixedExcept(s', x)
  {
    hide Owners, Waiters, Sorted, Ranked, Ceilings, Least, FixedExcept;
    RankedFits(s, rank);
    HandedLinks(s, m, rank);
    HandedFixed(s, s', m, x);
    HandedCeilings(s, s', m);
  }

  /* ---- The calls. ---- */

  lemma ReadyToRelease(s: Sys, t: Task, m: Mutex, rank: seq<nat>)
    requires Inv(s, rank) && t < |s.bpri| && m < |s.owner| && s.owner[m] == Some(t)
    ensures Ready(Unlinked(s, t, Some(m)), t, rank, Some(m), {t}) && Ceilings(Unlinked(s, t, Some(m)))
  {
    UnlinkedLinks(s, t, m, rank);
    UnlinkedFixed(s, t, Some(m), {});
    assert {} + {t} == {t};
    SameCeilingsUnlinked(s, t, Some(m));
    hide FixedExcept, Owners, Waiters, Sorted, Ranked, Ceilings;
  }

  lemma SameCeilingsUnlinked(s: Sys, t: Task, relm: Option<Mutex>)
    requires Shape(s) && t < |s.held| && Shape(Unlinked(s, t, relm)) && Ceilings(s)
    ensures Ceilings(Unlinked(s, t, relm))
  {
  }

  /** After `release_mutex`. */
  lemma Released(s1: Sys, s2: Sys, t: Task, rank: seq<nat>, loose: Option<Mutex>)
    requires Settled(s1, s2, t, rank, loose, {t}) && Ceilings(s1)
    ensures Links(s2, loose, rank) && FixedExcept(s2, {}) && Ceilings(s2) && SameHolders(s1, s2) && Orderly(s1, s2, {})
    ensures forall m :: 0 <= m < |s1.owner| && s1.owner[m] == Some(t) ==>
              s2.queue[m] == s1.queue[m] && SamePris(s1.queue[m], s1.pri, s2.pri)
  {
    hide Orderly, FixedExcept, Ceilings, Owners, Waiters, Sorted, Ranked, SamePris, Below;
    assert {t} - {t} == {};
    RankedFits(s1, rank);
    BelowKeepsHolders(s1, s2, t, rank);
    SameCeilings(s1, s2);
    forall m | 0 <= m < |s1.owner| && s1.owner[m] == Some(t)
      ensures s2.queue[m] == s1.queue[m] && SamePris(s1.queue[m], s1.pri, s2.pri)
    {
      WaitersStay(s1, s2, t, rank, m);
    }
  }

  /** `t` gives `m` up. */
  ghost predicate Unlocked(s: Sys, s': Sys, t: Task, m: Mutex) {
    && Shape(s) && t < |s.bpri| && m < |s.queue| && (s.queue[m] != [] ==> s.queue[m][0] < |s.bpri|)
    && SameHolders(HandedOver(Unlinked(s, t, Some(m)), m), s')
    && Orderly(HandedOver(Unlinked(s, t, Some(m)), m), s', {})
  }

  lemma UnlocksIt(s: Sys, s1: Sys, s2: Sys, s3: Sys, t: Task, m: Mutex)
    requires Shape(s) && t < |s.bpri| && m < |s.queue| && s1 == Unlinked(s, t, Some(m))
    requires SameHolders(s1, s2) && Passed(s2, s3, m) && s2.queue[m] == s1.queue[m]
    requires Orderly(s1, s2, {}) && SamePris(s1.queue[m], s1.pri, s2.pri) && Waiters(s2)
    ensures Unlocked(s, s3, t, m)
  {
    hide Orderly, Waiters, Owners, SamePris;
    HandedTidily(s1, s2, s3, m);
  }

  /** Handing over changes no priority of those that still wait. */
  lemma HandedTidily(s1: Sys, s2: Sys, s3: Sys, m: Mutex)
    requires Shape(s1) && m < |s1.queue| && (s1.queue[m] != [] ==> s1.queue[m][0] < |s1.bpri|)
    requires SameHolders(s1, s2) && Passed(s2, s3, m) && s2.queue[m] == s1.queue[m]
    requires Orderly(s1, s2, {}) && SamePris(s1.queue[m], s1.pri, s2.pri) && Waiters(s2)
    ensures Orderly(HandedOver(s1, m), s3, {})
  {
    hide Tidy, SamePris;
    var h1 := HandedOver(s1, m);
    forall k | 0 <= k < |h1.queue| ensures TidyAt(h1, s3, k, {}) {
      if s1.attr[k] != TA_TFIFO {
        StillWaiting(s2, s3, m, k);
        if k == m {
          RestSame(s1.queue[m], s1.pri, s2.pri, s3.pri);
          TidySame(s3.queue[m], s1.pri, s3.pri, {});
        } else {
          assert TidyAt(s1, s2, k, {});
          TidyHas(s1.queue[k], s2.queue[k], s1.pri, s2.pri, {});
          SameInside(s1.queue[k], s2.queue[k], s2.pri, s3.pri);
          TidySooner(s1.queue[k], s2.queue[k], s1.pri, s2.pri, s3.pri, {});
        }
      }
    }
  }

  lemma StillWaiting(s2: Sys, s3: Sys, m: Mutex, k: Mutex)
    requires Passed(s2, s3, m) && Waiters(s2) && k < |s2.queue|
    ensures k < |s3.queue| && SamePris(s3.queue[k], s2.pri, s3.pri)
    ensures s3.queue[k] == if k != m || s2.queue[m] == [] then s2.queue[k] else s2.queue[m][1..]
  {
    forall u | u in s3.queue[k] ensures u < |s2.pri| && s3.pri[u] == s2.pri[u] {
      assert u in s2.queue[k];
      NotFirst(s2, m, k, u);
    }
  }

  lemma NotFirst(s: Sys, m: Mutex, k: Mutex, u: Task)
    requires Shape(s) && Waiters(s) && m < |s.queue| && k < |s.queue|
    requires u in if k != m || s.queue[m] == [] then s.queue[k] else s.queue[m][1..]
    ensures u < |s.bpri| && FirstWaiter(s, m) != Some(u)
  {
    assert u in s.queue[k];
    if s.queue[m] != [] {
      var h := s.queue[m][0];
      assert h in s.queue[m] && s.waits[h] == Some(m) && s.waits[u] == Some(k);
      if k == m {
        RestOf(s.queue[m]);
      }
    }
  }

  lemma RestSame(q: seq<Task>, pri1: seq<nat>, pri2: seq<nat>, pri3: seq<nat>)
    requires SamePris(q, pri1, pri2) && SamePris(if q == [] then [] else q[1..], pri2, pri3)
    ensures SamePris(if q == [] then [] else q[1..], pri1, pri3)
  {
    assert q != [] ==> forall u :: u in q[1..] ==> u in q;
  }

  lemma SameInside(q: seq<Task>, q': seq<Task>, pri: seq<nat>, pri': seq<nat>)
    requires SamePris(q', pri, pri') && forall u :: u in q ==> u in q'
    ensures SamePris(q, pri, pri')
  {
  }

  lemma TakesIt(s: Sys, t: Task, m: Mutex, rank: seq<nat>)
    requires Inv(s, rank) && t < |s.bpri| && m < |s.owner| && s.owner[m] == None
    requires s.attr[m] == TA_CEILING ==> s.ceil[m] <= s.bpri[t]
    ensures var s' := Taken(s, t, m);
            && Links(s', None, rank) && Ceilings(s') && Ready(s', t, rank, None, {} + {t})
            && (s.attr[m] == TA_CEILING && s.ceil[m] < s.pri[t] ==> Least(s', t, s.ceil[m]))
            && (!(s.attr[m] == TA_CEILING && s.ceil[m] < s.pri[t]) ==> FixedExcept(s', {}))
  {
    TakenLinks(s, t, m, rank);
    TakenFixed(s, t, m);
    TakenCeilings(s, t, m);
    assert {} + {t} == {t};
    hide FixedExcept, Owners, Waiters, Sorted, Ranked, Ceilings, Least;
  }

  /** The owner may be raised for the sake of a task that is going to wait. */
  lemma ReadyToRaise(s: Sys, t: Task, m: Mutex, o: Task, rank: seq<nat>, rk: seq<nat>)
    requires Inv(s, rank) && t < |s.bpri| && m < |s.owner| && s.owner[m] == Some(o) && s.waits[t] == None
    requires Shape(s.(waits := s.waits[t := Some(m)])) && Ranked(s.(waits := s.waits[t := Some(m)]), rk)
    ensures |rk| == |s.bpri| && Links(s, None, rk) && o < |s.bpri| && rk[o] < rk[t] && Ready(s, o, rk, None, {o})
  {
    var s' := s.(waits := s.waits[t := Some(m)]);
    assert WaitsFor(s', t, o);
    forall u, w | 0 <= u < |s.waits| && 0 <= w < |s.bpri| && WaitsFor(s, u, w) ensures rk[w] < rk[u] {
      assert WaitsFor(s', u, w);
    }
    hide Owners, Waiters, Sorted, Least;
  }

  /** The owner has been raised, if need be, and now `t` queues. */
  ghost predicate Prepared(s: Sys, s1: Sys, t: Task, m: Mutex, o: Task, rk: seq<nat>) {
    && Links(s1, None, rk) && t < |s1.bpri| && o < |s1.bpri| && m < |s1.owner| && s1.owner[m] == Some(o)
    && s1.waits[t] == None && rk[o] < rk[t]
    && Ceilings(s1) && FixedExcept(s1, {o}) && SameHolders(s, s1) && s1.queue[m] == s.queue[m]
    && (s1.attr[m] != TA_INHERIT ==> Fixed(s1, o))
    && Orderly(s, s1, {})
    && (exists y :: Least(s1, o, y)
                    && (s1.attr[m] == TA_INHERIT ==> s1.pri[o] == if y > s1.pri[t] then s1.pri[t] else y))
  }

  lemma RaisedForWaiter(s: Sys, s1: Sys, t: Task, m: Mutex, o: Task, rank: seq<nat>, rk: seq<nat>)
    requires Inv(s, rank) && t < |s.bpri| && m < |s.owner| && s.owner[m] == Some(o) && o < |s.bpri|
    requires s.waits[t] == None && |rk| == |s.bpri| && rk[o] < rk[t] && s.attr[m] == TA_INHERIT
    requires Changed(s, s1, o, s.pri[t], rk, None, {o}) && s.pri[o] > s.pri[t]
    ensures Prepared(s, s1, t, m, o, rk)
  {
    assert Fixed(s, o);
    assert Least(s, o, s.pri[o]);
    DemandsStay(s, s1, o, rk, None, s.pri[o]);
    OrderlyChanged(s, s1, o);
    hide Orderly, FixedExcept, Ceilings, Owners, Waiters, Sorted, Ranked, Least;
    BelowKeepsHolders(s, s1, o, rk);
    SameCeilings(s, s1);
    assert !OwnedBelow(s, m, o, rk);
  }

  lemma NotRaisedForWaiter(s: Sys, t: Task, m: Mutex, o: Task, rank: seq<nat>, rk: seq<nat>)
    requires Inv(s, rank) && Links(s, None, rk) && t < |s.bpri| && m < |s.owner| && s.owner[m] == Some(o)
    requires o < |s.bpri|
    requires s.waits[t] == None && rk[o] < rk[t]
    requires s.attr[m] == TA_INHERIT ==> s.pri[o] <= s.pri[t]
    ensures Prepared(s, s, t, m, o, rk)
  {
    OrderlySame(s);
    hide Orderly;
    assert Fixed(s, o);
    assert Least(s, o, s.pri[o]);
  }

  /** While `t` takes its place in one queue, the others are as they were after the raise. */
  lemma OthersTidy(s: Sys, s1: Sys, s2: Sys, t: Task, m: Mutex, o: Task, rk: seq<nat>)
    requires Prepared(s, s1, t, m, o, rk) && Enqueued(s1, s2, t, m)
    ensures |s2.queue| == |s.queue| == |s.attr| && forall k :: 0 <= k < |s.queue| && k != m ==> TidyAt(s, s2, k, {})
  {
    hide Tidy, Owners, Waiters, Sorted, Ranked, FixedExcept, Ceilings, Least;
    forall k | 0 <= k < |s.queue| && k != m ensures TidyAt(s, s2, k, {}) {
      assert TidyAt(s, s1, k, {});
    }
  }

  lemma WaiterQueued(s: Sys, s1: Sys, s2: Sys, t: Task, m: Mutex, o: Task, rk: seq<nat>)
    requires Prepared(s, s1, t, m, o, rk) && Enqueued(s1, s2, t, m)
    requires s1.attr[m] == TA_CEILING ==> s1.ceil[m] <= s1.bpri[t]
    ensures Inv(s2, rk)
  {
    assert Links(s2, None, rk) by {
      hide Owners, Waiters, Sorted, Ranked, Ceilings, Least, Enqueued;
      EnqueuedLinks(s1, s2, t, m, rk);
    }
    assert Ceilings(s2) by {
      hide Owners, Waiters, Sorted, Ranked, Least;
      EnqueuedCeilings(s1, s2, t, m);
    }
    assert Fixed(s2, o) by {
      hide Owners, Waiters, Sorted, Ranked, Ceilings, Least, Enqueued;
      QueuedOwner(s, s1, s2, t, m, o, rk);
    }
    hide Waiters, Sorted, Ranked, Ceilings, Least, Enqueued;
    QueuedOthers(s1, s2, t, m, o);
  }

  lemma EnqueuedCeilings(s: Sys, s': Sys, t: Task, m: Mutex)
    requires Shape(s) && Shape(s') && t < |s.bpri| && m < |s.queue| && Enqueued(s, s', t, m)
    requires Ceilings(s) && (s.attr[m] == TA_CEILING ==> s.ceil[m] <= s.bpri[t])
    ensures Ceilings(s')
  {
  }

  lemma QueuedOwner(s: Sys, s1: Sys, s2: Sys, t: Task, m: Mutex, o: Task, rk: seq<nat>)
    requires Prepared(s, s1, t, m, o, rk) && Enqueued(s1, s2, t, m) && Links(s2, None, rk)
    ensures Fixed(s2, o)
  {
    hide Owners, Waiters, Sorted, Ranked, Ceilings, Least, Enqueued;
    if s1.attr[m] == TA_INHERIT {
      var y :| Least(s1, o, y) && s1.pri[o] == if y > s1.pri[t] then s1.pri[t] else y;
      EnqueuedOwner(s1, s2, t, m, o, y);
    } else {
      EnqueuedOthers(s1, s2, t, m, o, s1.pri[o]);
      assert s2.pri == s1.pri by {
        PriStays(s1, s2, t, m);
      }
    }
  }

  lemma PriStays(s: Sys, s': Sys, t: Task, m: Mutex)
    requires Shape(s) && t < |s.bpri| && m < |s.queue| && Enqueued(s, s', t, m)
    ensures s'.pri == s.pri && s'.bpri == s.bpri
  {
  }

  lemma QueuedOthers(s: Sys, s': Sys, t: Task, m: Mutex, o: Task)
    requires Shape(s) && Shape(s') && t < |s.bpri| && m < |s.queue| && Enqueued(s, s', t, m) && Owners(s, None)
    requires s.owner[m] == Some(o) && FixedExcept(s, {o}) && o < |s.bpri| && Fixed(s', o)
    ensures FixedExcept(s', {})
  {
    hide Enqueued, Least;
    PriStays(s, s', t, m);
    forall u | 0 <= u < |s'.bpri| ensures Fixed(s', u) {
      if u != o {
        assert Fixed(s, u);
        EnqueuedOthers(s, s', t, m, u, s.pri[u]);
      }
    }
  }

  /** `t` waits for `m` now, last in its queue or after the tasks that are as urgent. */
  ghost predicate Queues(s: Sys, s': Sys, t: Task, m: Mutex) {
    && Shape(s) && t < |s.bpri| && m < |s.queue| && |s'.queue| == |s.queue|
    && s'.waits == s.waits[t := Some(m)] && s'.bpri == s.bpri && s'.held == s.held && s'.owner == s.owner
    && s'.attr == s.attr && s'.ceil == s.ceil
    && (forall k :: 0 <= k < |s.queue| && k != m && s.attr[k] == TA_TFIFO ==> s'.queue[k] == s.queue[k])
    && (forall k :: 0 <= k < |s.queue| && k != m ==> TidyAt(s, s', k, {}))
    && (if s.attr[m] == TA_TFIFO then s'.queue[m] == s.queue[m] + [t]
       else InsertedByPriority(s.queue[m], s'.queue[m], t, s'.pri))
  }

  /** `t` has left the queue of `m`; at most the owner has a priority to adjust. */
  ghost predicate Left(s: Sys, t: Task, m: Mutex, rank: seq<nat>) {
    && Links(s, None, rank) && Ceilings(s) && t < |s.bpri| && m < |s.owner| && s.owner[m].Some?
    && s.owner[m].value < |s.bpri| && rank[s.owner[m].value] < rank[t]
    && Ready(s, s.owner[m].value, rank, None, {s.owner[m].value})
    && (!(s.attr[m] == TA_INHERIT && s.pri[s.owner[m].value] == s.pri[t]) ==> FixedExcept(s, {}))
  }

  lemma ReadyToReset(s: Sys, s1: Sys, t: Task, m: Mutex, rank: seq<nat>)
    requires Inv(s, rank) && t < |s.bpri| && s.waits[t] == Some(m) && m < |s.queue| && Dequeued(s, s1, t, m)
    ensures Left(s1, t, m, rank)
  {
    assert WaitsFor(s, t, s.owner[m].value);
    DequeuedLinks(s, s1, t, m, rank, None);
    assert Ceilings(s1) by {
      hide Owners, Waiters, Sorted, Ranked, FixedExcept;
      DequeuedCeilings(s, s1, t, m);
    }
    hide Sorted, Ranked, Ceilings, Least;
    var o := s.owner[m].value;
    if s.attr[m] == TA_INHERIT && s.pri[o] != s.pri[t] {
      assert Fixed(s, o);
      DequeuedOwner(s, s1, t, m, o);
    }
    hide Waiters, Dequeued;
    StillFixed(s, s1, t, m, o);
  }

  lemma DequeuedCeilings(s: Sys, s': Sys, t: Task, m: Mutex)
    requires Shape(s) && Shape(s') && t < |s.bpri| && m < |s.queue| && Dequeued(s, s', t, m) && Ceilings(s)
    ensures Ceilings(s') && s'.pri == s.pri && s'.bpri == s.bpri && s'.owner == s.owner && s'.attr == s.attr
  {
  }

  lemma StillFixed(s: Sys, s': Sys, t: Task, m: Mutex, o: Task)
    requires Shape(s) && Shape(s') && t < |s.bpri| && m < |s.queue| && Dequeued(s, s', t, m) && Owners(s, None)
    requires s.owner[m] == Some(o) && FixedExcept(s, {}) && Ceilings(s)
    requires o < |s'.bpri| && (s.attr[m] == TA_INHERIT && s.pri[o] != s.pri[t] ==> Fixed(s', o))
    ensures FixedExcept(s', {o})
    ensures !(s.attr[m] == TA_INHERIT && s.pri[o] == s.pri[t]) ==> FixedExcept(s', {})
  {
    DequeuedCeilings(s, s', t, m);
    hide Dequeued, Least, Ceilings;
    forall u | 0 <= u < |s'.bpri| && (u != o || s.attr[m] != TA_INHERIT) ensures Fixed(s', u) {
      assert Fixed(s, u);
      DequeuedOthers(s, s', t, m, u, s.pri[u], None);
    }
  }

  lemma ResetOwner(s1: Sys, s2: Sys, o: Task, rank: seq<nat>)
    requires Ready(s1, o, rank, None, {o}) && Ceilings(s1) && Settled(Unlinked(s1, o, None), s2, o, rank, None, {o})
    ensures Inv(s2, rank) && SameHolders(s1, s2) && Orderly(s1, s2, {})
    ensures forall m :: 0 <= m < |s1.owner| && s1.owner[m].Some? && rank[o] <= rank[s1.owner[m].value] ==>
              s2.queue[m] == s1.queue[m]
  {
    hide Orderly;
    NoneUnlinked(s1, o);
    Released(s1, s2, o, rank, None);
    hide Owners, Waiters, Sorted, FixedExcept, Ceilings;
    forall m | 0 <= m < |s1.owner| && s1.owner[m].Some? && rank[o] <= rank[s1.owner[m].value]
      ensures s2.queue[m] == s1.queue[m]
    {
      assert !OwnedBelow(s1, m, o, rank);
    }
  }

  /** `t` waits no more, nobody waits otherwise than before for a mutex of `t`, and the others keep
      their order, but for those whose priority has changed with that of an owner. */
  ghost predicate Leaves(s: Sys, s': Sys, t: Task) {
    && t < |s.waits| && s'.waits == s.waits[t := None]
    && s'.bpri == s.bpri && s'.held == s.held && s'.owner == s.owner && s'.attr == s.attr && s'.ceil == s.ceil
    && |s.queue| == |s'.queue| == |s.owner|
    && (forall k :: 0 <= k < |s.owner| && s.owner[k] == Some(t) ==> s'.queue[k] == s.queue[k])
    && FifosWithout(s, s', t) && Orderly(WithoutWaiter(s, t), s', {})
  }

  /** The state when `t` has just left the queue it was in. */
  function WithoutWaiter(s: Sys, t: Task): Sys
    requires t < |s.waits|
  {
    match s.waits[t]
    case None => s
    case Some(m) =>
      s.(waits := s.waits[t := None],
         queue := if m < |s.queue| then s.queue[m := Dropped(s.queue[m], Some(t))] else s.queue)
  }

  ghost predicate FifosWithout(s: Sys, s': Sys, t: Task)
    requires |s.queue| == |s'.queue| && t < |s.waits|
  {
    forall k :: 0 <= k < |s.queue| && k < |s.attr| && s.attr[k] == TA_TFIFO ==>
      s'.queue[k] == if s.waits[t] == Some(k) then Dropped(s.queue[k], Some(t)) else s.queue[k]
  }

  /* ---- Deletion. ---- */

  /** The first in the queue of `m` stops waiting. */
  lemma FirstGoes(s: Sys, m: Mutex)
    requires Shape(s) && Waiters(s) && m < |s.queue| && s.queue[m] != []
    ensures |s.waits| == |s.bpri|
    ensures var u := s.queue[m][0];
            u < |s.bpri| && s.waits[u] == Some(m)
            && Dequeued(s, s.(queue := s.queue[m := s.queue[m][1..]], waits := s.waits[u := None]), u, m)
  {
    assert s.queue[m][0] in s.queue[m] && NoRepeats(s.queue[m]);
    hide Waiters;
    DroppedAt(s.queue[m], 0);
    RestOf(s.queue[m]);
    hide NoRepeats;
  }

  lemma RestOf(q: seq<Task>)
    requires NoRepeats(q) && q != []
    ensures NoRepeats(q[1..]) && forall u :: u in q[1..] <==> u in q && u != q[0]
  {
    assert q == [q[0]] + q[1..];
  }

  lemma LooseIsUnlisted(s: Sys, m: Mutex, u: Task)
    requires Shape(s) && Owners(s, Some(m)) && u < |s.bpri|
    ensures m !in s.held[u]
  {
  }

  lemma DroppedWaiter(s: Sys, s': Sys, t: Task, m: Mutex, rank: seq<nat>)
    requires Links(s, Some(m), rank) && FixedExcept(s, {}) && Ceilings(s)
    requires t < |s.bpri| && m < |s.queue| && Dequeued(s, s', t, m) && s.waits[t] == Some(m)
    ensures Links(s', Some(m), rank) && FixedExcept(s', {}) && Ceilings(s')
  {
    hide Owners, Sorted, Ranked, Waiters, Ceilings, Least, Dequeued;
    DequeuedLinks(s, s', t, m, rank, Some(m));
    DequeuedCeilings(s, s', t, m);
    forall u | 0 <= u < |s'.bpri| ensures Fixed(s', u) {
      assert Fixed(s, u);
      LooseIsUnlisted(s, m, u);
      DequeuedOthers(s, s', t, m, u, s.pri[u], Some(m));
    }
  }

  /** Nobody owns, holds or waits for `m`, and nothing else has changed, but for priorities
      and the order of queues sorted by them. */
  ghost predicate Deleted(s: Sys, s': Sys, m: Mutex) {
    && m < |s.owner| == |s'.queue| == |s.queue| == |s.attr| && s'.queue[m] == [] && |s.waits| == |s'.waits|
    && (forall u :: 0 <= u < |s.waits| ==> s'.waits[u] == if s.waits[u] == Some(m) then None else s.waits[u])
    && s'.owner == s.owner[m := None] && s'.bpri == s.bpri && s'.attr == s.attr && s'.ceil == s.ceil
    && (match s.owner[m]
        case None => s'.held == s.held
        case Some(o) => o < |s.held| && s'.held == s.held[o := Dropped(s.held[o], Some(m))])
    && (forall k :: 0 <= k < |s.queue| && k != m && s.attr[k] == TA_TFIFO ==> s'.queue[k] == s.queue[k])
    && (forall k :: 0 <= k < |s.queue| && k != m ==> TidyAt(s, s', k, {}))
  }

  /** From the release of the owner on, only the queue of `m` changes. */
  lemma OthersKept(s: Sys, s1: Sys, s2: Sys, s3: Sys, m: Mutex)
    requires Orderly(s1, s2, {}) && s1.queue == s.queue && s1.pri == s.pri && s1.attr == s.attr && s3.pri == s2.pri
    requires |s3.queue| == |s2.queue| && forall k :: 0 <= k < |s2.queue| && k != m ==> s3.queue[k] == s2.queue[k]
    ensures forall k :: 0 <= k < |s.queue| && k != m ==> TidyAt(s, s3, k, {})
  {
    hide Tidy;
    forall k | 0 <= k < |s.queue| && k != m ensures TidyAt(s, s3, k, {}) {
      assert TidyAt(s1, s2, k, {});
    }
  }

  lemma Vacated(s: Sys, s': Sys, m: Mutex, rank: seq<nat>)
    requires Links(s, Some(m), rank) && FixedExcept(s, {}) && Ceilings(s) && m < |s.owner| && s.queue[m] == []
    requires s' == s.(owner := s.owner[m := None])
    ensures Inv(s', rank)
  {
    VacatedLinks(s, m, rank);
    hide Owners, Sorted, Ranked, Waiters;
    assert Ceilings(s');
    forall u | 0 <= u < |s'.bpri| ensures Fixed(s', u) {
      assert Fixed(s, u);
      SameDemands(s, s', u, s.pri[u]);
    }
  }

  /* ---- Change of the base priority. ---- */

  /** A ceiling among the first `n` mutexes `t` holds is below `p`. */
  ghost predicate BrokenAt(s: Sys, t: Task, n: nat, p: nat)
    requires Shape(s) && t < |s.bpri| && n <= |s.held[t]|
  {
    exists k :: 0 <= k < n && CeilingAt(s, t, k).Some? && p < CeilingAt(s, t, k).value
  }

  ghost function CeilingAt(s: Sys, t: Task, k: nat): Option<nat>
    requires Shape(s) && t < |s.bpri| && k < |s.held[t]|
  {
    assert s.held[t][k] in s.held[t];
    CeilingOf(s, s.held[t][k])
  }

  ghost function CeilingOf(s: Sys, m: Mutex): Option<nat>
    requires m < |s.attr| == |s.ceil|
  {
    if s.attr[m] == TA_CEILING then Some(s.ceil[m]) else None
  }

  lemma BrokenStep(s: Sys, t: Task, n: nat, p: nat)
    requires Shape(s) && t < |s.bpri| && n < |s.held[t]|
    ensures BrokenAt(s, t, n + 1, p) <==>
              BrokenAt(s, t, n, p) || (CeilingAt(s, t, n).Some? && p < CeilingAt(s, t, n).value)
  {
  }

  lemma BrokenMeans(s: Sys, t: Task, p: nat)
    requires Shape(s) && t < |s.bpri| && Owners(s, None) && Waiters(s)
    ensures CeilingAllows(s, t, p) <==>
              && !BrokenAt(s, t, |s.held[t]|, p)
              && (s.waits[t].Some? && CeilingOf(s, s.waits[t].value).Some? ==>
                 CeilingOf(s, s.waits[t].value).value <= p)
  {
    if BrokenAt(s, t, |s.held[t]|, p) {
      var k :| 0 <= k < |s.held[t]| && CeilingAt(s, t, k).Some? && p < CeilingAt(s, t, k).value;
      assert s.held[t][k] in s.held[t];
    } else {
      forall m | 0 <= m < |s.attr| && s.attr[m] == TA_CEILING && s.owner[m] == Some(t) ensures s.ceil[m] <= p {
        assert m in s.held[t];
        var k :| 0 <= k < |s.held[t]| && s.held[t][k] == m;
        assert CeilingAt(s, t, k) == Some(s.ceil[m]);
      }
    }
  }

  lemma ReadyToRebase(s: Sys, t: Task, p: nat, rank: seq<nat>)
    requires Inv(s, rank) && t < |s.bpri| && CeilingAllows(s, t, p)
    ensures var s' := s.(bpri := s.bpri[t := p]); Ready(s', t, rank, None, {} + {t}) && Ceilings(s')
  {
    RebasedLinks(s, t, p, rank);
    RebasedFixed(s, t, p);
    RebasedCeilings(s, t, p);
    assert {} + {t} == {t};
  }

  /* ---- The end of a task. ---- */

  lemma EndsWithout(s: Sys, t: Task, p: nat, rank: seq<nat>)
    requires Links(s, None, rank) && t < |s.bpri| && s.held[t] == [] && s.waits[t] == None
    requires FixedExcept(s, {t}) && Ceilings(s)
    ensures Inv(s.(bpri := s.bpri[t := p], pri := s.pri[t := p]), rank)
  {
    EndedLinks(s, t, p, rank);
    EndedFixed(s, t, p, rank);
  }

  lemma NobodyWaits(s: Sys, m: Mutex)
    requires Shape(s) && Waiters(s) && m < |s.queue| && s.queue[m] == []
    ensures forall u :: 0 <= u < |s.waits| ==> s.waits[u] != Some(m)
  {
  }

  /** `chg_pri_mutex` has looked at the wait of `t` and at the first `i` mutexes it holds. */
  ghost predicate Weighed(s: Sys, t: Task, p: nat, i: nat, hi: nat, low: nat) {
    && Shape(s) && t < |s.bpri| && i <= |s.held[t]| && LeastOf(s.(bpri := s.bpri[t := p]), t, i, hi)
    && (p < low <==> WaitBroken(s, t, p) || BrokenAt(s, t, i, p))
  }

  ghost predicate WaitBroken(s: Sys, t: Task, p: nat)
    requires Shape(s) && t < |s.bpri|
  {
    s.waits[t].Some? && s.waits[t].value < |s.attr| && s.attr[s.waits[t].value] == TA_CEILING
        && p < s.ceil[s.waits[t].value]
  }

  lemma WeighStart(s: Sys, t: Task, p: nat, rank: seq<nat>)
    requires Inv(s, rank) && t < |s.bpri|
    ensures |s.waits| == |s.held| == |s.pri| == |s.bpri| && |s.attr| == |s.ceil|
    ensures s.waits[t].Some? ==> s.waits[t].value < |s.attr|
    ensures var w := s.waits[t];
            Weighed(s, t, p, 0, p,
                    if w.Some? && s.attr[w.value] == TA_CEILING && s.ceil[w.value] > 0 then s.ceil[w.value] else 0)
  {
    LeastOfNone(s.(bpri := s.bpri[t := p]), t);
  }

  lemma WeighAt(s: Sys, t: Task, p: nat, i: nat, hi: nat, low: nat)
    requires Weighed(s, t, p, i, hi, low) && i < |s.held[t]|
    ensures var m := s.held[t][i];
            m < |s.attr| == |s.ceil| == |s.queue| && (s.queue[m] != [] ==> s.queue[m][0] < |s.pri|)
  {
    InShape(s, t, i);
  }

  lemma WeighStep(s: Sys, t: Task, p: nat, i: nat, hi: nat, low: nat, pri: nat)
    requires Weighed(s, t, p, i, hi, low) && i < |s.held[t]|
    requires s.held[t][i] < |s.attr| == |s.ceil| == |s.queue|
    requires match Demand(s, s.held[t][i]) case Some(d) => pri == d case None => hi <= pri
    ensures Weighed(s, t, p, i + 1, if pri < hi then pri else hi,
                    if s.attr[s.held[t][i]] == TA_CEILING && pri > low then pri else low)
  {
    var s1, m := s.(bpri := s.bpri[t := p]), s.held[t][i];
    DemandSame(s, s1, t, i);
    BrokenStep(s, t, i, p);
    assert CeilingAt(s, t, i) == CeilingOf(s, m);
    assert s.attr[m] == TA_CEILING ==> Demand(s, m) == Some(s.ceil[m]);
    LeastOfStep(s1, t, i, hi, pri);
    hide Shape, LeastOf, Demand, BrokenAt, WaitBroken, CeilingAt;
  }

  lemma WeighDone(s: Sys, t: Task, p: nat, hi: nat, low: nat, rank: seq<nat>)
    requires Inv(s, rank) && t < |s.bpri| && Weighed(s, t, p, |s.held[t]|, hi, low)
    ensures p < low <==> !CeilingAllows(s, t, p)
    ensures Least(s.(bpri := s.bpri[t := p]), t, hi)
  {
    LeastOfAll(s.(bpri := s.bpri[t := p]), t, hi);
    assert s.waits[t].Some? ==> s.waits[t].value < |s.attr|;
    hide LeastOf, Least, FixedExcept, Sorted, Ranked, Ceilings;
    BrokenMeans(s, t, p);
    hide Owners, Waiters, BrokenAt, CeilingAllows;
  }

  /** From `s0` on, the mutexes of `t` that are off its list have gone to their first
      waiters, and nothing else has changed hands. */
  ghost predicate PartWay(s0: Sys, s: Sys, t: Task) {
    && Shape(s0) && Shape(s) && t < |s.bpri| && s.bpri == s0.bpri && s.attr == s0.attr && s.ceil == s0.ceil
    && OwnersGone(s0, s, t) && WaitsGone(s0, s, t) && PrisKept(s0, s)
  }

  /** Nobody who still waits has got another priority. */
  ghost predicate PrisKept(s0: Sys, s: Sys)
    requires Shape(s0) && Shape(s) && s.bpri == s0.bpri
  {
    forall u :: 0 <= u < |s.waits| && s.waits[u].Some? ==> s.pri[u] == s0.pri[u]
  }

  ghost predicate OwnersGone(s0: Sys, s: Sys, t: Task)
    requires Shape(s0) && Shape(s) && t < |s.bpri| && s.attr == s0.attr
  {
    forall k :: 0 <= k < |s.owner| ==>
      if Gone(s0, s, t, k) then s.owner[k] == FirstWaiter(s0, k) && s.queue[k] == Others(s0, k)
      else s.owner[k] == s0.owner[k] && s.queue[k] == s0.queue[k]
  }

  ghost predicate WaitsGone(s0: Sys, s: Sys, t: Task)
    requires Shape(s0) && Shape(s) && t < |s.bpri| && s.bpri == s0.bpri
  {
    forall u :: 0 <= u < |s.waits| ==>
      s.waits[u] == match s0.waits[u] case None => None
                    case Some(k) =>
                      if k < |s0.owner| && Gone(s0, s, t, k) && FirstWaiter(s0, k) == Some(u) then None else Some(k)
  }

  ghost predicate Gone(s0: Sys, s: Sys, t: Task, k: Mutex)
    requires Shape(s0) && t < |s.held| && k < |s0.owner|
  {
    s0.owner[k] == Some(t) && k !in s.held[t]
  }

  lemma NothingGone(s: Sys, t: Task)
    requires Shape(s) && Owners(s, None) && t < |s.bpri|
    ensures PartWay(s, s, t)
  {
    forall k | 0 <= k < |s.owner| ensures !Gone(s, s, t, k) {
    }
    hide Gone, Owners, Shape, FirstWaiter;
  }

  /** `m` is the next to go. */
  ghost predicate Hands(s: Sys, s1: Sys, s2: Sys, t: Task, m: Mutex) {
    && Shape(s) && t < |s.bpri| && s.held[t] != [] && s.held[t][0] == m && NoRepeats(s.held[t])
    && s1 == s.(held := s.held[t := s.held[t][1..]]) && Passed(s1, s2, m) && s.waits[t] == None
    && m < |s.owner| && s.owner[m] == Some(t)
  }

  /** After the first mutex on the list of `t` has been handed over. */
  lemma OneMore(s: Sys, s1: Sys, s2: Sys, t: Task, m: Mutex)
    requires Hands(s, s1, s2, t, m) && Shape(s2) && Waiters(s)
    ensures s2.held[t] == s.held[t][1..] && m !in s2.held[t]
    ensures s2.bpri == s.bpri && s2.attr == s.attr && s2.ceil == s.ceil
    ensures s2.owner == s.owner[m := FirstWaiter(s, m)] && s2.queue[m] == Others(s, m)
    ensures forall k :: 0 <= k < |s.owner| && k != m ==> s2.queue[k] == s.queue[k]
    ensures forall u :: 0 <= u < |s.waits| ==> s2.waits[u] == if FirstWaiter(s, m) == Some(u) then None else s.waits[u]
    ensures |s2.pri| == |s.pri|
    ensures forall u :: 0 <= u < |s.pri| && FirstWaiter(s, m) != Some(u) ==> s2.pri[u] == s.pri[u]
  {
    if s.queue[m] != [] {
      assert s.queue[m][0] in s.queue[m];
    }
    assert s.held[t] == [m] + s.held[t][1..];
  }

  lemma FurtherOn(s0: Sys, s: Sys, s1: Sys, s2: Sys, t: Task, m: Mutex)
    requires PartWay(s0, s, t) && Hands(s, s1, s2, t, m) && Shape(s2) && Waiters(s)
    ensures PartWay(s0, s2, t)
  {
    hide Waiters, Shape, WaitsGone, OwnersGone, Gone, FirstWaiter, Others, Hands, PrisKept;
    HandsMeans(s, s1, s2, t, m);
    OneMore(s, s1, s2, t, m);
    FurtherPris(s0, s, s2, m);
    FirstWaits(s, m);
    StillThere(s0, s, s1, s2, t, m);
    FurtherOwners(s0, s, s2, t, m);
    FurtherWaits(s0, s, s2, t, m);
  }

  lemma HandsMeans(s: Sys, s1: Sys, s2: Sys, t: Task, m: Mutex)
    requires Hands(s, s1, s2, t, m)
    ensures m < |s.owner| == |s.queue| && s.owner[m] == Some(t) && |s.held| == |s.waits| == |s.bpri| && m in s.held[t]
  {
  }

  /** Up to now `m` had not gone. */
  lemma StillThere(s0: Sys, s: Sys, s1: Sys, s2: Sys, t: Task, m: Mutex)
    requires PartWay(s0, s, t) && Hands(s, s1, s2, t, m) && Shape(s2) && s2.held[t] == s.held[t][1..]
    requires m !in s2.held[t]
    ensures |s0.owner| == |s0.queue| == |s.queue| && FirstWaiter(s, m) == FirstWaiter(s0, m)
    ensures Others(s, m) == Others(s0, m)
    ensures forall k :: 0 <= k < |s0.owner| ==> (Gone(s0, s2, t, k) <==> Gone(s0, s, t, k) || k == m)
  {
    hide WaitsGone;
    assert m in s.held[t] && s.held[t] == [m] + s.held[t][1..];
  }

  lemma FurtherPris(s0: Sys, s: Sys, s2: Sys, m: Mutex)
    requires Shape(s0) && Shape(s) && Shape(s2) && s.bpri == s0.bpri && s2.bpri == s.bpri && PrisKept(s0, s)
    requires m < |s.queue|
    requires forall u :: 0 <= u < |s.waits| ==> s2.waits[u] == if FirstWaiter(s, m) == Some(u) then None else s.waits[u]
    requires forall u :: 0 <= u < |s.pri| && FirstWaiter(s, m) != Some(u) ==> s2.pri[u] == s.pri[u]
    ensures PrisKept(s0, s2)
  {
    hide FirstWaiter;
  }

  lemma FurtherOwners(s0: Sys, s: Sys, s2: Sys, t: Task, m: Mutex)
    requires Shape(s0) && Shape(s) && Shape(s2) && t < |s.bpri| && s.bpri == s0.bpri && s2.bpri == s.bpri
    requires s.attr == s0.attr && OwnersGone(s0, s, t) && s2.attr == s.attr && m < |s.owner|
    requires forall k :: 0 <= k < |s0.owner| ==> (Gone(s0, s2, t, k) <==> Gone(s0, s, t, k) || k == m)
    requires s2.owner == s.owner[m := FirstWaiter(s0, m)] && s2.queue[m] == Others(s0, m)
    requires forall k :: 0 <= k < |s.owner| && k != m ==> s2.queue[k] == s.queue[k]
    ensures OwnersGone(s0, s2, t)
  {
    hide Gone, FirstWaiter;
  }

  lemma FurtherWaits(s0: Sys, s: Sys, s2: Sys, t: Task, m: Mutex)
    requires Shape(s0) && Shape(s) && Shape(s2) && t < |s.bpri| && s.bpri == s0.bpri && s2.bpri == s.bpri
    requires WaitsGone(s0, s, t) && m < |s0.owner|
    requires forall k :: 0 <= k < |s0.owner| ==> (Gone(s0, s2, t, k) <==> Gone(s0, s, t, k) || k == m)
    requires match FirstWaiter(s0, m) case Some(u) => u < |s.waits| && s.waits[u] == Some(m) case None => true
    requires forall u :: 0 <= u < |s.waits| ==> s2.waits[u] == if FirstWaiter(s0, m) == Some(u) then None
               else s.waits[u]
    ensures WaitsGone(s0, s2, t)
  {
    hide Gone, FirstWaiter;
  }

  lemma FirstWaits(s: Sys, m: Mutex)
    requires Shape(s) && Waiters(s) && m < |s.queue|
    ensures match FirstWaiter(s, m) case Some(u) => u < |s.waits| && s.waits[u] == Some(m) case None => true
  {
    if s.queue[m] != [] {
      assert s.queue[m][0] in s.queue[m];
    }
  }

  /** The first mutex on the list of `t` leaves it. */
  lemma Popped(s: Sys, t: Task, m: Mutex, rank: seq<nat>)
    requires Links(s, None, rank) && FixedExcept(s, {t}) && Ceilings(s) && t < |s.bpri|
    requires s.held[t] != [] && s.held[t][0] == m
    ensures m < |s.owner| && s.owner[m] == Some(t)
    ensures var s1 := s.(held := s.held[t := s.held[t][1..]]);
            Links(s1, Some(m), rank) && FixedExcept(s1, {t}) && Ceilings(s1)
  {
    assert m in s.held[t];
    var rest := s.held[t][1..];
    assert s.held[t] == [m] + rest && m !in rest;
    DroppedAway(rest, m);
    UnlinkedLinks(s, t, m, rank);
    UnlinkedFixed(s, t, Some(m), {t});
    assert {t} + {t} == {t};
    SameCeilingsUnlinked(s, t, Some(m));
  }

  /** `t` is over: it holds nothing, waits for nothing, and each of its mutexes belongs to
      the first task that waited for it, which waits no longer; all others wait as before. */
  ghost predicate Ended(s: Sys, s': Sys, t: Task, p: nat) {
    && Shape(s) && t < |s.bpri| && |s'.held| == |s'.waits| == |s'.pri| == |s.bpri| && |s'.owner| == |s.owner|
    && s'.held[t] == [] && s'.waits[t] == None && s'.bpri == s.bpri[t := p] && s'.pri[t] == p
    && (forall k :: 0 <= k < |s.owner| ==>
          s'.owner[k] == if s.owner[k] == Some(t) then FirstWaiter(s, k) else s.owner[k])
    && (forall u :: 0 <= u < |s.waits| && u != t ==>
          s'.waits[u] == match s.waits[u] case None => None
                         case Some(k) =>
                           if k < |s.owner| && s.owner[k] == Some(t) && FirstWaiter(s, k) == Some(u) then None
                           else Some(k))
    && QueuesEnded(s, s', t)
  }

  ghost predicate QueuesEnded(s: Sys, s': Sys, t: Task)
    requires Shape(s) && t < |s.bpri|
  {
    && |s'.queue| == |s.queue|
    && (forall k :: 0 <= k < |s.queue| && s.owner[k] == Some(t) ==> s'.queue[k] == Others(s, k))
    && (forall k :: 0 <= k < |s.queue| && s.owner[k] != Some(t) && s.attr[k] == TA_TFIFO ==>
          s'.queue[k] == if s.waits[t] == Some(k) then Dropped(s.queue[k], Some(t)) else s.queue[k])
    && (forall k :: 0 <= k < |s.queue| && s.owner[k] != Some(t) ==> TidyAt(WithoutWaiter(s, t), s', k, {}))
  }

  lemma QueuesAtTheEnd(s: Sys, s1: Sys, s2: Sys, s3: Sys, t: Task)
    requires Shape(s) && Shape(s1) && Waiters(s1) && Leaves(s, s1, t) && PartWay(s1, s2, t) && s2.held[t] == []
    requires s2.waits[t] == None && s3.queue == s2.queue && |s3.pri| == |s2.pri|
    requires forall u :: 0 <= u < |s2.pri| && u != t ==> s3.pri[u] == s2.pri[u]
    ensures QueuesEnded(s, s3, t)
  {
    hide WaitsGone, Tidy, PrisKept, FixedExcept;
    forall k | 0 <= k < |s.owner| ensures Gone(s1, s2, t, k) <==> s.owner[k] == Some(t) {
    }
    hide Gone;
    forall k | 0 <= k < |s.queue| && s.owner[k] != Some(t) ensures TidyAt(WithoutWaiter(s, t), s3, k, {}) {
      TidyAtTheEnd(s, s1, s2, s3, t, k);
    }
  }

  lemma TidyAtTheEnd(s: Sys, s1: Sys, s2: Sys, s3: Sys, t: Task, k: Mutex)
    requires Shape(s) && Shape(s1) && Waiters(s1) && Leaves(s, s1, t) && PartWay(s1, s2, t) && s2.waits[t] == None
    requires s3.queue == s2.queue && |s3.pri| == |s2.pri| && k < |s.queue| == |s2.queue| && s2.queue[k] == s1.queue[k]
    requires forall u :: 0 <= u < |s2.pri| && u != t ==> s3.pri[u] == s2.pri[u]
    requires !Gone(s1, s2, t, k)
    ensures TidyAt(WithoutWaiter(s, t), s3, k, {})
  {
    hide Tidy, OwnersGone;
    var s0 := WithoutWaiter(s, t);
    assert TidyAt(s0, s1, k, {});
    forall u | u in s1.queue[k] ensures u < |s1.pri| && s3.pri[u] == s1.pri[u] {
      assert s1.waits[u] == Some(k) && s2.waits[u] == Some(k) && u != t;
    }
    if s.attr[k] != TA_TFIFO {
      TidyHas(s0.queue[k], s1.queue[k], s0.pri, s1.pri, {});
      SameInside(s0.queue[k], s1.queue[k], s1.pri, s3.pri);
      PriCounts(s, s1, t);
      TidySooner(s0.queue[k], s1.queue[k], s0.pri, s1.pri, s3.pri, {});
    }
  }

  lemma PriCounts(s: Sys, s1: Sys, t: Task)
    requires Shape(s) && Shape(s1) && Leaves(s, s1, t)
    ensures |s1.pri| == |s.pri| == |WithoutWaiter(s, t).pri|
  {
  }

  /** It makes no difference that the wait of `t` was ended first. */
  lemma EndsFromTheStart(s: Sys, s1: Sys, s2: Sys, t: Task, p: nat)
    requires Shape(s) && Shape(s1) && Waiters(s1) && Leaves(s, s1, t) && PartWay(s1, s2, t)
    requires s2.held[t] == [] && s2.waits[t] == None
    ensures Ended(s, s2.(bpri := s2.bpri[t := p], pri := s2.pri[t := p]), t, p)
  {
    hide QueuesEnded, Waiters, Orderly, PrisKept;
    var s3 := s2.(bpri := s2.bpri[t := p], pri := s2.pri[t := p]);
    QueuesAtTheEnd(s, s1, s2, s3, t);
    assert |s3.held| == |s3.waits| == |s3.pri| == |s.bpri| && |s3.owner| == |s.owner|;
    hide Shape;
    forall k | 0 <= k < |s.owner|
      ensures s3.owner[k] == if s.owner[k] == Some(t) then FirstWaiter(s, k) else s.owner[k]
    {
      hide WaitsGone;
      assert Gone(s1, s2, t, k) <==> s.owner[k] == Some(t);
    }
    forall u | 0 <= u < |s.waits| && u != t
      ensures s3.waits[u] == match s.waits[u] case None => None
                             case Some(k) =>
                               if k < |s.owner| && s.owner[k] == Some(t) && FirstWaiter(s, k) == Some(u) then None
                               else Some(k)
    {
      hide OwnersGone;
      if s.waits[u].Some? && s.waits[u].value < |s.owner| {
        assert Gone(s1, s2, t, s.waits[u].value) <==> s.owner[s.waits[u].value] == Some(t);
      }
    }
  }

  lemma NoWaitLeaves(s: Sys, t: Task)
    requires Shape(s) && t < |s.bpri| && s.waits[t] == None
    ensures Leaves(s, s, t)
  {
    OrderlySame(s);
    hide Orderly;
    assert s.waits == s.waits[t := None];
  }
}
