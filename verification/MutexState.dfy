/** Tasks, mutexes, who holds and who waits for what, and the priorities that follow. */
module MutexState {
  import opened Tasks
  import opened Sequences
  import W = WaitQueues

  type Mutex = nat

  datatype Attr = TA_TFIFO | TA_TPRI | TA_INHERIT | TA_CEILING

  /** A snapshot of the control blocks.  Per task: base priority, current priority (smaller
      is more urgent), the mutex it waits for, its list of held mutexes (`mtxlist`).  Per
      mutex: attribute, ceiling, owner (`mtxtsk`), wait queue. */
  datatype Sys = Sys(bpri: seq<nat>, pri: seq<nat>, waits: seq<Option<Mutex>>, held: seq<seq<Mutex>>,
                     attr: seq<Attr>, ceil: seq<nat>, owner: seq<Option<Task>>, queue: seq<seq<Task>>)

  ghost predicate Shape(s: Sys) {
    && |s.pri| == |s.waits| == |s.held| == |s.bpri|
    && |s.ceil| == |s.owner| == |s.queue| == |s.attr|
    && (forall t, m :: 0 <= t < |s.held| && m in s.held[t] ==> m < |s.attr|)
    && (forall m, t :: 0 <= m < |s.queue| && t in s.queue[m] ==> t < |s.bpri|)
    && (forall m :: 0 <= m < |s.owner| && s.owner[m].Some? ==> s.owner[m].value < |s.bpri|)
  }

  /** Every owned mutex is on the list of its owner, once, and on no other list; only the
      mutex `loose`, if any, is off its owner's list already. */
  ghost predicate Owners(s: Sys, loose: Option<Mutex>)
    requires Shape(s)
  {
    && (forall t, m :: 0 <= t < |s.held| && 0 <= m < |s.owner| ==>
          (m in s.held[t] <==> s.owner[m] == Some(t) && loose != Some(m)))
    && (forall t :: 0 <= t < |s.held| ==> NoRepeats(s.held[t]))
  }

  /** A task is in the queue of the mutex it waits for, once, and such a mutex has an owner. */
  ghost predicate Waiters(s: Sys)
    requires Shape(s)
  {
    && (forall m, t :: 0 <= m < |s.queue| && 0 <= t < |s.waits| ==> (t in s.queue[m] <==> s.waits[t] == Some(m)))
    && (forall m :: 0 <= m < |s.queue| ==> NoRepeats(s.queue[m]))
    && (forall t :: 0 <= t < |s.waits| && s.waits[t].Some? ==>
          s.waits[t].value < |s.owner| && s.owner[s.waits[t].value].Some?)
  }

  lemma OwnersSame(s: Sys, s': Sys, loose: Option<Mutex>)
    requires Shape(s) && Shape(s') && Owners(s, loose) && s'.held == s.held && s'.owner == s.owner
    ensures Owners(s', loose)
  {
    hide Shape;
  }

  ghost predicate SortedBy(q: seq<Task>, pri: seq<nat>) {
    && (forall i :: 0 <= i < |q| ==> q[i] < |pri|)
    && (forall i, k :: 0 <= i < k < |q| ==> pri[q[i]] <= pri[q[k]])
  }

  ghost predicate Sorted(s: Sys)
    requires Shape(s)
  {
    forall m :: 0 <= m < |s.queue| && s.attr[m] != TA_TFIFO ==> SortedBy(s.queue[m], s.pri)
  }

  /** No base priority is above a ceiling that binds the task. */
  ghost predicate Ceilings(s: Sys)
    requires Shape(s)
  {
    forall t, m | 0 <= t < |s.bpri| && 0 <= m < |s.attr| ::
      (s.attr[m] == TA_CEILING && (s.owner[m] == Some(t) || s.waits[t] == Some(m))) ==> s.ceil[m] <= s.bpri[t]
  }

  /** `t` waits for a mutex that `o` owns. */
  ghost predicate WaitsFor(s: Sys, t: Task, o: Task) {
    t < |s.waits| && s.waits[t].Some? && s.waits[t].value < |s.owner| && s.owner[s.waits[t].value] == Some(o)
  }

  /** `rank` falls along every step from a waiting task to the owner it waits for, so that
      waiting never goes round in a circle. */
  ghost predicate Ranked(s: Sys, rank: seq<nat>)
    requires Shape(s)
  {
    && |rank| == |s.bpri|
    && forall t, o | 0 <= t < |s.waits| && 0 <= o < |s.bpri| :: WaitsFor(s, t, o) ==> rank[o] < rank[t]
  }

  /** What holding mutex `m` demands: its ceiling, or the priority of its first waiter. */
  function Demand(s: Sys, m: Mutex): Option<nat>
    requires m < |s.attr| == |s.queue| == |s.ceil|
  {
    match s.attr[m]
    case TA_CEILING => Some(s.ceil[m])
    case TA_INHERIT => if s.queue[m] != [] then HeadPri(s, m) else None
    case _ => None
  }

  /** The priority of the first task waiting for `m`. */
  function HeadPri(s: Sys, m: Mutex): Option<nat>
    requires m < |s.queue| && s.queue[m] != []
  {
    var u := s.queue[m][0];
    if u < |s.pri| then Some(s.pri[u]) else None
  }

  /** `x` is the most urgent of the base priority of `t` and the demands of the mutexes it
      holds. */
  ghost predicate Least(s: Sys, t: Task, x: nat)
    requires Shape(s) && t < |s.bpri|
  {
    && x <= s.bpri[t]
    && (forall m :: m in s.held[t] && Demand(s, m).Some? ==> x <= Demand(s, m).value)
    && (x == s.bpri[t] || exists m :: m in s.held[t] && Demand(s, m) == Some(x))
  }

  /** The priority of `t` is what the protocol says it must be. */
  ghost predicate Fixed(s: Sys, t: Task)
    requires Shape(s) && t < |s.bpri|
  {
    Least(s, t, s.pri[t])
  }

  ghost predicate FixedExcept(s: Sys, x: set<Task>)
    requires Shape(s)
  {
    forall t :: 0 <= t < |s.bpri| && t !in x ==> Fixed(s, t)
  }

  /** The lists and queues are in order. */
  ghost predicate Links(s: Sys, loose: Option<Mutex>, rank: seq<nat>) {
    Shape(s) && Owners(s, loose) && Waiters(s) && Sorted(s) && Ranked(s, rank)
  }

  /** The invariant between two system calls. */
  ghost predicate Inv(s: Sys, rank: seq<nat>) {
    Links(s, None, rank) && Ceilings(s) && FixedExcept(s, {})
  }

  /** Equal demands and equal base priority make equal priorities. */
  lemma SameDemands(s: Sys, s': Sys, t: Task, x: nat)
    requires Shape(s) && Shape(s') && t < |s.bpri| && |s'.bpri| == |s.bpri| && |s'.attr| == |s.attr|
    requires s'.bpri[t] == s.bpri[t] && s'.held[t] == s.held[t]
    requires forall m :: m in s.held[t] ==> m < |s.attr| && Demand(s', m) == Demand(s, m)
    ensures Least(s', t, x) <==> Least(s, t, x)
  {
  }

  ghost predicate OwnedBelow(s: Sys, m: Mutex, t: Task, rank: seq<nat>)
    requires Shape(s) && |rank| == |s.bpri| && t < |s.bpri| && m < |s.owner|
  {
    s.owner[m].Some? && rank[s.owner[m].value] < rank[t]
  }

  /* ---- The order of wait queues. ---- */

  /** `t` stands after all that are no less urgent and before all that are less urgent. */
  ghost predicate InsertedByPriority(q: seq<Task>, q': seq<Task>, t: Task, pri: seq<nat>) {
    && t < |pri| && (forall i :: 0 <= i < |q| ==> q[i] < |pri|)
    && exists i :: W.PlaceFor(W.PrisIn(q, pri), pri[t], i) && q' == InsertAt(q, i, t)
  }

  /** The priority of `u` was set, or at least `u` is in `x`. */
  ghost predicate Moved(pri: seq<nat>, pri': seq<nat>, x: set<Task>, u: Task) {
    u in x || u >= |pri| || u >= |pri'| || pri[u] != pri'[u]
  }

  /** Whoever has moved stands where its new priority puts it, behind its equals, and the others
      as before. */
  ghost predicate Tidy(q: seq<Task>, q': seq<Task>, pri: seq<nat>, pri': seq<nat>, x: set<Task>) {
    && (forall u :: u in q && Moved(pri, pri', x, u) ==> InsertedByPriority(Dropped(q, Some(u)), q', u, pri'))
    && ((forall u :: u in q ==> !Moved(pri, pri', x, u)) ==> q' == q)
  }

  /** So it is in the queue of `k`, if that is not first in, first out. */
  ghost predicate TidyAt(s: Sys, s': Sys, k: Mutex, x: set<Task>)
    requires k < |s.attr| && k < |s.queue| && k < |s'.queue|
  {
    s.attr[k] != TA_TFIFO ==> Tidy(s.queue[k], s'.queue[k], s.pri, s'.pri, x)
  }

  ghost predicate Orderly(s: Sys, s': Sys, x: set<Task>) {
    |s.queue| == |s'.queue| <= |s.attr| && forall k :: 0 <= k < |s.queue| ==> TidyAt(s, s', k, x)
  }

  /** Only the priorities of those in the queue matter. */
  lemma InsertedSame(q: seq<Task>, q': seq<Task>, t: Task, pri: seq<nat>, pri': seq<nat>)
    requires InsertedByPriority(q, q', t, pri) && |pri| == |pri'| && pri'[t] == pri[t]
    requires forall i :: 0 <= i < |q| ==> pri'[q[i]] == pri[q[i]]
    ensures InsertedByPriority(q, q', t, pri')
  {
    hide W.PlaceFor;
    assert W.PrisIn(q, pri') == W.PrisIn(q, pri);
  }

  ghost predicate SamePris(q: seq<Task>, pri: seq<nat>, pri': seq<nat>) {
    |pri| == |pri'| && forall u :: u in q ==> u < |pri| && pri'[u] == pri[u]
  }

  /** The queue and its priorities had been the same before. */
  lemma TidyLater(q: seq<Task>, q': seq<Task>, pri: seq<nat>, pri1: seq<nat>, pri': seq<nat>, x: set<Task>,
                  y: set<Task>)
    requires SamePris(q, pri, pri1) && Tidy(q, q', pri1, pri', x)
    requires forall u :: u in q && u in y ==> Moved(pri1, pri', x, u)
    requires forall u :: u in q && u in x ==> u in y || Moved(pri, pri', y, u)
    ensures Tidy(q, q', pri, pri', y)
  {
    hide InsertedByPriority;
    forall u | u in q ensures Moved(pri, pri', y, u) <==> Moved(pri1, pri', x, u) {
    }
    hide Moved;
  }

  /** The queue and its priorities are the same afterwards. */
  lemma TidySooner(q: seq<Task>, q': seq<Task>, pri: seq<nat>, pri1: seq<nat>, pri': seq<nat>, x: set<Task>)
    requires SamePris(q, pri1, pri') && |pri| == |pri1| && Tidy(q, q', pri, pri1, x)
    ensures Tidy(q, q', pri, pri', x)
  {
    forall u | u in q && Moved(pri, pri', x, u) ensures InsertedByPriority(Dropped(q, Some(u)), q', u, pri') {
      assert InsertedByPriority(Dropped(q, Some(u)), q', u, pri1);
      forall i | 0 <= i < |Dropped(q, Some(u))| ensures Dropped(q, Some(u))[i] in q {
        DroppedHas(q, Some(u), Dropped(q, Some(u))[i]);
      }
      InsertedSame(Dropped(q, Some(u)), q', u, pri1, pri');
    }
    hide InsertedByPriority;
  }

  /** The tasks are the same. */
  lemma TidyHas(q: seq<Task>, q': seq<Task>, pri: seq<nat>, pri': seq<nat>, x: set<Task>)
    requires Tidy(q, q', pri, pri', x)
    ensures forall v :: v in q ==> v in q'
  {
    if u :| u in q && Moved(pri, pri', x, u) {
      var r := Dropped(q, Some(u));
      var i :| W.PlaceFor(W.PrisIn(r, pri'), pri'[u], i) && q' == InsertAt(r, i, u);
      InsertHas(r, i, u);
      forall v | v in q ensures v in q' {
        DroppedHas(q, Some(u), v);
      }
    }
  }

  lemma TidySame(q: seq<Task>, pri: seq<nat>, pri': seq<nat>, x: set<Task>)
    requires SamePris(q, pri, pri') && forall u :: u in q ==> u !in x
    ensures Tidy(q, q, pri, pri', x)
  {
    hide InsertedByPriority;
  }

  /** Base priorities, owners and lists do not matter. */
  lemma OrderlyFrom(s: Sys, s1: Sys, s2: Sys, x: set<Task>)
    requires Orderly(s1, s2, x) && s1.queue == s.queue && s1.pri == s.pri && s1.attr == s.attr
    ensures Orderly(s, s2, x)
  {
    hide Tidy;
    forall k | 0 <= k < |s.queue| ensures TidyAt(s, s2, k, x) {
      assert TidyAt(s1, s2, k, x);
    }
  }

  lemma OrderlySame(s: Sys)
    requires Shape(s)
    ensures Orderly(s, s, {})
  {
    hide Tidy;
    forall k | 0 <= k < |s.queue| ensures TidyAt(s, s, k, {}) {
      TidySame(s.queue[k], s.pri, s.pri, {});
    }
  }

  /** Only the queue that `t` is in changes. */
  lemma ReprioritisedOrderly(s: Sys, s': Sys, t: Task, p: nat)
    requires Shape(s) && Waiters(s) && t < |s.bpri| && Reprioritised(s, s', t, p)
    ensures Orderly(s, s', {t})
  {
    hide InsertedByPriority;
    forall k | 0 <= k < |s.queue| ensures TidyAt(s, s', k, {t}) {
      if s.waits[t] != Some(k) {
        TidySame(s.queue[k], s.pri, s'.pri, {t});
      }
    }
  }

  /** A change of `t` that reached the owner `o` of the mutex `m` it waits for. */
  lemma OrderlyThen(s: Sys, s1: Sys, s2: Sys, t: Task, p: nat, m: Mutex, o: Task, rank: seq<nat>)
    requires Shape(s) && Shape(s1) && Shape(s2) && Waiters(s) && Waiters(s1) && Ranked(s1, rank)
    requires t < |s.bpri| && Reprioritised(s, s1, t, p) && s.waits[t] == Some(m) && m < |s.owner|
    requires s.owner[m] == Some(o)
    requires o < |s1.bpri| && Below(s1, s2, o, rank) && Orderly(s1, s2, {})
    ensures Orderly(s, s2, {t})
  {
    ReprioritisedOrderly(s, s1, t, p);
    hide Tidy, Ranked;
    forall k | 0 <= k < |s.queue| ensures TidyAt(s, s2, k, {t}) {
      if s.attr[k] != TA_TFIFO {
        if k == m {
          WaitersStay(s1, s2, o, rank, m);
          assert TidyAt(s, s1, m, {t});
          SameTasks(s, s1, t, p, m);
          TidySooner(s.queue[m], s2.queue[m], s.pri, s1.pri, s2.pri, {t});
        } else {
          assert t !in s.queue[k] && TidyAt(s1, s2, k, {});
          TidyLater(s.queue[k], s2.queue[k], s.pri, s1.pri, s2.pri, {}, {t});
        }
      }
    }
  }

  lemma SameTasks(s: Sys, s1: Sys, t: Task, p: nat, m: Mutex)
    requires Shape(s) && t < |s.bpri| && Reprioritised(s, s1, t, p) && m < |s.queue| && s.waits[t] == Some(m)
    ensures |s1.queue| == |s.queue| && forall u :: u in s.queue[m] ==> u in s1.queue[m]
  {
    hide InsertedByPriority;
  }

  /** Whoever waits for a mutex of `o` is above `o`. */
  lemma WaitersStay(s: Sys, s': Sys, o: Task, rank: seq<nat>, m: Mutex)
    requires Shape(s) && Shape(s') && Waiters(s) && Ranked(s, rank) && o < |s.bpri| && Below(s, s', o, rank)
    requires m < |s.owner| && s.owner[m] == Some(o)
    ensures m < |s'.queue| && s'.queue[m] == s.queue[m] && SamePris(s.queue[m], s.pri, s'.pri)
  {
    assert !OwnedBelow(s, m, o, rank);
    forall u | u in s.queue[m] ensures u < |s.pri| && s'.pri[u] == s.pri[u] {
      assert WaitsFor(s, u, o);
    }
  }

  /** What was changed on purpose is no exception. */
  lemma OrderlyChanged(s: Sys, s': Sys, t: Task)
    requires Orderly(s, s', {t}) && (t >= |s.pri| || t >= |s'.pri| || s.pri[t] != s'.pri[t])
    ensures Orderly(s, s', {})
  {
    hide InsertedByPriority;
    forall k | 0 <= k < |s.queue| ensures TidyAt(s, s', k, {}) {
      assert TidyAt(s, s', k, {t});
      assert forall u :: Moved(s.pri, s'.pri, {t}, u) <==> Moved(s.pri, s'.pri, {}, u);
    }
  }

  /** What a change of priority leaves alone: everything but priorities and the order of
      wait queues, and these only below `t` in rank. */
  ghost predicate Below(s: Sys, s': Sys, t: Task, rank: seq<nat>)
    requires Shape(s) && Shape(s') && |rank| == |s.bpri| && t < |s.bpri|
  {
    && s'.bpri == s.bpri && s'.waits == s.waits && s'.held == s.held
    && s'.attr == s.attr && s'.ceil == s.ceil && s'.owner == s.owner
    && (forall u :: 0 <= u < |s.pri| && u != t && rank[u] >= rank[t] ==> s'.pri[u] == s.pri[u])
    && (forall m :: 0 <= m < |s.owner| && (s.attr[m] == TA_TFIFO || !OwnedBelow(s, m, t, rank)) ==>
          s'.queue[m] == s.queue[m])
  }

  /** The result of `change_task_priority(t, p)`: nothing above `t` is touched, `t` has its
      new priority, and everybody else who was settled still is; `x` are the tasks that
      were not, `t` among them, none of lower rank than `t`. */
  ghost predicate Changed(s: Sys, s': Sys, t: Task, p: nat, rank: seq<nat>, loose: Option<Mutex>, x: set<Task>) {
    && t < |s.bpri| && Links(s, loose, rank) && Links(s', loose, rank)
    && Below(s, s', t, rank) && s'.pri[t] == p && Orderly(s, s', {t})
    && FixedExcept(s', x)
  }

  /** What `t` must have as its priority is not touched by what happens below it. */
  lemma DemandsStay(s: Sys, s': Sys, t: Task, rank: seq<nat>, loose: Option<Mutex>, x: nat)
    requires Links(s, loose, rank) && Links(s', loose, rank) && t < |s.bpri| && Below(s, s', t, rank)
    ensures Least(s', t, x) <==> Least(s, t, x)
  {
    forall m | m in s.held[t] ensures m < |s.attr| && Demand(s', m) == Demand(s, m) {
      DemandStays(s, s', t, rank, loose, m);
    }
    SameDemands(s, s', t, x);
  }

  lemma DemandStays(s: Sys, s': Sys, t: Task, rank: seq<nat>, loose: Option<Mutex>, m: Mutex)
    requires Links(s, loose, rank) && Links(s', loose, rank) && t < |s.bpri| && Below(s, s', t, rank)
    requires m in s.held[t] && m < |s.attr|
    ensures Demand(s', m) == Demand(s, m)
  {
    assert s.owner[m] == Some(t);
    if s.queue[m] != [] {
      var u := s.queue[m][0];
      assert u in s.queue[m] && u < |s.waits|;
      assert WaitsFor(s, u, t);
    }
  }

  /** A priority change that ends at what the protocol demands settles its task. */
  lemma ChangedSettles(s: Sys, s': Sys, t: Task, p: nat, rank: seq<nat>, loose: Option<Mutex>, x: set<Task>)
    requires Changed(s, s', t, p, rank, loose, x) && Least(s, t, p)
    ensures FixedExcept(s', x - {t})
  {
    DemandsStay(s, s', t, rank, loose, p);
    hide Sorted, Ranked, Least, Owners, Waiters;
    forall u | 0 <= u < |s'.bpri| && u !in x - {t} ensures Fixed(s', u) {
      if u != t {
        assert u !in x;
      }
    }
  }

  /** `t` gets priority `p` and its wait queue, if it waits, is put in order again. */
  ghost predicate Reprioritised(s: Sys, s': Sys, t: Task, p: nat)
    requires Shape(s) && t < |s.bpri|
  {
    && s' == s.(pri := s.pri[t := p], queue := s'.queue) && |s'.queue| == |s.queue|
    && (forall m :: 0 <= m < |s.queue| && s.waits[t] != Some(m) ==> s'.queue[m] == s.queue[m])
    && (forall m :: 0 <= m < |s.queue| && s.waits[t] == Some(m) ==>
          && (forall u :: u in s'.queue[m] <==> u in s.queue[m]) && NoRepeats(s'.queue[m])
          && if s.attr[m] == TA_TFIFO then s'.queue[m] == s.queue[m]
             else
               && SortedBy(s'.queue[m], s'.pri)
               && InsertedByPriority(Dropped(s.queue[m], Some(t)), s'.queue[m], t, s'.pri))
  }

  lemma ReprioritisedShape(s: Sys, s': Sys, t: Task, p: nat)
    requires Shape(s) && t < |s.bpri| && Reprioritised(s, s', t, p)
    ensures Shape(s')
  {
    forall m, u | 0 <= m < |s'.queue| && u in s'.queue[m] ensures u < |s'.bpri| {
      assert u in s.queue[m];
    }
  }

  lemma ReprioritisedWaiters(s: Sys, s': Sys, t: Task, p: nat)
    requires Shape(s) && t < |s.bpri| && Reprioritised(s, s', t, p) && Shape(s') && Waiters(s)
    ensures Waiters(s')
  {
    forall m | 0 <= m < |s'.queue| ensures NoRepeats(s'.queue[m]) {
    }
    forall m, u | 0 <= m < |s'.queue| && 0 <= u < |s'.waits| ensures u in s'.queue[m] <==> s'.waits[u] == Some(m) {
      assert u in s.queue[m] <==> s.waits[u] == Some(m);
    }
  }

  lemma ReprioritisedSorted(s: Sys, s': Sys, t: Task, p: nat)
    requires Shape(s) && t < |s.bpri| && Reprioritised(s, s', t, p) && Shape(s') && Waiters(s) && Sorted(s)
    ensures Sorted(s')
  {
    forall m | 0 <= m < |s'.queue| && s'.attr[m] != TA_TFIFO ensures SortedBy(s'.queue[m], s'.pri) {
      if s.waits[t] != Some(m) {
        assert t !in s.queue[m];
        assert SortedBy(s.queue[m], s.pri);
      }
    }
  }

  lemma RankedSame(s: Sys, s': Sys, rank: seq<nat>)
    requires Shape(s) && Shape(s') && Ranked(s, rank)
    requires s'.waits == s.waits && s'.owner == s.owner && |s'.bpri| == |s.bpri|
    ensures Ranked(s', rank)
  {
    forall u, o | 0 <= u < |s'.waits| && 0 <= o < |s'.bpri| && WaitsFor(s', u, o) ensures rank[o] < rank[u] {
      assert WaitsFor(s, u, o);
    }
  }

  lemma ReprioritisedBelow(s: Sys, s': Sys, t: Task, p: nat, rank: seq<nat>)
    requires Shape(s) && Shape(s') && Waiters(s) && Ranked(s, rank) && t < |s.bpri| && Reprioritised(s, s', t, p)
    ensures Below(s, s', t, rank)
  {
    forall m | 0 <= m < |s.owner| && (s.attr[m] == TA_TFIFO || !OwnedBelow(s, m, t, rank))
      ensures s'.queue[m] == s.queue[m]
    {
      if s.waits[t] == Some(m) {
        assert s.owner[m].Some?;
        assert WaitsFor(s, t, s.owner[m].value);
      }
    }
  }

  lemma ReprioritisedOwners(s: Sys, s': Sys, t: Task, p: nat, loose: Option<Mutex>)
    requires Shape(s) && t < |s.bpri| && Reprioritised(s, s', t, p) && Shape(s') && Owners(s, loose)
    ensures Owners(s', loose) && s'.waits == s.waits && s'.owner == s.owner && s'.bpri == s.bpri
  {
    hide Shape, Owners;
    OwnersSame(s, s', loose);
  }

  lemma ReprioritisedLinks(s: Sys, s': Sys, t: Task, p: nat, rank: seq<nat>, loose: Option<Mutex>)
    requires Links(s, loose, rank) && t < |s.bpri| && Reprioritised(s, s', t, p)
    ensures Links(s', loose, rank) && Below(s, s', t, rank)
  {
    hide Owners, Shape, Below, Waiters, Sorted, Ranked;
    ReprioritisedShape(s, s', t, p);
    ReprioritisedOwners(s, s', t, p, loose);
    ReprioritisedWaiters(s, s', t, p);
    ReprioritisedSorted(s, s', t, p);
    RankedSame(s, s', rank);
    ReprioritisedBelow(s, s', t, p, rank);
  }

  /** Only the owner of the mutex `t` waits for can be affected. */
  lemma ReprioritisedOthers(s: Sys, s': Sys, t: Task, p: nat, u: Task, x: nat, loose: Option<Mutex>)
    requires Shape(s) && Shape(s') && Owners(s, loose) && Waiters(s) && t < |s.bpri| && Reprioritised(s, s', t, p)
    requires u < |s.bpri| && forall m :: m in s.held[u] && m < |s.attr| && s.attr[m] == TA_INHERIT ==>
               s.waits[t] != Some(m)
    ensures Least(s', u, x) <==> Least(s, u, x)
  {
    forall m | m in s.held[u] ensures m < |s.attr| && Demand(s', m) == Demand(s, m) {
      if s.waits[t] != Some(m) && s.queue[m] != [] {
        assert s.queue[m][0] in s.queue[m];
      }
    }
    hide Owners, Waiters;
    SameDemands(s, s', u, x);
  }

  lemma HeadIsLeast(s: Sys, m: Mutex, u: Task)
    requires Shape(s) && Sorted(s) && m < |s.queue| && s.attr[m] == TA_INHERIT && u in s.queue[m]
    ensures Demand(s, m).Some? && Demand(s, m).value <= s.pri[u]
    ensures exists h :: h in s.queue[m] && Demand(s, m) == Some(s.pri[h])
  {
    assert SortedBy(s.queue[m], s.pri);
    assert s.queue[m][0] in s.queue[m];
  }

  /** The owner is to be raised: the new priority of the waiter is what it needs. */
  lemma OwnerRaised(s: Sys, s': Sys, t: Task, p: nat, m: Mutex, o: Task, loose: Option<Mutex>)
    requires Shape(s) && Shape(s') && Owners(s, loose) && Waiters(s) && Sorted(s') && t < |s.bpri|
    requires Reprioritised(s, s', t, p) && s.waits[t] == Some(m) && s.owner[m] == Some(o) && o != t
    requires m in s.held[o] && s.attr[m] == TA_INHERIT
    requires Sorted(s) && Fixed(s, o) && s.pri[o] > p
    ensures Least(s', o, p)
  {
    assert t in s'.queue[m];
    HeadIsLeast(s', m, t);
    var h :| h in s'.queue[m] && Demand(s', m) == Some(s'.pri[h]);
    assert h in s.queue[m];
    HeadIsLeast(s, m, h);
    forall m' | m' in s.held[o] && Demand(s', m').Some? ensures p <= Demand(s', m').value {
      OtherDemand(s, s', t, p, m, m', o, loose);
    }
  }

  lemma OtherDemand(s: Sys, s': Sys, t: Task, p: nat, m: Mutex, m': Mutex, o: Task, loose: Option<Mutex>)
    requires Shape(s) && Shape(s') && Waiters(s) && t < |s.bpri|
    requires Reprioritised(s, s', t, p) && s.waits[t] == Some(m) && o < |s.held| && m' in s.held[o]
    ensures m' != m ==> Demand(s', m') == Demand(s, m')
  {
    if m' != m && s.queue[m'] != [] {
      assert s.queue[m'][0] in s.queue[m'];
    }
  }

  /** A waiter that was not the reason for the priority `y` of the owner changes its own,
      and asks for no more than `y`. */
  lemma DemandKept(s: Sys, s': Sys, t: Task, p: nat, m: Mutex, y: nat)
    requires Shape(s) && Shape(s') && Waiters(s) && Sorted(s) && Sorted(s') && t < |s.bpri|
    requires Reprioritised(s, s', t, p) && s.waits[t] == Some(m) && m < |s.attr| && s.attr[m] == TA_INHERIT
    requires y <= p && y != s.pri[t] && (Demand(s, m).Some? ==> y <= Demand(s, m).value)
    ensures Demand(s', m).Some? && y <= Demand(s', m).value
    ensures Demand(s, m) == Some(y) ==> Demand(s', m) == Some(y)
  {
    assert t in s'.queue[m] && t in s.queue[m];
    HeadIsLeast(s, m, t);
    var g :| g in s.queue[m] && Demand(s, m) == Some(s.pri[g]);
    assert g in s'.queue[m];
    HeadIsLeast(s', m, g);
    var h :| h in s'.queue[m] && Demand(s', m) == Some(s'.pri[h]);
    assert h in s.queue[m];
    HeadIsLeast(s, m, h);
  }

  /** The owner's priority was due to somebody or something else than the waiter, and the
      waiter asks for no more than before. */
  lemma OwnerUnaffected(s: Sys, s': Sys, t: Task, p: nat, m: Mutex, o: Task, loose: Option<Mutex>)
    requires Shape(s) && Shape(s') && Owners(s, loose) && Waiters(s) && Sorted(s') && t < |s.bpri|
    requires m < |s.owner| && o < |s.bpri| && o != t
    requires Reprioritised(s, s', t, p) && s.waits[t] == Some(m) && s.owner[m] == Some(o)
    requires m in s.held[o] && s.attr[m] == TA_INHERIT
    requires Sorted(s) && Fixed(s, o) && s.pri[o] <= p && s.pri[o] != s.pri[t]
    ensures Fixed(s', o)
  {
    hide Owners, Waiters, Sorted, Demand, Reprioritised;
    SetTo(s, s', t, p);
    DemandsKept(s, s', t, p, m, o, s.pri[o]);
    forall m' | m' in s.held[o] ensures m' < |s.attr| && (m' != m ==> Demand(s', m') == Demand(s, m')) {
      OtherDemand(s, s', t, p, m, m', o, loose);
    }
  }

  lemma DemandsKept(s: Sys, s': Sys, t: Task, p: nat, m: Mutex, o: Task, y: nat)
    requires Shape(s) && Shape(s') && Waiters(s) && Sorted(s) && Sorted(s') && t < |s.bpri| && o < |s.bpri|
    requires Reprioritised(s, s', t, p) && s.waits[t] == Some(m) && m in s.held[o] && s.attr[m] == TA_INHERIT
    requires Least(s, o, y) && y <= p && y != s.pri[t]
    ensures m < |s'.attr| && Demand(s', m).Some? && y <= Demand(s', m).value
    ensures Demand(s, m) == Some(y) ==> Demand(s', m) == Some(y)
  {
    DemandKept(s, s', t, p, m, y);
    hide Waiters, Sorted, InsertedByPriority;
  }

  /** What `change_task_priority(t, ..)` may rely on: the unsettled tasks `x`, and a mutex
      taken off its list, concern nobody below `t`. */
  ghost predicate Ready(s: Sys, t: Task, rank: seq<nat>, loose: Option<Mutex>, x: set<Task>) {
    && Links(s, loose, rank) && t < |s.bpri| && t in x
    && (forall u :: u in x ==> u < |s.bpri| && rank[u] >= rank[t])
    && (loose.Some? && loose.value < |s.owner| ==> !OwnedBelow(s, loose.value, t, rank))
    && FixedExcept(s, x)
  }

  /** The owner a task waits for is settled and has its mutex on its list. */
  lemma OwnerOf(s: Sys, t: Task, rank: seq<nat>, loose: Option<Mutex>, x: set<Task>, m: Mutex)
    requires Ready(s, t, rank, loose, x) && s.waits[t] == Some(m)
    ensures m < |s.attr| && s.owner[m].Some?
    ensures var o := s.owner[m].value;
            o < |s.bpri| && rank[o] < rank[t] && o != t && o !in x && m in s.held[o] && Fixed(s, o)
  {
    var o := s.owner[m].value;
    assert WaitsFor(s, t, o);
  }

  /** Nothing above the owner is left to do. */
  lemma ReprioritisedReady(s: Sys, s': Sys, t: Task, p: nat, rank: seq<nat>, loose: Option<Mutex>, x: set<Task>,
                           m: Mutex)
    requires Ready(s, t, rank, loose, x) && Reprioritised(s, s', t, p) && s.waits[t] == Some(m)
    ensures m < |s.attr| && s.owner[m].Some?
    ensures Below(s, s', t, rank) && Links(s', loose, rank)
    ensures Ready(s', s.owner[m].value, rank, loose, x + {s.owner[m].value})
  {
    hide Owners, Waiters, Sorted, Ranked, Least, Reprioritised, OwnedBelow;
    OwnerOf(s, t, rank, loose, x, m);
    ReprioritisedLinks(s, s', t, p, rank, loose);
    var o := s.owner[m].value;
    forall u | 0 <= u < |s'.bpri| && u !in x + {o} ensures Fixed(s', u) {
      FixedStays(s, s', t, p, u, loose, m);
    }
    RankedFits(s', rank);
    if loose.Some? && loose.value < |s.owner| {
      StillAbove(s, s', loose.value, t, o, rank);
    }
  }

  lemma RankedFits(s: Sys, rank: seq<nat>)
    requires Shape(s) && Ranked(s, rank)
    ensures |rank| == |s.bpri|
  {
  }

  lemma StillAbove(s: Sys, s': Sys, m: Mutex, t: Task, o: Task, rank: seq<nat>)
    requires Shape(s) && Shape(s') && |rank| == |s.bpri| == |s'.bpri| && t < |s.bpri| && o < |s.bpri|
    requires rank[o] < rank[t]
    requires m < |s.owner| && s'.owner == s.owner && !OwnedBelow(s, m, t, rank)
    ensures !OwnedBelow(s', m, o, rank)
  {
  }

  lemma FixedStays(s: Sys, s': Sys, t: Task, p: nat, u: Task, loose: Option<Mutex>, m: Mutex)
    requires Shape(s) && Shape(s') && Owners(s, loose) && Waiters(s) && t < |s.bpri| && Reprioritised(s, s', t, p)
    requires s.waits[t] == Some(m) && m < |s.owner| && s.owner[m] != Some(u) && u != t && u < |s.bpri| && Fixed(s, u)
    ensures Fixed(s', u)
  {
    ReprioritisedOthers(s, s', t, p, u, s.pri[u], loose);
  }

  /** A change of `t` that reaches its owner `o`, followed by a change of `o`. */
  lemma ThenOwner(s: Sys, s1: Sys, s2: Sys, t: Task, p: nat, o: Task, rank: seq<nat>, loose: Option<Mutex>,
                  x: set<Task>)
    requires Links(s, loose, rank) && Links(s1, loose, rank) && Links(s2, loose, rank) && t < |s.bpri| && o < |s.bpri|
    requires Below(s, s1, t, rank) && s1.pri[t] == p && rank[o] < rank[t]
    requires Below(s1, s2, o, rank) && FixedExcept(s2, x) && Orderly(s, s2, {t})
    ensures Changed(s, s2, t, p, rank, loose, x)
  {
    hide Owners, Waiters, Sorted, FixedExcept, Orderly;
    forall m | 0 <= m < |s.owner| && (s.attr[m] == TA_TFIFO || !OwnedBelow(s, m, t, rank))
      ensures s2.queue[m] == s.queue[m]
    {
      assert s.attr[m] == TA_TFIFO || !OwnedBelow(s1, m, o, rank);
    }
  }

  /** A task whose change of priority calls no hook: nobody else is concerned. */
  lemma NoHook(s: Sys, s': Sys, t: Task, p: nat, rank: seq<nat>, loose: Option<Mutex>, x: set<Task>)
    requires Ready(s, t, rank, loose, x) && Reprioritised(s, s', t, p)
    requires forall m :: s.waits[t] == Some(m) && m < |s.attr| ==> s.attr[m] != TA_INHERIT
    ensures Changed(s, s', t, p, rank, loose, x)
  {
    ReprioritisedLinks(s, s', t, p, rank, loose);
    ReprioritisedOrderly(s, s', t, p);
    hide Sorted, Ranked, Least, Below, Owners, Waiters, Orderly;
    forall u | 0 <= u < |s'.bpri| && u !in x ensures Fixed(s', u) {
      ReprioritisedOthers(s, s', t, p, u, s.pri[u], loose);
    }
  }

  /** The list without `relm`. */
  function Dropped(l: seq<Mutex>, relm: Option<Mutex>): seq<Mutex> {
    if l == [] then []
    else if Some(l[0]) == relm then Dropped(l[1..], relm)
    else [l[0]] + Dropped(l[1..], relm)
  }

  lemma {:induction false} DroppedAway(l: seq<nat>, x: nat)
    requires x !in l
    ensures Dropped(l, Some(x)) == l
  {
    if l != [] {
      DroppedAway(l[1..], x);
    }
  }

  lemma {:induction false} DroppedAt(l: seq<nat>, i: nat)
    requires NoRepeats(l) && i < |l|
    ensures Dropped(l, Some(l[i])) == l[..i] + l[i + 1..]
  {
    if i == 0 {
      DroppedAway(l[1..], l[0]);
    } else {
      DroppedAt(l[1..], i - 1);
      assert l[1..][..i - 1] == l[1..i] && l[1..][i..] == l[i + 1..];
      assert l[0] != l[1..][i - 1];
    }
  }

  lemma {:induction false} DroppedHas(l: seq<Mutex>, relm: Option<Mutex>, m: Mutex)
    ensures m in Dropped(l, relm) <==> m in l && Some(m) != relm
  {
    if l != [] {
      DroppedHas(l[1..], relm, m);
    }
  }

  lemma {:induction false} DroppedOnce(l: seq<Mutex>, relm: Option<Mutex>)
    requires NoRepeats(l)
    ensures NoRepeats(Dropped(l, relm))
  {
    if l != [] {
      DroppedOnce(l[1..], relm);
      DroppedHas(l[1..], relm, l[0]);
      assert l[0] !in l[1..];
    }
  }

  lemma {:induction false} DroppedNone(l: seq<Mutex>)
    ensures Dropped(l, None) == l
  {
    if l != [] {
      DroppedNone(l[1..]);
    }
  }

  /** The state with `relm` off the list of `t`. */
  function Unlinked(s: Sys, t: Task, relm: Option<Mutex>): Sys
    requires t < |s.held|
  {
    s.(held := s.held[t := Dropped(s.held[t], relm)])
  }

  /** `x` is the most urgent of the base priority and the first `n` demands. */
  ghost predicate LeastOf(s: Sys, t: Task, n: nat, x: nat)
    requires Shape(s) && t < |s.bpri|
  {
    && x <= s.bpri[t] && n <= |s.held[t]|
    && (forall k :: 0 <= k < n && DemandAt(s, t, k).Some? ==> x <= DemandAt(s, t, k).value)
    && (x == s.bpri[t] || exists k :: 0 <= k < n && DemandAt(s, t, k) == Some(x))
  }

  ghost function DemandAt(s: Sys, t: Task, k: nat): Option<nat>
    requires Shape(s) && t < |s.bpri| && k < |s.held[t]|
  {
    assert s.held[t][k] in s.held[t];
    Demand(s, s.held[t][k])
  }

  lemma InShape(s: Sys, t: Task, k: nat)
    requires Shape(s) && t < |s.held| && k < |s.held[t]|
    ensures s.held[t][k] < |s.attr| == |s.ceil| == |s.queue| && t < |s.bpri|
    ensures s.queue[s.held[t][k]] != [] ==> s.queue[s.held[t][k]][0] < |s.pri|
  {
    var m := s.held[t][k];
    assert m in s.held[t];
    assert s.queue[m] != [] ==> s.queue[m][0] in s.queue[m];
  }

  lemma DemandSame(s: Sys, s1: Sys, t: Task, k: nat)
    requires Shape(s1) && t < |s1.bpri| && k < |s1.held[t]| && s1.held[t][k] < |s1.attr|
    requires s.(held := s1.held, bpri := s1.bpri) == s1
    ensures DemandAt(s1, t, k) == Demand(s, s1.held[t][k])
  {
  }

  /** A priority `pri` left over from an earlier mutex does no harm when the next one
      demands nothing, as it is no less than the least so far. */
  lemma LeastOfStep(s: Sys, t: Task, n: nat, x: nat, pri: nat)
    requires Shape(s) && t < |s.bpri| && LeastOf(s, t, n, x) && n < |s.held[t]|
    requires match DemandAt(s, t, n) case Some(d) => pri == d case None => x <= pri
    ensures LeastOf(s, t, n + 1, if x > pri then pri else x)
  {
  }

  lemma LeastOfAll(s: Sys, t: Task, x: nat)
    requires Shape(s) && t < |s.bpri| && LeastOf(s, t, |s.held[t]|, x)
    ensures Least(s, t, x)
  {
    forall m | m in s.held[t] && Demand(s, m).Some? ensures x <= Demand(s, m).value {
      var k :| 0 <= k < |s.held[t]| && s.held[t][k] == m;
      assert DemandAt(s, t, k) == Demand(s, m);
    }
  }

  /** The list with what is to be dropped after the first `i` gone. */
  function Half(l: seq<Mutex>, i: nat, relm: Option<Mutex>): seq<Mutex>
    requires i <= |l|
  {
    l[..i] + Dropped(l[i..], relm)
  }

  lemma HalfDone(l: seq<Mutex>, relm: Option<Mutex>)
    ensures Half(l, |l|, relm) == l
  {
    assert l[..|l|] == l && l[|l|..] == [];
  }

  lemma LeastOfNone(s: Sys, t: Task)
    requires Shape(s) && t < |s.bpri|
    ensures LeastOf(s, t, 0, s.bpri[t])
  {
  }

  lemma HalfSkip(l: seq<Mutex>, i: nat, relm: Option<Mutex>)
    requires i < |l| && Some(l[i]) == relm
    ensures Half(l[..i] + l[i + 1..], i, relm) == Half(l, i, relm)
  {
    var r := l[..i] + l[i + 1..];
    assert r[..i] == l[..i] && r[i..] == l[i + 1..] == l[i..][1..];
  }

  lemma HalfKeep(l: seq<Mutex>, i: nat, relm: Option<Mutex>)
    requires i < |l| && Some(l[i]) != relm
    ensures Half(l, i + 1, relm) == Half(l, i, relm)
    ensures i < |Half(l, i, relm)| && Half(l, i, relm)[i] == l[i]
  {
    assert l[i..][1..] == l[i + 1..] && l[..i + 1] == l[..i] + [l[i]];
    assert Half(l, i + 1, relm) == l[..i] + ([l[i]] + Dropped(l[i + 1..], relm));
  }

  /** `release_mutex` is at place `i` of the list of `t`, on the way to `s1`. */
  ghost predicate Scanning(s: Sys, s1: Sys, t: Task, relm: Option<Mutex>, i: nat, newpri: nat) {
    && Shape(s1) && t < |s1.bpri| && |s.held| == |s1.held| && i <= |s.held[t]|
    && s.(held := s1.held) == s1 && Half(s.held[t], i, relm) == s1.held[t]
    && (forall u :: 0 <= u < |s.held| && u != t ==> s.held[u] == s1.held[u])
    && LeastOf(s1, t, i, newpri)
  }

  lemma ScanStart(s: Sys, t: Task, relm: Option<Mutex>)
    requires t < |s.held| && Shape(Unlinked(s, t, relm))
    ensures t < |s.bpri| && Scanning(s, Unlinked(s, t, relm), t, relm, 0, s.bpri[t])
  {
    assert s.held[t][..0] == [] && s.held[t][0..] == s.held[t];
  }

  lemma ScanSkip(s: Sys, s1: Sys, t: Task, relm: Option<Mutex>, i: nat, newpri: nat)
    requires Scanning(s, s1, t, relm, i, newpri) && i < |s.held[t]| && Some(s.held[t][i]) == relm
    ensures Scanning(s.(held := s.held[t := s.held[t][..i] + s.held[t][i + 1..]]), s1, t, relm, i, newpri)
  {
    HalfSkip(s.held[t], i, relm);
    hide Half, Shape, LeastOf;
  }

  lemma ScanAt(s: Sys, s1: Sys, t: Task, relm: Option<Mutex>, i: nat, newpri: nat)
    requires Scanning(s, s1, t, relm, i, newpri) && i < |s.held[t]| && Some(s.held[t][i]) != relm
    ensures var m := s.held[t][i];
            m < |s.attr| == |s.ceil| == |s.queue| && (s.queue[m] != [] ==> s.queue[m][0] < |s.pri|)
  {
    HalfKeep(s.held[t], i, relm);
    InShape(s1, t, i);
  }

  lemma ScanKeep(s: Sys, s1: Sys, t: Task, relm: Option<Mutex>, i: nat, newpri: nat, pri: nat)
    requires Scanning(s, s1, t, relm, i, newpri) && i < |s.held[t]| && Some(s.held[t][i]) != relm
    requires s.held[t][i] < |s.attr| == |s.ceil| == |s.queue|
    requires match Demand(s, s.held[t][i]) case Some(d) => pri == d case None => newpri <= pri
    ensures Scanning(s, s1, t, relm, i + 1, if newpri > pri then pri else newpri)
  {
    HalfKeep(s.held[t], i, relm);
    DemandSame(s, s1, t, i);
    LeastOfStep(s1, t, i, newpri, pri);
    hide Half, Shape, LeastOf, Demand;
  }

  lemma ScanDone(s: Sys, s1: Sys, t: Task, relm: Option<Mutex>, newpri: nat)
    requires t < |s.held| && Scanning(s, s1, t, relm, |s.held[t]|, newpri)
    ensures s == s1 && Least(s1, t, newpri)
  {
    HalfDone(s.held[t], relm);
    assert s.held == s1.held;
    LeastOfAll(s1, t, newpri);
  }

  /** `t` has the priority it must have, and so has everybody else but `x`. */
  ghost predicate Settled(s: Sys, s': Sys, t: Task, rank: seq<nat>, loose: Option<Mutex>, x: set<Task>) {
    && t < |s.bpri| && Links(s, loose, rank) && Links(s', loose, rank)
    && Below(s, s', t, rank) && FixedExcept(s', x - {t}) && Orderly(s, s', {})
  }

  lemma NothingToChange(s: Sys, t: Task, rank: seq<nat>, loose: Option<Mutex>, x: set<Task>)
    requires Ready(s, t, rank, loose, x) && Fixed(s, t)
    ensures Settled(s, s, t, rank, loose, x)
  {
    OrderlySame(s);
    hide Orderly;
  }

  lemma ChangedSettled(s: Sys, s': Sys, t: Task, p: nat, rank: seq<nat>, loose: Option<Mutex>, x: set<Task>)
    requires Changed(s, s', t, p, rank, loose, x) && Least(s, t, p) && p != s.pri[t]
    ensures Settled(s, s', t, rank, loose, x)
  {
    OrderlyChanged(s, s', t);
    hide Orderly;
    ChangedSettles(s, s', t, p, rank, loose, x);
  }

  /** `t` has a new priority and its place in the queue of `m`, and its owner `o` is next. */
  ghost predicate Reached(s: Sys, s1: Sys, t: Task, p: nat, m: Mutex, o: Task, rank: seq<nat>, loose: Option<Mutex>,
                          x: set<Task>) {
    && Ready(s, t, rank, loose, x) && Reprioritised(s, s1, t, p) && Below(s, s1, t, rank)
    && s.waits[t] == Some(m) && m < |s.attr| && s.owner[m] == Some(o) && s.attr[m] == TA_INHERIT
    && o < |s.bpri| && rank[o] < rank[t] && o !in x && m in s.held[o] && Fixed(s, o)
    && Ready(s1, o, rank, loose, x + {o})
  }

  lemma ReachesOwner(s: Sys, s1: Sys, t: Task, p: nat, m: Mutex, rank: seq<nat>, loose: Option<Mutex>, x: set<Task>)
    requires Ready(s, t, rank, loose, x) && Reprioritised(s, s1, t, p) && s.waits[t] == Some(m)
    requires m < |s.attr| && s.attr[m] == TA_INHERIT
    ensures s.owner[m].Some? && Reached(s, s1, t, p, m, s.owner[m].value, rank, loose, x)
  {
    OwnerOf(s, t, rank, loose, x, m);
    ReprioritisedReady(s, s1, t, p, rank, loose, x, m);
  }

  lemma ReachedRaise(s: Sys, s1: Sys, s2: Sys, t: Task, p: nat, m: Mutex, o: Task, rank: seq<nat>,
                     loose: Option<Mutex>, x: set<Task>)
    requires Reached(s, s1, t, p, m, o, rank, loose, x) && s1.pri[o] > p
    requires Changed(s1, s2, o, p, rank, loose, x + {o})
    ensures Changed(s, s2, t, p, rank, loose, x)
  {
    assert Least(s1, o, p) by {
      hide Ranked, FixedExcept, Below;
      OwnerRaised(s, s1, t, p, m, o, loose);
    }
    hide Sorted, Ranked, Least, Owners, Waiters, Below;
    ChangedSettled(s1, s2, o, p, rank, loose, x + {o});
    ReachedSettled(s, s1, s2, t, p, m, o, rank, loose, x);
  }

  lemma ReachedSettled(s: Sys, s1: Sys, s2: Sys, t: Task, p: nat, m: Mutex, o: Task, rank: seq<nat>,
                       loose: Option<Mutex>, x: set<Task>)
    requires Reached(s, s1, t, p, m, o, rank, loose, x) && Settled(s1, s2, o, rank, loose, x + {o})
    ensures Changed(s, s2, t, p, rank, loose, x)
  {
    hide Sorted, Ranked, Least, Owners, Waiters, Below, Reprioritised, Orderly;
    assert x + {o} - {o} == x;
    OrderlyThen(s, s1, s2, t, p, m, o, rank);
    SetTo(s, s1, t, p);
    ThenOwner(s, s1, s2, t, p, o, rank, loose, x);
  }

  lemma SetTo(s: Sys, s1: Sys, t: Task, p: nat)
    requires Shape(s) && t < |s.bpri| && Reprioritised(s, s1, t, p)
    ensures t < |s1.pri| && s1.pri == s.pri[t := p] && s1.held == s.held && s1.bpri == s.bpri && s1.attr == s.attr
  {
    hide InsertedByPriority;
  }

  lemma ReachedReset(s: Sys, s1: Sys, s2: Sys, t: Task, p: nat, m: Mutex, o: Task, rank: seq<nat>,
                     loose: Option<Mutex>, x: set<Task>)
    requires Reached(s, s1, t, p, m, o, rank, loose, x) && Settled(Unlinked(s1, o, None), s2, o, rank, loose, x + {o})
    ensures Changed(s, s2, t, p, rank, loose, x)
  {
    NoneUnlinked(s1, o);
    ReachedSettled(s, s1, s2, t, p, m, o, rank, loose, x);
  }

  lemma NoneUnlinked(s: Sys, t: Task)
    requires t < |s.held|
    ensures Unlinked(s, t, None) == s
  {
    DroppedNone(s.held[t]);
  }

  lemma ReachedSpares(s: Sys, s1: Sys, t: Task, p: nat, m: Mutex, o: Task, rank: seq<nat>, loose: Option<Mutex>,
                      x: set<Task>)
    requires Reached(s, s1, t, p, m, o, rank, loose, x) && s1.pri[o] <= p && s1.pri[o] != s.pri[t]
    ensures Changed(s, s1, t, p, rank, loose, x)
  {
    ReprioritisedOrderly(s, s1, t, p);
    hide Orderly;
    assert Fixed(s1, o) by {
      hide Ranked, FixedExcept, Below;
      OwnerUnaffected(s, s1, t, p, m, o, loose);
    }
  }
}
