/** The mutex operations of the kernel, with priority inheritance and priority ceiling. */
module Mutexes {
  import opened Tasks
  import opened Sequences
  import W = WaitQueues
  import opened MutexState
  import opened MutexSteps

  datatype Ercd = E_OK | E_ILUSE | E_TMOUT

  /** A call returns, or its task waits. */
  datatype Outcome = Done(ercd: Ercd) | Blocked

  class Kernel {
    /* Columns of the task control blocks. */
    var bpriority: seq<nat>
    var priority: seq<nat>
    var waits: seq<Option<Mutex>>
    var mtxlist: seq<seq<Mutex>>
    /* Columns of the mutex control blocks. */
    var mtxatr: seq<Attr>
    var ceilpri: seq<nat>
    var mtxtsk: seq<Option<Task>>
    var queue: seq<seq<Task>>
    /** Evidence that nobody waits in a circle. */
    ghost var rank: seq<nat>

    ghost function S(): Sys
      reads this
    {
      Sys(bpriority, priority, waits, mtxlist, mtxatr, ceilpri, mtxtsk, queue)
    }

    ghost predicate Valid()
      reads this
    {
      Inv(S(), rank)
    }

    /** Tasks with their first priorities, mutexes without owner. */
    constructor (pri: seq<nat>, atr: seq<Attr>, ceil: seq<nat>)
      requires |atr| == |ceil|
      ensures Valid() && bpriority == pri && mtxatr == atr && ceilpri == ceil
      ensures forall t :: 0 <= t < |pri| ==> waits[t] == None && mtxlist[t] == []
      ensures forall m :: 0 <= m < |atr| ==> mtxtsk[m] == None
    {
      bpriority, priority := pri, pri;
      waits, mtxlist := seq(|pri|, _ => None), seq(|pri|, _ => []);
      mtxatr, ceilpri := atr, ceil;
      mtxtsk, queue := seq(|atr|, _ => None), seq(|atr|, _ => []);
      rank := seq(|pri|, _ => 0);
    }

    /** `queue_insert_tpri`: before the first task of a lower priority. */
    method InsertTpri(q: seq<Task>, t: Task) returns (r: seq<Task>)
      requires t < |priority| && SortedBy(q, priority) && NoRepeats(q) && t !in q
      ensures SortedBy(r, priority) && NoRepeats(r) && InsertedByPriority(q, r, t, priority)
      ensures forall u :: u in r <==> u in q || u == t
    {
      var i := W.QueueInsertTpri(W.PrisIn(q, priority), priority[t]);
      InsertHas(q, i, t);
      r := InsertAt(q, i, t);
    }

    /** `QueRemove` of a task from the queue it is in. */
    method RemoveFrom(q: seq<Task>, t: Task) returns (r: seq<Task>)
      requires t in q && NoRepeats(q)
      ensures NoRepeats(r) && t !in r
      ensures forall u :: u in r <==> u in q && u != t
      ensures forall pri: seq<nat> :: SortedBy(q, pri) ==> SortedBy(r, pri)
      ensures q[0] != t ==> r != [] && r[0] == q[0]
      ensures r == Dropped(q, Some(t))
    {
      var i :| 0 <= i < |q| && q[i] == t;
      DroppedAt(q, i);
      r := q[..i] + q[i + 1..];
    }

    /** `change_task_priority`: a new priority, and the hook of the wait, if any. */
    method ChangeTaskPriority(t: Task, p: nat, ghost rk: seq<nat>, ghost loose: Option<Mutex>, ghost x: set<Task>)
      requires Ready(S(), t, rk, loose, x)
      modifies this`priority, this`queue, this`mtxlist
      ensures Changed(old(S()), S(), t, p, rk, loose, x)
      decreases rk[t], 1
    {
      ghost var s := S();
      var oldpri := priority[t];
      priority := priority[t := p];
      if waits[t].Some? && mtxatr[waits[t].value] != TA_TFIFO {
        MtxChgPri(t, oldpri, rk, loose, x, s);
      } else {
        assert S().queue == s.queue;
        assert Reprioritised(s, S(), t, p);
        hide Links, FixedExcept, Changed, Reprioritised;
        NoHook(s, S(), t, p, rk, loose, x);
      }
    }

    /** `mtx_chg_pri`: the priority of a waiting task has changed from `oldpri`. */
    method MtxChgPri(t: Task, oldpri: nat, ghost rk: seq<nat>, ghost loose: Option<Mutex>, ghost x: set<Task>,
                     ghost s: Sys)
      requires Ready(s, t, rk, loose, x) && t < |priority| && oldpri == s.pri[t]
      requires S() == s.(pri := s.pri[t := priority[t]])
      requires s.waits[t].Some? && s.attr[s.waits[t].value] != TA_TFIFO
      modifies this`priority, this`queue, this`mtxlist
      ensures Changed(s, S(), t, old(priority[t]), rk, loose, x)
      decreases rk[t], 0, 1
    {
      var m, p := waits[t].value, priority[t];
      GcbChangePriority(m, t, s);
      ghost var s1 := S();
      assert m < |mtxatr|;
      if mtxatr[m] == TA_INHERIT {
        ReachesOwner(s, s1, t, p, m, rk, loose, x);
        var o := mtxtsk[m].value;
        Propagate(m, o, t, oldpri, rk, loose, x, s);
      } else {
        NoHook(s, s1, t, p, rk, loose, x);
      }
    }

    /** The second half of `mtx_chg_pri`: what the owner `o` makes of it. */
    method Propagate(m: Mutex, o: Task, t: Task, oldpri: nat, ghost rk: seq<nat>, ghost loose: Option<Mutex>,
                     ghost x: set<Task>, ghost s: Sys)
      requires t < |priority| && Reached(s, S(), t, priority[t], m, o, rk, loose, x) && oldpri == s.pri[t]
      modifies this`priority, this`queue, this`mtxlist
      ensures Changed(s, S(), t, old(priority[t]), rk, loose, x)
      decreases rk[t], 0, 0
    {
      ghost var s1, p := S(), priority[t];
      assert o < |priority| && Ready(s1, o, rk, loose, x + {o}) && rk[o] < rk[t];
      NoneUnlinked(s1, o);
      hide *;
      if priority[o] > priority[t] {
        ChangeTaskPriority(o, priority[t], rk, loose, x + {o});
        ReachedRaise(s, s1, S(), t, p, m, o, rk, loose, x);
      } else if priority[o] == oldpri {
        ReleaseMutex(o, None, rk, loose, x + {o});
        ReachedReset(s, s1, S(), t, p, m, o, rk, loose, x);
      } else {
        ReachedSpares(s, s1, t, p, m, o, rk, loose, x);
      }
    }

    /** `gcb_change_priority`: put `t` where its new priority belongs. */
    method GcbChangePriority(m: Mutex, t: Task, ghost s: Sys)
      requires Shape(s) && Waiters(s) && Sorted(s) && t < |s.bpri| && s.waits[t] == Some(m) && s.attr[m] != TA_TFIFO
      requires t < |priority| && S() == s.(pri := s.pri[t := priority[t]])
      modifies this`queue
      ensures Reprioritised(s, S(), t, priority[t])
    {
      var q := RemoveFrom(queue[m], t);
      q := InsertTpri(q, t);
      queue := queue[m := q];
    }

    /** `release_mutex`: take `relm` off the list of `t` and give `t` the priority that the
        rest demands.  `pri` carries over from one mutex to the next. */
    method ReleaseMutex(t: Task, relm: Option<Mutex>, ghost rk: seq<nat>, ghost loose: Option<Mutex>,
                        ghost x: set<Task>)
      requires t < |mtxlist| && Ready(Unlinked(S(), t, relm), t, rk, loose, x)
      modifies this`priority, this`queue, this`mtxlist
      ensures Settled(Unlinked(old(S()), t, relm), S(), t, rk, loose, x)
      decreases rk[t], 2
    {
      ghost var s1 := Unlinked(S(), t, relm);
      var newpri := LeastDemand(t, relm, s1);
      assert S() == s1;
      hide Links, FixedExcept, Changed, Settled, Least;
      if newpri != priority[t] {
        ChangeTaskPriority(t, newpri, rk, loose, x);
        ChangedSettled(s1, S(), t, newpri, rk, loose, x);
      } else {
        assert Fixed(s1, t);
        NothingToChange(s1, t, rk, loose, x);
      }
    }

    /** The loop of `release_mutex`. */
    method LeastDemand(t: Task, relm: Option<Mutex>, ghost s1: Sys) returns (newpri: nat)
      requires t < |mtxlist| && s1 == Unlinked(S(), t, relm) && Shape(s1) && Sorted(s1)
      modifies this`mtxlist
      ensures S() == s1 && Least(s1, t, newpri)
    {
      hide Shape, Sorted, Least, Scanning, Demand, Unlinked, Owners, Waiters;
      ScanStart(S(), t, relm);
      newpri := bpriority[t];
      var pri, i := newpri, 0;
      while i < |mtxlist[t]|
        invariant t < |mtxlist| && i <= |mtxlist[t]| && newpri <= pri
        invariant Scanning(S(), s1, t, relm, i, newpri)
        decreases |mtxlist[t]| - i
      {
        var mtxcb := mtxlist[t][i];
        if Some(mtxcb) == relm {
          ScanSkip(S(), s1, t, relm, i, newpri);
          Unlist(t, i);
          continue;
        }
        ScanAt(S(), s1, t, relm, i, newpri);
        pri := NextPri(mtxcb, pri);
        ScanKeep(S(), s1, t, relm, i, newpri, pri);
        if newpri > pri {
          newpri := pri;
        }
        i := i + 1;
      }
      ScanDone(S(), s1, t, relm, newpri);
    }

    /** `*prev = mtxcb->mtxlist`. */
    method Unlist(t: Task, i: nat)
      requires t < |mtxlist| && i < |mtxlist[t]|
      modifies this`mtxlist
      ensures |mtxlist| == old(|mtxlist|) && |mtxlist[t]| == old(|mtxlist[t]|) - 1 >= i
      ensures mtxlist == old(mtxlist[t := mtxlist[t][..i] + mtxlist[t][i + 1..]])
    {
      mtxlist := mtxlist[t := mtxlist[t][..i] + mtxlist[t][i + 1..]];
    }

    /** What `mtxcb` demands, or else what `pri` was before. */
    method NextPri(mtxcb: Mutex, pri: nat) returns (r: nat)
      requires mtxcb < |mtxatr| == |ceilpri| == |queue|
      requires queue[mtxcb] != [] ==> queue[mtxcb][0] < |priority|
      ensures match Demand(S(), mtxcb) case Some(d) => r == d case None => r == pri
    {
      r := pri;
      match mtxatr[mtxcb]
      case TA_CEILING => r := ceilpri[mtxcb];
      case TA_INHERIT =>
        if queue[mtxcb] != [] {
          r := priority[queue[mtxcb][0]];
        }
      case _ =>
    }

    /** The end of `_tk_unl_mtx` and the body of `signal_all_mutex`: `m`, off the list of
        its owner, goes to the first waiter, who is raised to the ceiling if there is one. */
    method PassOn(m: Mutex, ghost x: set<Task>)
      requires Links(S(), Some(m), rank) && m < |queue| && mtxtsk[m].Some? && FixedExcept(S(), x) && Ceilings(S())
      requires forall u :: u in x ==> u < |bpriority| && waits[u] == None
      modifies this
      ensures Links(S(), None, rank) && FixedExcept(S(), x) && Ceilings(S())
      ensures Passed(old(S()), S(), m)
    {
      hide Owners, Waiters, Sorted, Ranked, FixedExcept, Ceilings, Least, Below, Orderly;
      ghost var s := S();
      FirstInShape(s, m);
      RankedFits(s, rank);
      if queue[m] != [] {
        var tcb := queue[m][0];
        waits, queue := waits[tcb := None], queue[m := queue[m][1..]];
        mtxtsk, mtxlist := mtxtsk[m := Some(tcb)], mtxlist[tcb := [m] + mtxlist[tcb]];
        ghost var s1 := S();
        PassedFirst(s, s1, m, tcb, rank, x);
        rank := rank[tcb := 0];
        if mtxatr[m] == TA_CEILING && priority[tcb] > ceilpri[m] {
          ChangeTaskPriority(tcb, ceilpri[m], rank, None, x + {tcb});
          RaisedAtLast(s1, S(), tcb, ceilpri[m], rank, x);
          BottomAlone(s1, S(), tcb, rank);
        }
      } else {
        mtxtsk := mtxtsk[m := None];
        PassedNobody(s, S(), m, rank, x);
      }
    }

    /** `_tk_unl_mtx`, called by task `t`. */
    method UnlMtx(t: Task, m: Mutex) returns (ercd: Ercd)
      requires Valid() && t < |bpriority| && m < |mtxatr|
      modifies this
      ensures Valid()
      ensures old(mtxtsk[m]) != Some(t) ==> ercd == E_ILUSE && S() == old(S())
      ensures old(mtxtsk[m]) == Some(t) ==> ercd == E_OK && Unlocked(old(S()), S(), t, m)
    {
      ghost var s := S();
      hide Owners, Waiters, Sorted, Ranked, FixedExcept, Ceilings, Least, Below;
      if mtxtsk[m] != Some(t) {
        return E_ILUSE;
      }
      ReadyToRelease(s, t, m, rank);
      ghost var s1 := Unlinked(s, t, Some(m));
      ReleaseMutex(t, Some(m), rank, Some(m), {t});
      ghost var s2 := S();
      Released(s1, s2, t, rank, Some(m));
      PassOn(m, {});
      UnlocksIt(s, s1, s2, S(), t, m);
      return E_OK;
    }

    /** `_tk_loc_mtx`, called by task `t`; `rk` shows that a wait would not be part of a
        circle. */
    method LocMtx(t: Task, m: Mutex, poll: bool, ghost rk: seq<nat>) returns (r: Outcome)
      requires Valid() && t < |bpriority| && m < |mtxatr| && waits[t] == None
      requires mtxtsk[m].Some? && mtxtsk[m] != Some(t) ==>
                 var s' := S().(waits := waits[t := Some(m)]); Shape(s') && Ranked(s', rk)
      modifies this
      ensures Valid()
      ensures r == Done(E_ILUSE) <==>
                old(mtxtsk[m]) == Some(t) || old(mtxatr[m] == TA_CEILING && bpriority[t] < ceilpri[m])
      ensures r == Done(E_ILUSE) || r == Done(E_TMOUT) ==> S() == old(S())
      ensures r == Done(E_OK) ==> old(mtxtsk[m]) == None && SameHolders(Taken(old(S()), t, m), S())
      ensures r == Done(E_OK) ==> Orderly(Taken(old(S()), t, m), S(), {})
      ensures r == Done(E_TMOUT) ==> old(mtxtsk[m]).Some? && poll
      ensures r == Blocked ==> old(mtxtsk[m]).Some? && !poll && Queues(old(S()), S(), t, m)
    {
      ghost var s := S();
      hide Owners, Waiters, Sorted, Ranked, FixedExcept, Ceilings, Least, Below;
      if mtxtsk[m] == Some(t) || (mtxatr[m] == TA_CEILING && bpriority[t] < ceilpri[m]) {
        return Done(E_ILUSE);
      }
      if mtxtsk[m] == None {
        TakesIt(s, t, m, rank);
        mtxtsk, mtxlist := mtxtsk[m := Some(t)], mtxlist[t := [m] + mtxlist[t]];
        ghost var s1 := S();
        assert s1 == Taken(s, t, m);
        OrderlySame(s1);
        if mtxatr[m] == TA_CEILING && priority[t] > ceilpri[m] {
          ChangeTaskPriority(t, ceilpri[m], rank, None, {} + {t});
          RaisedAtLast(s1, S(), t, ceilpri[m], rank, {});
          OrderlyChanged(s1, S(), t);
        }
        return Done(E_OK);
      }
      if poll {
        return Done(E_TMOUT);
      }
      var o := mtxtsk[m].value;
      ReadyToRaise(s, t, m, o, rank, rk);
      if mtxatr[m] == TA_INHERIT && priority[o] > priority[t] {
        ChangeTaskPriority(o, priority[t], rk, None, {o});
        RaisedForWaiter(s, S(), t, m, o, rank, rk);
      } else {
        NotRaisedForWaiter(s, t, m, o, rank, rk);
      }
      Enqueue(t, m, o, rk, s);
      rank := rk;
      return Blocked;
    }

    /** The end of `_tk_loc_mtx`: the task waits. */
    method Enqueue(t: Task, m: Mutex, o: Task, ghost rk: seq<nat>, ghost s: Sys)
      requires Prepared(s, S(), t, m, o, rk) && (mtxatr[m] == TA_CEILING ==> ceilpri[m] <= bpriority[t]) && Shape(s)
      modifies this`waits, this`queue
      ensures Inv(S(), rk) && Queues(s, S(), t, m)
    {
      ghost var s1 := S();
      hide Owners, Ranked, FixedExcept, Ceilings, Least, InsertedByPriority;
      var q := PlaceInQueue(t, m);
      waits := waits[t := Some(m)];
      queue := queue[m := q];
      assert Enqueued(s1, S(), t, m);
      hide Enqueued, Waiters, Sorted;
      WaiterQueued(s, s1, S(), t, m, o, rk);
      OthersTidy(s, s1, S(), t, m, o, rk);
    }

    /** `QueInsert` at the end, or `queue_insert_tpri`. */
    method PlaceInQueue(t: Task, m: Mutex) returns (q: seq<Task>)
      requires Shape(S()) && Waiters(S()) && Sorted(S()) && t < |bpriority| && m < |mtxatr| && waits[t] == None
      ensures NoRepeats(q) && forall u :: u in q <==> u in queue[m] || u == t
      ensures if mtxatr[m] == TA_TFIFO then q == queue[m] + [t]
              else SortedBy(q, priority) && InsertedByPriority(queue[m], q, t, priority)
    {
      assert t !in queue[m];
      if mtxatr[m] == TA_TFIFO {
        q := queue[m] + [t];
      } else {
        q := InsertTpri(queue[m], t);
      }
    }

    /** A wait for a mutex ends without it: timeout or forced release. */
    method ReleaseWait(t: Task)
      requires Valid() && t < |bpriority| && waits[t].Some?
      modifies this`priority, this`queue, this`mtxlist, this`waits
      ensures Valid() && Leaves(old(S()), S(), t)
    {
      var m := waits[t].value;
      LeaveQueue(t, m);
      if mtxatr[m] == TA_INHERIT {
        MtxRelWai(t, m);
      }
    }

    /** `QueRemove` and `make_non_wait`. */
    method LeaveQueue(t: Task, m: Mutex)
      requires Valid() && t < |bpriority| && waits[t] == Some(m)
      modifies this`queue, this`waits
      ensures m < |mtxatr| && Left(S(), t, m, rank) && Leaves(old(S()), S(), t) && S() == WithoutWaiter(old(S()), t)
    {
      ghost var s := S();
      hide FixedExcept, Ceilings, Below, Least, Ranked, Owners;
      var q := RemoveFrom(queue[m], t);
      queue, waits := queue[m := q], waits[t := None];
      assert Dequeued(s, S(), t, m);
      hide *;
      ReadyToReset(s, S(), t, m, rank);
    }

    /** `mtx_rel_wai`: the owner may have had its priority from `t`. */
    method MtxRelWai(t: Task, m: Mutex)
      requires Left(S(), t, m, rank) && mtxatr[m] == TA_INHERIT
      modifies this`priority, this`queue, this`mtxlist
      ensures Valid() && SameHolders(old(S()), S()) && Orderly(old(S()), S(), {})
      ensures forall k :: 0 <= k < |queue| && mtxtsk[k] == Some(t) ==> queue[k] == old(queue[k])
    {
      ghost var s := S();
      hide FixedExcept, Ceilings, Below, Least, Ranked, Owners, Waiters, Sorted;
      var o := mtxtsk[m].value;
      if priority[o] == priority[t] {
        NoneUnlinked(s, o);
        ReleaseMutex(o, None, rank, None, {o});
        ResetOwner(s, S(), o, rank);
      }
    }

    /** `_tk_del_mtx`: the owner gives `m` up and the waiting tasks go away empty-handed.
        The slot is left without owner. */
    method DelMtx(m: Mutex)
      requires Valid() && m < |mtxatr|
      modifies this
      ensures Valid() && Deleted(old(S()), S(), m)
    {
      ghost var s := S();
      hide Owners, Waiters, Sorted, Ranked, FixedExcept, Ceilings, Least, Below;
      if mtxtsk[m].Some? {
        var o := mtxtsk[m].value;
        ReadyToRelease(s, o, m, rank);
        ghost var s1 := Unlinked(s, o, Some(m));
        ReleaseMutex(o, Some(m), rank, Some(m), {o});
        Released(s1, S(), o, rank, Some(m));
        ghost var r1 := S();
        WaitDelete(m);
        ghost var s2 := S();
        mtxtsk := mtxtsk[m := None];
        Vacated(s2, S(), m, rank);
        OthersKept(s, s1, r1, S(), m);
      } else {
        QueueMeansOwner(s, m);
        NobodyWaits(s, m);
        OrderlySame(s);
        assert mtxtsk == mtxtsk[m := None];
      }
    }

    /** `wait_delete`. */
    method WaitDelete(m: Mutex)
      requires Links(S(), Some(m), rank) && FixedExcept(S(), {}) && Ceilings(S()) && m < |mtxatr|
      modifies this`waits, this`queue
      ensures Links(S(), Some(m), rank) && FixedExcept(S(), {}) && Ceilings(S())
      ensures |queue| == old(|queue|) && queue[m] == [] && |waits| == old(|waits|)
      ensures forall k :: 0 <= k < |queue| && k != m ==> queue[k] == old(queue[k])
      ensures forall u :: 0 <= u < |waits| ==> waits[u] == if old(waits[u]) == Some(m) then None else old(waits[u])
    {
      while queue[m] != []
        invariant Links(S(), Some(m), rank) && FixedExcept(S(), {}) && Ceilings(S())
        invariant forall k :: 0 <= k < |queue| && k != m ==> queue[k] == old(queue[k])
        invariant |queue| == |mtxatr| == old(|queue|) && |waits| == old(|waits|) == |bpriority|
        invariant forall u :: 0 <= u < |waits| ==>
                    waits[u] == old(waits[u]) || (waits[u] == None && old(waits[u]) == Some(m))
        decreases |queue[m]|
      {
        hide Owners, Sorted, Ranked, FixedExcept, Ceilings, Least, Below;
        WaitRelease(m);
      }
      hide Owners, Sorted, Ranked, FixedExcept, Ceilings, Least, Below;
      NobodyWaits(S(), m);
    }

    /** `wait_release` of the first task in the queue. */
    method WaitRelease(m: Mutex)
      requires Links(S(), Some(m), rank) && FixedExcept(S(), {}) && Ceilings(S()) && m < |queue| && queue[m] != []
      modifies this`waits, this`queue
      ensures Links(S(), Some(m), rank) && FixedExcept(S(), {}) && Ceilings(S())
      ensures queue == old(queue[m := queue[m][1..]])
      ensures |waits| == old(|waits|)
      ensures forall u :: 0 <= u < |waits| ==>
                waits[u] == old(waits[u]) || (waits[u] == None && old(waits[u]) == Some(m))
    {
      hide Shape, Owners, Sorted, Ranked, FixedExcept, Ceilings, Least, Waiters, Dequeued;
      ghost var s := S();
      FirstGoes(s, m);
      var tcb := queue[m][0];
      queue, waits := queue[m := queue[m][1..]], waits[tcb := None];
      DroppedWaiter(s, S(), tcb, m, rank);
    }

    /** `_tk_chg_pri`. */
    method ChgPri(t: Task, p: nat) returns (ercd: Ercd)
      requires Valid() && t < |bpriority|
      modifies this`bpriority, this`priority, this`queue, this`mtxlist
      ensures Valid()
      ensures ercd == (if CeilingAllows(old(S()), t, p) then E_OK else E_ILUSE)
      ensures ercd == E_ILUSE ==> S() == old(S())
      ensures ercd == E_OK ==> SameHolders(old(S()).(bpri := old(bpriority)[t := p]), S())
      ensures ercd == E_OK ==> Orderly(old(S()), S(), {t})
    {
      ghost var s := S();
      hide Owners, Waiters, Sorted, Ranked, FixedExcept, Ceilings, Least, Below;
      var hi := ChgPriMutex(t, p);
      if hi == None {
        return E_ILUSE;
      }
      ReadyToRebase(s, t, p, rank);
      bpriority := bpriority[t := p];
      ghost var s1 := S();
      ChangeTaskPriority(t, hi.value, rank, None, {} + {t});
      RaisedAtLast(s1, S(), t, hi.value, rank, {});
      OrderlyFrom(s, s1, S(), {t});
      return E_OK;
    }

    /** `chg_pri_mutex`: the priority that a base priority `p` would mean, if no ceiling
        forbids it. */
    method ChgPriMutex(t: Task, p: nat) returns (r: Option<nat>)
      requires Valid() && t < |bpriority|
      ensures r.Some? <==> CeilingAllows(S(), t, p)
      ensures r.Some? ==> Least(S().(bpri := bpriority[t := p]), t, r.value)
    {
      ghost var s := S();
      WeighStart(s, t, p, rank);
      hide *;
      var hi_pri, low_pri := p, 0;
      if waits[t].Some? && mtxatr[waits[t].value] == TA_CEILING {
        var pri := ceilpri[waits[t].value];
        if pri > low_pri {
          low_pri := pri;
        }
      }
      var pri, i := hi_pri, 0;
      while i < |mtxlist[t]|
        invariant i <= |mtxlist[t]| && hi_pri <= pri
        invariant Weighed(s, t, p, i, hi_pri, low_pri)
      {
        var mtxcb := mtxlist[t][i];
        WeighAt(s, t, p, i, hi_pri, low_pri);
        pri := NextPri(mtxcb, pri);
        WeighStep(s, t, p, i, hi_pri, low_pri, pri);
        if mtxatr[mtxcb] == TA_CEILING && pri > low_pri {
          low_pri := pri;
        }
        if pri < hi_pri {
          hi_pri := pri;
        }
        i := i + 1;
      }
      WeighDone(s, t, p, hi_pri, low_pri, rank);
      if p < low_pri {
        return None;
      }
      return Some(hi_pri);
    }

    /** `signal_all_mutex`: all mutexes of a task that ends go to their first waiters. */
    method SignalAllMutex(t: Task)
      requires Valid() && t < |bpriority| && waits[t] == None
      modifies this
      ensures Links(S(), None, rank) && FixedExcept(S(), {t}) && Ceilings(S())
      ensures PartWay(old(S()), S(), t) && mtxlist[t] == [] && waits[t] == None
    {
      ghost var s0 := S();
      NothingGone(s0, t);
      while mtxlist[t] != []
        invariant Links(S(), None, rank) && FixedExcept(S(), {t}) && Ceilings(S())
        invariant PartWay(s0, S(), t) && t < |mtxlist| == |bpriority| == |waits| && waits[t] == None
        decreases |mtxlist[t]|
      {
        hide Owners, Waiters, Sorted, Ranked, FixedExcept, Ceilings, Least, Below, PartWay;
        SignalMutex(t, s0);
      }
    }

    /** One round of `signal_all_mutex`. */
    method SignalMutex(t: Task, ghost s0: Sys)
      requires Links(S(), None, rank) && FixedExcept(S(), {t}) && Ceilings(S())
      requires PartWay(s0, S(), t) && t < |mtxlist| && mtxlist[t] != [] && waits[t] == None
      modifies this
      ensures Links(S(), None, rank) && FixedExcept(S(), {t}) && Ceilings(S())
      ensures PartWay(s0, S(), t) && t < |mtxlist| && mtxlist[t] == old(mtxlist[t])[1..] && t < |waits|
      ensures waits[t] == None
    {
      ghost var s := S();
      var m := mtxlist[t][0];
      Popped(s, t, m, rank);
      mtxlist := mtxlist[t := mtxlist[t][1..]];
      ghost var s1 := S();
      PassOn(m, {t});
      assert NoRepeats(s.held[t]);
      hide Owners, Sorted, Ranked, FixedExcept, Ceilings, Least, Below, PartWay, Passed;
      OneMore(s, s1, S(), t, m);
      FurtherOn(s0, s, s1, S(), t, m);
      assert waits[t] == None;
    }

    /** `_ter_tsk` and `make_dormant`, as far as mutexes and priorities go. */
    method Terminate(t: Task, ipriority: nat)
      requires Valid() && t < |bpriority|
      modifies this
      ensures Valid() && Ended(old(S()), S(), t, ipriority)
    {
      ghost var s := S();
      hide Owners, Sorted, Ranked, FixedExcept, Ceilings, Least, Below, Waiters;
      if waits[t].Some? {
        ReleaseWait(t);
      } else {
        NoWaitLeaves(s, t);
      }
      ghost var s1 := S();
      hide Leaves, Ended, PartWay;
      SignalAllMutex(t);
      EndsWithout(S(), t, ipriority, rank);
      EndsFromTheStart(s, s1, S(), t, ipriority);
      bpriority, priority := bpriority[t := ipriority], priority[t := ipriority];
    }
  }
}
