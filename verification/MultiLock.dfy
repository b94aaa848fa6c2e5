/** The fast multi-lock: up to 32 locks in one word, taken by an atomic bit operation, with an
    event flag for the tasks that have to wait.  Each atomic operation, the reading of the
    counter and each system call is one step; steps of different tasks interleave freely. */
module MultiLock {
  import opened Tasks
  import opened Sequences
  import opened EventFlags

  /** Where a task is: outside, in `MLockTmo` (before the bit operation, before
      `tk_wai_flg`, asleep in it, before the decrement), or in `MUnlock` (before the counter
      is read, before `tk_set_flg`). */
  datatype Pc =
    | Outside
    | Trying(no: nat)
    | MustWait(no: nat)
    | Asleep(no: nat)
    | Leaving(no: nat, got: bool)
    | Checking(no: nat)
    | Signalling(no: nat)

  /** A task and the lock numbers it has taken and not yet given back. */
  datatype Thread = Thread(pc: Pc, held: set<nat>)

  /** The lock word and counter, the event flag with its queue, the tasks. */
  datatype State = State(flg: set<nat>, wai: nat, ptn: set<nat>, queue: seq<Waiter>, th: seq<Thread>)

  function LockWaiter(t: Task, no: nat): Waiter {
    Waiter(t, {no}, true, true, false)
  }

  /** A step: which task does what.  `at` is the place in the wait queue that the priority
      of the task gives it; `Requeue` is a change of priority. */
  datatype Event =
    | Inc(t: Task, no: nat)
    | Bts(t: Task)
    | WaiFlg(t: Task, poll: bool, at: nat)
    | Timeout(t: Task)
    | Dec(t: Task)
    | Br(t: Task, no: nat)
    | ReadWai(t: Task)
    | SetFlg(t: Task)
    | Requeue(t: Task, at: nat)

  predicate Enabled(s: State, e: Event) {
    && e.t < |s.th|
    && var pc := s.th[e.t].pc;
       match e
       case Inc(_, _) => pc.Outside?
       case Bts(_) => pc.Trying?
       case WaiFlg(_, _, at) => pc.MustWait? && at <= |s.queue|
       case Timeout(_) => pc.Asleep?
       case Dec(_) => pc.Leaving? && s.wai > 0
       case Br(_, no) => pc.Outside? && no in s.th[e.t].held
       case ReadWai(_) => pc.Checking?
       case SetFlg(_) => pc.Signalling?
       case Requeue(_, at) => pc.Asleep? && at < |s.queue|
  }

  function At(s: State, t: Task, pc: Pc): seq<Thread>
    requires t < |s.th|
  {
    s.th[t := s.th[t].(pc := pc)]
  }

  function After(s: State, e: Event): State
    requires Enabled(s, e)
  {
    var t := e.t;
    var me := s.th[t];
    match e
    case Inc(_, no) => s.(wai := s.wai + 1, th := At(s, t, Trying(no)))
    case Bts(_) =>
      var no := me.pc.no;
      s.(flg := s.flg + {no}, th := At(s, t, if no in s.flg then MustWait(no) else Leaving(no, true)))
    case WaiFlg(_, poll, at) =>
      var no := me.pc.no;
      var w := LockWaiter(t, no);
      if Cond(s.ptn, w) then s.(ptn := Consumed(s.ptn, w), th := At(s, t, Trying(no)))
      else if poll then s.(th := At(s, t, Leaving(no, false)))
      else s.(queue := s.queue[..at] + [w] + s.queue[at..], th := At(s, t, Asleep(no)))
    case Timeout(_) =>
      var no := me.pc.no;
      s.(queue := Dropped(s.queue, t), th := At(s, t, Leaving(no, false)))
    case Dec(_) =>
      var Leaving(no, got) := me.pc;
      s.(wai := s.wai - 1, th := s.th[t := Thread(Outside, if got then me.held + {no} else me.held)])
    case Br(_, no) => s.(flg := s.flg - {no}, th := s.th[t := Thread(Checking(no), me.held - {no})])
    case ReadWai(_) => s.(th := At(s, t, if s.wai == 0 then Outside else Signalling(me.pc.no)))
    case SetFlg(_) =>
      var r := Swept(s.queue, s.ptn + {me.pc.no});
      s.(ptn := r.ptn, queue := r.left, th := AllAwake(At(s, t, Outside), r.released))
    case Requeue(_, at) =>
      var q := Dropped(s.queue, t);
      var i := if at <= |q| then at else |q|;
      s.(queue := q[..i] + [LockWaiter(t, me.pc.no)] + q[i..])
  }

  /** The queue without task `t`. */
  function Dropped(queue: seq<Waiter>, t: Task): (r: seq<Waiter>)
    ensures forall w :: w in r <==> w in queue && w.task != t
  {
    if queue == [] then []
    else if queue[0].task == t then Dropped(queue[1..], t)
    else [queue[0]] + Dropped(queue[1..], t)
  }

  /** The released tasks try again. */
  function AllAwake(th: seq<Thread>, released: seq<(Waiter, set<nat>)>): (r: seq<Thread>)
    ensures |r| == |th|
    decreases |released|
  {
    if released == [] then th
    else
      var u := released[0].0.task;
      AllAwake(if u < |th| && th[u].pc.Asleep? then th[u := th[u].(pc := Trying(th[u].pc.no))] else th, released[1..])
  }

  /* ---- The invariant. ---- */

  /** `t` has lock `no`. */
  predicate Holds(x: Thread, no: nat) {
    no in x.held || x.pc == Leaving(no, true)
  }

  /** A bit of the lock word is set exactly when some task has the lock, and only one has. */
  ghost predicate Exclusive(s: State) {
    && (forall t, no :: 0 <= t < |s.th| && Holds(s.th[t], no) ==> no in s.flg)
    && (forall no :: no in s.flg ==> exists t :: 0 <= t < |s.th| && Holds(s.th[t], no))
    && (forall t, u, no :: 0 <= t < |s.th| && 0 <= u < |s.th| && Holds(s.th[t], no) && Holds(s.th[u], no) ==> t == u)
    && (forall t, no :: 0 <= t < |s.th| && s.th[t].pc == Leaving(no, true) ==> no !in s.th[t].held)
  }

  predicate Inside(x: Thread) {
    x.pc.Trying? || x.pc.MustWait? || x.pc.Asleep? || x.pc.Leaving?
  }

  function Count(th: seq<Thread>): nat {
    if th == [] then 0 else (if Inside(th[0]) then 1 else 0) + Count(th[1..])
  }

  /** The counter is the number of tasks between the increment and the decrement. */
  ghost predicate Counted(s: State) {
    s.wai == Count(s.th)
  }

  /** The flag's queue has the sleeping tasks, each once. */
  ghost predicate Queued(s: State) {
    Listed(s) && Apart(s.queue) && AllListed(s)
  }

  ghost predicate Listed(s: State) {
    forall i :: 0 <= i < |s.queue| ==>
      var t := s.queue[i].task;
      t < |s.th| && s.th[t].pc.Asleep? && s.queue[i] == LockWaiter(t, s.th[t].pc.no)
  }

  ghost predicate Apart(queue: seq<Waiter>) {
    forall i, k :: 0 <= i < k < |queue| ==> queue[i].task != queue[k].task
  }

  ghost predicate AllListed(s: State) {
    forall t :: 0 <= t < |s.th| && s.th[t].pc.Asleep? ==> LockWaiter(t, s.th[t].pc.no) in s.queue
  }

  /** No task sleeps while the flag has its bit. */
  ghost predicate Latched(s: State) {
    forall t :: 0 <= t < |s.th| && s.th[t].pc.Asleep? ==> s.th[t].pc.no !in s.ptn
  }

  /** A signal is under way for lock `no`: by a task that has freed it and will look at the
      counter or is about to set the flag, or to a task that will try again. */
  predicate UnderWay(x: Thread, no: nat) {
    x.pc == Checking(no) || x.pc == Signalling(no) || x.pc == Trying(no)
  }

  /** No wakeup is lost: if a lock is free and a task sleeps or is about to sleep on it, the
      flag has its bit or a signal is under way. */
  ghost predicate Promised(s: State) {
    forall t, no :: 0 <= t < |s.th| && (s.th[t].pc == MustWait(no) || s.th[t].pc == Asleep(no)) && no !in s.flg ==>
      no in s.ptn || exists u :: 0 <= u < |s.th| && UnderWay(s.th[u], no)
  }

  ghost predicate Inv(s: State) {
    Exclusive(s) && Counted(s) && Queued(s) && Latched(s) && Promised(s)
  }

  /* ---- Counting. ---- */

  lemma {:induction false} CountUpdate(th: seq<Thread>, t: nat, x: Thread)
    requires t < |th|
    ensures Count(th[t := x]) == Count(th) - (if Inside(th[t]) then 1 else 0) + (if Inside(x) then 1 else 0)
    ensures Inside(th[t]) ==> Count(th) > 0
  {
    if t > 0 {
      assert th[t := x][1..] == th[1..][t - 1 := x];
      CountUpdate(th[1..], t - 1, x);
    } else {
      assert th[t := x][1..] == th[1..];
    }
  }

  /* ---- What one signal does. ---- */

  lemma {:induction false} SweptNone(queue: seq<Waiter>, ptn: set<nat>)
    requires forall w :: w in queue ==> !Cond(ptn, w)
    ensures Swept(queue, ptn) == Sweep(queue, ptn, [])
  {
    if queue != [] {
      SweptNone(queue[1..], ptn);
    }
  }

  /** Only waiter `i` can be released, and is. */
  lemma {:induction false} SweptOne(queue: seq<Waiter>, ptn: set<nat>, i: nat)
    requires i < |queue| && (forall k :: 0 <= k < i ==> !Cond(ptn, queue[k])) && Cond(ptn, queue[i])
    requires queue[i].bitclr && !queue[i].clr
    requires forall k :: i < k < |queue| ==> !Cond(ptn - queue[i].waiptn, queue[k])
    ensures Swept(queue, ptn) == Sweep(queue[..i] + queue[i + 1..], ptn - queue[i].waiptn, [(queue[i], ptn)])
  {
    if i == 0 {
      if !Ends(ptn, queue[0]) {
        SweptNone(queue[1..], ptn - queue[0].waiptn);
      }
      assert queue[..0] + queue[1..] == queue[1..];
    } else {
      SweptOne(queue[1..], ptn, i - 1);
      assert [queue[0]] + (queue[1..][..i - 1] + queue[1..][i..]) == queue[..i] + queue[i + 1..];
    }
  }

  /** The first waiter for `no` in the queue, if there is one. */
  function FirstFor(queue: seq<Waiter>, no: nat): (i: nat)
    ensures i <= |queue| && (i < |queue| ==> no in queue[i].waiptn)
    ensures forall k :: 0 <= k < i ==> no !in queue[k].waiptn
  {
    if queue == [] || no in queue[0].waiptn then 0 else 1 + FirstFor(queue[1..], no)
  }

  /** `tk_set_flg` wakes the first task that sleeps on the lock, or leaves the bit set. */
  lemma SignalWakesOne(s: State, no: nat)
    requires Listed(s) && Latched(s)
    ensures var i := FirstFor(s.queue, no);
            Swept(s.queue, s.ptn + {no}) ==
              if i < |s.queue| then Sweep(s.queue[..i] + s.queue[i + 1..], s.ptn, [(s.queue[i], s.ptn + {no})])
              else Sweep(s.queue, s.ptn + {no}, [])
  {
    hide Listed, Latched, Cond, Swept;
    var i := FirstFor(s.queue, no);
    var p := s.ptn + {no};
    forall k | 0 <= k < |s.queue|
      ensures !Cond(s.ptn, s.queue[k]) && (Cond(p, s.queue[k]) <==> no in s.queue[k].waiptn)
    {
      MatchesOwn(s, k, no);
    }
    if i < |s.queue| {
      MatchesOwn(s, i, no);
      assert p - {no} == s.ptn;
      SweptOne(s.queue, p, i);
    } else {
      SweptNone(s.queue, p);
    }
  }

  /** A sleeping task can be released by its own bit only, which the flag does not have. */
  lemma MatchesOwn(s: State, k: nat, no: nat)
    requires Listed(s) && Latched(s) && k < |s.queue|
    ensures !Cond(s.ptn, s.queue[k]) && (Cond(s.ptn + {no}, s.queue[k]) <==> no in s.queue[k].waiptn)
    ensures no in s.queue[k].waiptn ==> s.queue[k] == LockWaiter(s.queue[k].task, no) && no !in s.ptn
  {
    var t := s.queue[k].task;
    var own := s.th[t].pc.no;
    assert s.queue[k] == LockWaiter(t, own) && own !in s.ptn;
    assert s.ptn * {own} == {};
    if own == no {
      assert no in (s.ptn + {no}) * {own};
    } else {
      assert (s.ptn + {no}) * {own} == {};
    }
  }

  /** The state after `tk_set_flg`, spelled out. */
  lemma SignalAfter(s: State, t: Task)
    requires Enabled(s, SetFlg(t)) && Queued(s) && Latched(s)
    ensures var no, s' := s.th[t].pc.no, After(s, SetFlg(t));
            var i := FirstFor(s.queue, no);
            if i < |s.queue| then
              var u := s.queue[i].task;
              && u < |s.th| && s.th[u].pc == Asleep(no)
              && s' == s.(queue := s.queue[..i] + s.queue[i + 1..],
                          th := At(s, t, Outside)[u := Thread(Trying(no), s.th[u].held)])
            else
              && s' == s.(ptn := s.ptn + {no}, th := At(s, t, Outside))
              && forall u :: 0 <= u < |s.th| ==> s.th[u].pc != Asleep(no)
  {
    var no := s.th[t].pc.no;
    var i := FirstFor(s.queue, no);
    SignalWakesOne(s, no);
    if i < |s.queue| {
      var th := At(s, t, Outside);
      var u := s.queue[i].task;
      assert th[u] == s.th[u];
      assert AllAwake(th, [(s.queue[i], s.ptn + {no})]) == th[u := th[u].(pc := Trying(no))] by {
        assert AllAwake(th[u := th[u].(pc := Trying(no))], []) == th[u := th[u].(pc := Trying(no))];
      }
    } else {
      forall u | 0 <= u < |s.th| ensures s.th[u].pc != Asleep(no) {
        assert s.th[u].pc.Asleep? ==> LockWaiter(u, s.th[u].pc.no) in s.queue;
      }
    }
  }

  /* ---- Each step keeps the invariant. ---- */

  /** Who has lock `no` after a step, and whether its bit is set. */
  lemma HoldsAfter(s: State, e: Event, no: nat)
    requires Enabled(s, e) && !e.SetFlg?
    ensures e.t < |s.th| == |After(s, e).th| && After(s, e).th == s.th[e.t := After(s, e).th[e.t]]
    ensures var pc, s' := s.th[e.t].pc, After(s, e);
            match e
            case Bts(_) =>
              && (Holds(s'.th[e.t], no) <==> Holds(s.th[e.t], no) || (no == pc.no && no !in s.flg))
              && (no in s'.flg <==> no in s.flg || no == pc.no)
            case Br(_, n) =>
              && (Holds(s'.th[e.t], no) <==> Holds(s.th[e.t], no) && no != n)
              && (no in s'.flg <==> no in s.flg && no != n) && Holds(s.th[e.t], n)
            case _ => (Holds(s'.th[e.t], no) <==> Holds(s.th[e.t], no)) && s'.flg == s.flg
  {
    hide Swept, Cond, Consumed, Dropped, Count;
  }

  lemma KeepsExclusive(s: State, e: Event)
    requires Inv(s) && Enabled(s, e) && !e.SetFlg?
    ensures Exclusive(After(s, e))
  {
    hide Counted, Queued, Latched, Promised, After, Enabled, Holds;
    KeepsHeld(s, e);
    var s' := After(s, e);
    forall no ensures forall t :: 0 <= t < |s'.th| && Holds(s'.th[t], no) ==> no in s'.flg {
      HoldsAfter(s, e, no);
    }
    forall no, t, u | 0 <= t < |s'.th| && 0 <= u < |s'.th| && Holds(s'.th[t], no) && Holds(s'.th[u], no)
      ensures t == u
    {
      HoldsAfter(s, e, no);
    }
    LeavingIsNew(s, e);
  }

  lemma LeavingIsNew(s: State, e: Event)
    requires Exclusive(s) && Enabled(s, e) && !e.SetFlg?
    ensures forall t, no :: 0 <= t < |After(s, e).th| && After(s, e).th[t].pc == Leaving(no, true) ==>
              no !in After(s, e).th[t].held
  {
    hide Swept, Cond, Consumed, Dropped, Count;
  }

  lemma KeepsHeld(s: State, e: Event)
    requires Inv(s) && Enabled(s, e) && !e.SetFlg?
    ensures var s' := After(s, e); forall no :: no in s'.flg ==> exists t :: 0 <= t < |s'.th| && Holds(s'.th[t], no)
  {
    hide Counted, Queued, Latched, Promised, Count, Dropped;
    var s' := After(s, e);
    forall no | no in s'.flg ensures exists t :: 0 <= t < |s'.th| && Holds(s'.th[t], no) {
      if no in s.flg {
        var t :| 0 <= t < |s.th| && Holds(s.th[t], no);
        assert Holds(s'.th[t], no);
      } else {
        assert Holds(s'.th[e.t], no);
      }
    }
  }

  lemma KeepsCounted(s: State, e: Event)
    requires Inv(s) && Enabled(s, e) && !e.SetFlg?
    ensures Counted(After(s, e))
  {
    hide Queued, Latched, Promised, Exclusive, Dropped, Count;
    CountUpdate(s.th, e.t, After(s, e).th[e.t]);
    assert After(s, e).th == s.th[e.t := After(s, e).th[e.t]];
  }

  lemma KeepsLatched(s: State, e: Event)
    requires Inv(s) && Enabled(s, e) && !e.SetFlg?
    ensures Latched(After(s, e))
  {
    hide Queued, Counted, Promised, Exclusive, Dropped, Count;
    if e.WaiFlg? {
      var no := s.th[e.t].pc.no;
      assert no in s.ptn ==> no in s.ptn * {no};
    }
  }

  lemma {:induction false} NobodyInside(th: seq<Thread>, t: nat)
    requires t < |th| && Inside(th[t])
    ensures Count(th) > 0
  {
    if t > 0 {
      NobodyInside(th[1..], t - 1);
    }
  }

  lemma KeepsPromised(s: State, e: Event)
    requires Inv(s) && Enabled(s, e) && !e.SetFlg?
    ensures Promised(After(s, e))
  {
    hide Queued, Latched, Dropped, Count, Exclusive;
    var s' := After(s, e);
    forall t, no | 0 <= t < |s'.th| && (s'.th[t].pc == MustWait(no) || s'.th[t].pc == Asleep(no)) && no !in s'.flg
      ensures no in s'.ptn || exists u :: 0 <= u < |s'.th| && UnderWay(s'.th[u], no)
    {
      NobodyInside(s'.th, t);
      StillPromised(s, e, t, no);
    }
  }

  lemma StillPromised(s: State, e: Event, t: Task, no: nat)
    requires Counted(s) && Promised(s) && Enabled(s, e) && !e.SetFlg?
    requires var s' := After(s, e);
             t < |s'.th| && (s'.th[t].pc == MustWait(no) || s'.th[t].pc == Asleep(no)) && no !in s'.flg
    ensures var s' := After(s, e); no in s'.ptn || exists u :: 0 <= u < |s'.th| && UnderWay(s'.th[u], no)
  {
    hide Dropped, Count;
    var s' := After(s, e);
    if no in s.flg || UnderWay(s'.th[e.t], no) {
      assert UnderWay(s'.th[e.t], no);
    } else if no in s.ptn {
      assert no in s'.ptn;
    } else {
      assert s.th[t].pc == MustWait(no) || s.th[t].pc == Asleep(no);
      var u :| 0 <= u < |s.th| && UnderWay(s.th[u], no);
      if e.ReadWai? && u == e.t {
        NobodyInside(s.th, t);
      }
      assert UnderWay(s'.th[u], no);
    }
  }

  lemma {:induction false} DroppedQueue(t: Task, queue: seq<Waiter>)
    requires Apart(queue)
    ensures Apart(Dropped(queue, t))
  {
    if queue != [] {
      DroppedQueue(t, queue[1..]);
      forall w | w in Dropped(queue[1..], t) ensures w.task != queue[0].task {
        assert w in queue[1..];
      }
    }
  }

  lemma KeepsQueued(s: State, e: Event)
    requires Inv(s) && Enabled(s, e) && !e.SetFlg?
    ensures Queued(After(s, e))
  {
    hide Exclusive, Latched, Counted, Promised, Queued, After, Enabled;
    match e
    case WaiFlg(_, _, _) => WaitKeepsQueued(s, e);
    case Timeout(_) => LeavingKeepsQueued(s, e);
    case Requeue(_, _) => LeavingKeepsQueued(s, e);
    case _ => OthersKeepQueued(s, e);
  }

  lemma WaitKeepsQueued(s: State, e: Event)
    requires Queued(s) && Enabled(s, e) && e.WaiFlg?
    ensures Queued(After(s, e))
  {
    hide Apart;
    if !Cond(s.ptn, LockWaiter(e.t, s.th[e.t].pc.no)) && !e.poll {
      InsertedQueue(s.queue, e.t, e.at, s.th[e.t].pc.no, After(s, e));
    }
  }

  lemma LeavingKeepsQueued(s: State, e: Event)
    requires Queued(s) && Enabled(s, e) && (e.Timeout? || e.Requeue?)
    ensures Queued(After(s, e))
  {
    hide Apart;
    var s', q := After(s, e), Dropped(s.queue, e.t);
    DroppedQueue(e.t, s.queue);
    assert forall w :: w in q ==> w in s.queue;
    if e.Requeue? {
      InsertedQueue(q, e.t, if e.at <= |q| then e.at else |q|, s.th[e.t].pc.no, s');
    }
  }

  lemma OthersKeepQueued(s: State, e: Event)
    requires Queued(s) && Enabled(s, e) && !e.SetFlg? && !e.WaiFlg? && !e.Timeout? && !e.Requeue?
    ensures Queued(After(s, e))
  {
    hide Apart;
  }

  lemma InsertedQueue(q: seq<Waiter>, t: Task, at: nat, no: nat, s': State)
    requires at <= |q| && s'.queue == q[..at] + [LockWaiter(t, no)] + q[at..] && t < |s'.th|
    requires s'.th[t].pc == Asleep(no)
    requires forall w :: w in q ==>
                           var u := w.task;
                           u != t && u < |s'.th| && s'.th[u].pc.Asleep? && w == LockWaiter(u, s'.th[u].pc.no)
    requires Apart(q)
    requires forall u :: 0 <= u < |s'.th| && s'.th[u].pc.Asleep? && u != t ==> LockWaiter(u, s'.th[u].pc.no) in q
    ensures Queued(s')
  {
    Inserted(q, at, LockWaiter(t, no));
    hide Apart;
  }

  lemma Inserted(q: seq<Waiter>, at: nat, w: Waiter)
    requires at <= |q| && Apart(q) && forall v :: v in q ==> v.task != w.task
    ensures var q' := q[..at] + [w] + q[at..]; Apart(q') && forall v :: v in q' <==> v in q || v == w
  {
    InsertHas(q, at, w);
    InsertedApart(q, at, w);
  }

  lemma InsertedApart(q: seq<Waiter>, at: nat, w: Waiter)
    requires at <= |q| && Apart(q) && forall v :: v in q ==> v.task != w.task
    ensures Apart(InsertAt(q, at, w))
  {
    var q' := InsertAt(q, at, w);
    forall i, k | 0 <= i < k < |q'| ensures q'[i].task != q'[k].task {
      if i == at {
        assert q[k - 1] in q;
      } else if k == at {
        assert q[i] in q;
      }
    }
  }

  lemma SignalKeepsQueued(s: State, t: Task)
    requires Inv(s) && Enabled(s, SetFlg(t))
    ensures Queued(After(s, SetFlg(t)))
  {
    hide Exclusive, Counted, Promised, After, Latched, Queued;
    SignalAfter(s, t);
    var s' := After(s, SetFlg(t));
    var no, i := s.th[t].pc.no, FirstFor(s.queue, s.th[t].pc.no);
    if i < |s.queue| {
      RemovedQueue(s, i, s');
    } else {
      SameSleepers(s, s');
    }
  }

  lemma SameSleepers(s: State, s': State)
    requires Queued(s) && s'.queue == s.queue && |s'.th| == |s.th|
    requires forall u :: 0 <= u < |s.th| && (s.th[u].pc.Asleep? || s'.th[u].pc.Asleep?) ==> s'.th[u] == s.th[u]
    ensures Queued(s')
  {
  }

  lemma RemovedQueue(s: State, i: nat, s': State)
    requires Queued(s) && i < |s.queue| && s'.queue == s.queue[..i] + s.queue[i + 1..] && |s'.th| == |s.th|
    requires forall u :: 0 <= u < |s.th| && u != s.queue[i].task && s.th[u].pc.Asleep? ==> s'.th[u].pc == s.th[u].pc
    requires forall u :: 0 <= u < |s.th| && s'.th[u].pc.Asleep? ==> u != s.queue[i].task && s.th[u].pc.Asleep?
    ensures Queued(s')
  {
    Removed(s.queue, i);
    forall w | w in s.queue && w != s.queue[i] ensures w in s'.queue {
    }
    assert AllListed(s') by {
      hide Apart, Listed;
    }
    hide AllListed;
    forall w | w in s'.queue
      ensures w.task < |s'.th| && s'.th[w.task].pc.Asleep? && w == LockWaiter(w.task, s'.th[w.task].pc.no)
    {
      assert w in s.queue && w.task != s.queue[i].task;
    }
    hide Apart;
  }

  lemma Removed(q: seq<Waiter>, i: nat)
    requires Apart(q) && i < |q|
    ensures var q' := q[..i] + q[i + 1..];
            Apart(q') && forall w :: w in q' ==> w in q && w.task != q[i].task
  {
  }

  lemma SignalKeepsLocks(s: State, t: Task)
    requires Inv(s) && Enabled(s, SetFlg(t))
    ensures var s' := After(s, SetFlg(t)); Exclusive(s') && Counted(s') && Latched(s')
  {
    hide Queued, Promised, After, Count, Exclusive;
    SignalAfter(s, t);
    var s' := After(s, SetFlg(t));
    SameHolders(s, s');
    CountUpdate(s.th, t, s.th[t].(pc := Outside));
    var no, i := s.th[t].pc.no, FirstFor(s.queue, s.th[t].pc.no);
    if i < |s.queue| {
      var u := s.queue[i].task;
      CountUpdate(At(s, t, Outside), u, Thread(Trying(no), s.th[u].held));
    }
  }

  lemma SameHolders(s: State, s': State)
    requires Exclusive(s) && |s'.th| == |s.th| && s'.flg == s.flg
    requires forall u :: 0 <= u < |s.th| ==> s'.th[u].held == s.th[u].held
    requires forall u :: 0 <= u < |s.th| && (s.th[u].pc.Leaving? || s'.th[u].pc.Leaving?) ==> s'.th[u] == s.th[u]
    ensures Exclusive(s')
  {
    assert forall u, no :: 0 <= u < |s.th| ==> (Holds(s'.th[u], no) <==> Holds(s.th[u], no));
  }

  lemma SignalKeepsPromised(s: State, t: Task)
    requires Inv(s) && Enabled(s, SetFlg(t))
    ensures Promised(After(s, SetFlg(t)))
  {
    SignalAfter(s, t);
    hide Queued, After, Count, Exclusive, Latched, Counted;
    var s' := After(s, SetFlg(t));
    var no, i := s.th[t].pc.no, FirstFor(s.queue, s.th[t].pc.no);
    forall v, k | 0 <= v < |s'.th| && (s'.th[v].pc == MustWait(k) || s'.th[v].pc == Asleep(k)) && k !in s'.flg
      ensures k in s'.ptn || exists u :: 0 <= u < |s'.th| && UnderWay(s'.th[u], k)
    {
      assert s.th[v].pc == s'.th[v].pc;
      if k == no {
        if i < |s.queue| {
          assert UnderWay(s'.th[s.queue[i].task], k);
        }
      } else if k !in s.ptn {
        var u :| 0 <= u < |s.th| && UnderWay(s.th[u], k);
        assert UnderWay(s'.th[u], k);
      }
    }
  }

  lemma StepKeepsInv(s: State, e: Event)
    requires Inv(s) && Enabled(s, e)
    ensures Inv(After(s, e))
  {
    hide Exclusive, Counted, Queued, Latched, Promised, After;
    if e.SetFlg? {
      SignalKeepsQueued(s, e.t);
      SignalKeepsLocks(s, e.t);
      SignalKeepsPromised(s, e.t);
    } else {
      KeepsExclusive(s, e);
      KeepsCounted(s, e);
      KeepsQueued(s, e);
      KeepsLatched(s, e);
      KeepsPromised(s, e);
    }
  }

  /* ---- Every interleaving. ---- */

  /** The lock as `CreateMLock` leaves it, with `n` tasks around it. */
  function Start(n: nat): State {
    State({}, 0, {}, [], seq(n, _ => Thread(Outside, {})))
  }

  /** The steps `es`, in this order, lead from `s` to `s'`. */
  ghost predicate Leads(s: State, es: seq<Event>, s': State)
    decreases |es|
  {
    if es == [] then s' == s else Enabled(s, es[0]) && Leads(After(s, es[0]), es[1..], s')
  }

  lemma {:induction false} CountNone(n: nat, x: Thread)
    requires !Inside(x)
    ensures Count(seq(n, _ => x)) == 0
  {
    if n > 0 {
      assert seq(n, _ => x)[1..] == seq(n - 1, _ => x);
      CountNone(n - 1, x);
    }
  }

  lemma {:induction false} LeadsKeepsInv(s: State, es: seq<Event>, s': State)
    requires Inv(s) && Leads(s, es, s')
    ensures Inv(s')
    decreases |es|
  {
    if es != [] {
      hide Inv;
      StepKeepsInv(s, es[0]);
      LeadsKeepsInv(After(s, es[0]), es[1..], s');
    }
  }

  lemma EveryRunKeepsInv(n: nat, es: seq<Event>, s: State)
    requires Leads(Start(n), es, s)
    ensures Inv(s)
  {
    CountNone(n, Thread(Outside, {}));
    LeadsKeepsInv(Start(n), es, s);
  }

  /** In every interleaving no two tasks have the same lock number. */
  lemma MutualExclusion(n: nat, es: seq<Event>, s: State, t: Task, u: Task, no: nat)
    requires Leads(Start(n), es, s) && t < |s.th| && u < |s.th| && Holds(s.th[t], no) && Holds(s.th[u], no)
    ensures t == u
  {
    EveryRunKeepsInv(n, es, s);
  }

  /** In every interleaving, whenever nothing is under way any more, a task that sleeps on a
      lock does so because another task has it. */
  lemma NobodySleepsForever(n: nat, es: seq<Event>, s: State, t: Task)
    requires Leads(Start(n), es, s) && t < |s.th| && s.th[t].pc.Asleep?
    requires forall u :: 0 <= u < |s.th| ==> s.th[u].pc.Asleep? || s.th[u].pc.Outside?
    ensures exists u :: 0 <= u < |s.th| && s.th[t].pc.no in s.th[u].held
  {
    EveryRunKeepsInv(n, es, s);
    var no := s.th[t].pc.no;
    assert no in s.flg;
    var u :| 0 <= u < |s.th| && Holds(s.th[u], no);
  }

  /** A lock that nobody has is free to take: the fast path succeeds at once. */
  lemma FreeLockIsTaken(n: nat, es: seq<Event>, s: State, t: Task)
    requires Leads(Start(n), es, s) && t < |s.th| && s.th[t].pc.Trying?
    ensures After(s, Bts(t)).th[t].pc == (if exists u :: 0 <= u < |s.th| && Holds(s.th[u], s.th[t].pc.no)
                                          then MustWait(s.th[t].pc.no) else Leaving(s.th[t].pc.no, true))
  {
    EveryRunKeepsInv(n, es, s);
  }

  /** The counter is exact, so a task that frees a lock and reads zero leaves nobody behind
      who sleeps, or is about to, on any lock. */
  lemma ZeroMeansNobody(n: nat, es: seq<Event>, s: State, t: Task)
    requires Leads(Start(n), es, s) && t < |s.th| && s.wai == 0
    ensures !Inside(s.th[t])
  {
    EveryRunKeepsInv(n, es, s);
    if Inside(s.th[t]) {
      NobodyInside(s.th, t);
    }
  }

  /* ---- What a task does in a call, whatever the others do. ---- */

  /** No step of `t`: others run, and may change its priority. */
  ghost predicate OthersOnly(es: seq<Event>, t: Task) {
    forall i :: 0 <= i < |es| && es[i].t == t ==> es[i].Requeue?
  }

  /** `y` is what `x` becomes while others run: a sleeping task may be woken. */
  predicate LeftAlone(x: Thread, y: Thread, signalled: bool) {
    y == x || (signalled && x.pc.Asleep? && y == Thread(Trying(x.pc.no), x.held))
  }

  lemma {:induction false} AwakeOrSame(th: seq<Thread>, released: seq<(Waiter, set<nat>)>, t: Task)
    requires t < |th|
    ensures LeftAlone(th[t], AllAwake(th, released)[t], true)
    decreases |released|
  {
    if released != [] {
      var u := released[0].0.task;
      var th1 := if u < |th| && th[u].pc.Asleep? then th[u := th[u].(pc := Trying(th[u].pc.no))] else th;
      AwakeOrSame(th1, released[1..], t);
    }
  }

  lemma OneOther(s: State, e: Event, t: Task)
    requires Enabled(s, e) && t < |s.th| && (e.t == t ==> e.Requeue?)
    ensures |After(s, e).th| == |s.th| && LeftAlone(s.th[t], After(s, e).th[t], e.SetFlg?)
  {
    if e.SetFlg? {
      AwakeOrSame(At(s, e.t, Outside), Swept(s.queue, s.ptn + {s.th[e.t].pc.no}).released, t);
    }
  }

  ghost predicate Signal(es: seq<Event>) {
    exists i :: 0 <= i < |es| && es[i].SetFlg?
  }

  lemma {:induction false} OthersLeaveAlone(s: State, es: seq<Event>, s': State, t: Task)
    requires Leads(s, es, s') && t < |s.th| && OthersOnly(es, t)
    ensures |s'.th| == |s.th| && LeftAlone(s.th[t], s'.th[t], Signal(es))
    decreases |es|
  {
    if es != [] {
      hide After, Enabled;
      OneOther(s, es[0], t);
      var es1 := es[1..];
      assert forall i :: 0 <= i < |es1| ==> es1[i] == es[i + 1];
      OthersLeaveAlone(After(s, es[0]), es1, s', t);
      assert Signal(es1) || es[0].SetFlg? ==> Signal(es);
    }
  }

  /** Whether the next step `f` of a task is the right one after its step `e` in state `s`, by
      what `e` found: the bit of the lock, the bit of the flag, the counter.  `signal`: somebody
      has set the flag since. */
  ghost predicate Follows(s: State, e: Event, f: Event, signal: bool)
    requires Enabled(s, e)
  {
    match e
    case Inc(_, _) => f.Bts?
    case Bts(_) => if s.th[e.t].pc.no in s.flg then f.WaiFlg? else f.Dec?
    case WaiFlg(_, poll, _) =>
      if s.th[e.t].pc.no in s.ptn then f.Bts?
      else if poll then f.Dec?
      else f.Timeout? || (f.Bts? && signal)
    case Timeout(_) => f.Dec?
    case Dec(_) => f.Inc? || f.Br?
    case Br(_, _) => f.ReadWai?
    case ReadWai(_) => if s.wai == 0 then f.Inc? || f.Br? else f.SetFlg?
    case SetFlg(_) => f.Inc? || f.Br?
    case Requeue(_, _) => true
  }

  /** In every run each task makes its steps in the order of the program: after a timeout, after
      polling in vain and after finding the lock free it decrements the counter; it waits exactly
      after finding the lock taken, and tries again exactly after the flag had its bit or was set.
      A bit of the flag is used up by one wait, and by nothing else but signals. */
  lemma NextStep(n: nat, es: seq<Event>, s: State, e: Event, between: seq<Event>, s2: State, f: Event)
    requires Leads(Start(n), es, s) && Enabled(s, e) && Leads(After(s, e), between, s2) && Enabled(s2, f)
    requires e.t == f.t && !e.Requeue? && !f.Requeue? && OthersOnly(between, e.t)
    ensures Follows(s, e, f, Signal(between))
    ensures !e.SetFlg? ==> After(s, e).ptn == if e.WaiFlg? then s.ptn - {s.th[e.t].pc.no} else s.ptn
  {
    EveryRunKeepsInv(n, es, s);
    hide Leads, Start, Exclusive, Counted, Latched, Promised, Signal, OthersOnly;
    OwnStep(s, e);
    OthersLeaveAlone(After(s, e), between, s2, e.t);
  }

  /** Where a step leads the task that makes it; nobody wakes himself. */
  lemma OwnStep(s: State, e: Event)
    requires Enabled(s, e) && !e.Requeue? && Queued(s)
    ensures |After(s, e).th| == |s.th|
    ensures var pc, pc' := s.th[e.t].pc, After(s, e).th[e.t].pc;
            match e
            case Inc(_, no) => pc' == Trying(no)
            case Bts(_) => pc' == if pc.no in s.flg then MustWait(pc.no) else Leaving(pc.no, true)
            case WaiFlg(_, poll, _) =>
              pc' == if pc.no in s.ptn then Trying(pc.no) else if poll then Leaving(pc.no, false) else Asleep(pc.no)
            case Timeout(_) => pc' == Leaving(pc.no, false)
            case Dec(_) => pc' == Outside
            case Br(_, no) => pc' == Checking(no)
            case ReadWai(_) => pc' == if s.wai == 0 then Outside else Signalling(pc.no)
            case SetFlg(_) => pc' == Outside
  {
    hide Listed, Apart, AllListed;
    if e.WaiFlg? {
      var no := s.th[e.t].pc.no;
      assert no in s.ptn <==> no in s.ptn * {no};
    } else if e.SetFlg? {
      AwakeOrSame(At(s, e.t, Outside), Swept(s.queue, s.ptn + {s.th[e.t].pc.no}).released, e.t);
    }
  }

  /** In the call that `t` has made for lock `no` with `held`. */
  predicate InCall(x: Thread, no: nat, held: set<nat>) {
    x.held == held && (x.pc == Trying(no) || x.pc == MustWait(no) || x.pc == Asleep(no)
                       || (x.pc.Leaving? && x.pc.no == no))
  }

  lemma CallGoesOn(s: State, e: Event, t: Task, no: nat, held: set<nat>)
    requires Enabled(s, e) && Queued(s) && t < |s.th| && InCall(s.th[t], no, held) && e != Dec(t)
    ensures |After(s, e).th| == |s.th| && InCall(After(s, e).th[t], no, held)
  {
    if e.t == t && !e.Requeue? {
      OwnStep(s, e);
      assert After(s, e).th[t].held == held by {
        assert !e.SetFlg?;
      }
    } else {
      hide After, Queued;
      OneOther(s, e, t);
    }
  }

  lemma {:induction false} CallStays(s: State, es: seq<Event>, s': State, t: Task, no: nat, held: set<nat>)
    requires Inv(s) && Leads(s, es, s') && t < |s.th| && InCall(s.th[t], no, held) && Dec(t) !in es
    ensures |s'.th| == |s.th| && InCall(s'.th[t], no, held)
    decreases |es|
  {
    if es != [] {
      hide After, Enabled, InCall, Exclusive, Counted, Queued, Latched, Promised;
      CallGoesOn(s, es[0], t, no, held);
      StepKeepsInv(s, es[0]);
      CallStays(After(s, es[0]), es[1..], s', t, no, held);
    }
  }

  /** How a call for lock `no` ends, in every run: `e`, in state `s1`, is the last step of the
      task before the decrement.  Until then the task has what it had.  It gets the lock if and
      only if `e` was the bit operation, which then found the bit clear; otherwise its wait timed
      out, or it was only polling and the flag did not have the bit. */
  lemma CallEnds(n: nat, es: seq<Event>, s: State, t: Task, no: nat, before: seq<Event>, s1: State, e: Event,
                 between: seq<Event>, s2: State)
    requires Leads(Start(n), es, s) && Enabled(s, Inc(t, no))
    requires Leads(After(s, Inc(t, no)), before, s1) && Dec(t) !in before
    requires Enabled(s1, e) && e.t == t && !e.Requeue? && Leads(After(s1, e), between, s2) && OthersOnly(between, t)
    requires Enabled(s2, Dec(t))
    ensures s2.th[t].held == s.th[t].held
    ensures (e.Bts? && no !in s1.flg) || e.Timeout? || (e.WaiFlg? && e.poll && no !in s1.ptn)
    ensures After(s2, Dec(t)).th[t] == Thread(Outside, if e.Bts? then s.th[t].held + {no} else s.th[t].held)
  {
    EveryRunKeepsInv(n, es, s);
    StepKeepsInv(s, Inc(t, no));
    var held := s.th[t].held;
    assert InCall(After(s, Inc(t, no)).th[t], no, held);
    LeadsKeepsInv(After(s, Inc(t, no)), before, s1);
    CallStays(After(s, Inc(t, no)), before, s1, t, no, held);
    hide Leads, Exclusive, Counted, Latched, Promised, Queued, OthersOnly, Signal;
    assert e != Dec(t) by {
      if e == Dec(t) {
        assert After(s1, e).th[t].pc == Outside;
        OthersLeaveAlone(After(s1, e), between, s2, t);
        assert false;
      }
    }
    CallGoesOn(s1, e, t, no, held);
    OwnStep(s1, e);
    OthersLeaveAlone(After(s1, e), between, s2, t);
  }

  /** The last step of `t` before it leaves with lock `no` was the bit operation. */
  lemma {:induction false} LastTookIt(s: State, es: seq<Event>, s': State, t: Task, no: nat) returns (i: nat, s1: State)
    requires Inv(s) && Leads(s, es, s') && t < |s.th| == |s'.th| && s'.th[t].pc == Leaving(no, true)
    requires !OthersOnly(es, t)
    ensures i < |es| && Leads(s, es[..i], s1) && es[i] == Bts(t) && OthersOnly(es[i + 1..], t)
    ensures t < |s1.th| && s1.th[t].pc == Trying(no) && no !in s1.flg
    decreases |es|
  {
    hide Inv, After, Enabled, OthersOnly;
    SomeOwn(es, t);
    StepKeepsInv(s, es[0]);
    SameNumber(s, es[0]);
    var es1 := es[1..];
    if OthersOnly(es1, t) {
      i, s1 := 0, s;
      FirstTookIt(s, es[0], es1, s');
    } else {
      var k;
      k, s1 := LastTookIt(After(s, es[0]), es1, s', t, no);
      i := k + 1;
      LeadsFirst(s, es, k, s1);
      assert es[i + 1..] == es1[k + 1..];
    }
  }

  lemma SomeOwn(es: seq<Event>, t: Task)
    requires !OthersOnly(es, t)
    ensures es != [] && (OthersOnly(es[1..], t) ==> es[0].t == t && !es[0].Requeue?)
  {
    if es != [] && OthersOnly(es[1..], t) && (es[0].t == t ==> es[0].Requeue?) {
      OthersFirst(es, t);
    }
  }

  lemma OthersFirst(es: seq<Event>, t: Task)
    requires es != [] && OthersOnly(es[1..], t) && (es[0].t == t ==> es[0].Requeue?)
    ensures OthersOnly(es, t)
  {
    forall i | 0 <= i < |es| && es[i].t == t ensures es[i].Requeue? {
      if i > 0 {
        assert es[1..][i - 1] == es[i];
      }
    }
  }

  lemma LeadsFirst(s: State, es: seq<Event>, k: nat, s1: State)
    requires es != [] && Enabled(s, es[0]) && k < |es| && Leads(After(s, es[0]), es[1..][..k], s1)
    ensures Leads(s, es[..k + 1], s1)
  {
    hide After, Enabled;
    assert es[..k + 1][1..] == es[1..][..k];
  }

  lemma SameNumber(s: State, e: Event)
    requires Enabled(s, e)
    ensures |After(s, e).th| == |s.th|
  {
  }

  lemma FirstTookIt(s: State, e: Event, es: seq<Event>, s': State)
    requires Inv(s) && Enabled(s, e) && !e.Requeue? && Leads(After(s, e), es, s') && OthersOnly(es, e.t)
    requires |s'.th| == |s.th| && s'.th[e.t].pc.Leaving? && s'.th[e.t].pc.got
    ensures e.Bts? && s.th[e.t].pc == Trying(s'.th[e.t].pc.no) && s'.th[e.t].pc.no !in s.flg
  {
    hide Leads, Exclusive, Counted, Latched, Promised, OthersOnly, Signal;
    OwnStep(s, e);
    OthersLeaveAlone(After(s, e), es, s', e.t);
  }

  /** In every run a task comes to have a lock number only by the decrement that ends a call,
      and only if its last step before was the bit operation, which found the bit clear. */
  lemma HeldOnlyByTaking(n: nat, es: seq<Event>, s: State, e: Event, t: Task, no: nat) returns (i: nat, s1: State)
    requires Leads(Start(n), es, s) && Enabled(s, e) && t < |s.th| == |After(s, e).th|
    requires no in After(s, e).th[t].held && no !in s.th[t].held
    ensures e == Dec(t)
    ensures i < |es| && Leads(Start(n), es[..i], s1) && es[i] == Bts(t) && OthersOnly(es[i + 1..], t)
    ensures t < |s1.th| && s1.th[t].pc == Trying(no) && no !in s1.flg
  {
    EveryRunKeepsInv(n, [], Start(n));
    SameCount(Start(n), es, s);
    hide Inv, Start;
    GainsByDec(s, e, t, no);
    if OthersOnly(es, t) {
      OthersLeaveAlone(Start(n), es, s, t);
      assert Start(n).th[t].pc == Outside by {
        StartsOutside(n, t);
      }
      assert false;
    } else {
      i, s1 := LastTookIt(Start(n), es, s, t, no);
    }
  }

  lemma StartsOutside(n: nat, t: Task)
    requires t < |Start(n).th|
    ensures Start(n).th[t].pc == Outside
  {
  }

  lemma {:induction false} SameCount(s: State, es: seq<Event>, s': State)
    requires Leads(s, es, s')
    ensures |s'.th| == |s.th|
    decreases |es|
  {
    if es != [] {
      hide After, Enabled;
      SameNumber(s, es[0]);
      SameCount(After(s, es[0]), es[1..], s');
    }
  }

  lemma GainsByDec(s: State, e: Event, t: Task, no: nat)
    requires Enabled(s, e) && t < |s.th| == |After(s, e).th|
    requires no in After(s, e).th[t].held && no !in s.th[t].held
    ensures e == Dec(t) && s.th[t].pc == Leaving(no, true)
  {
    if e.t != t || e.SetFlg? {
      if e.SetFlg? && e.t == t {
        AwakeOrSame(At(s, e.t, Outside), Swept(s.queue, s.ptn + {s.th[e.t].pc.no}).released, t);
      } else {
        OneOther(s, e, t);
      }
    }
  }

  /* ---- Fairness of the queue. ---- */

  /** Tasks other than `t` stand in the order they stood in before. */
  ghost predicate OrderKept(q: seq<Waiter>, q': seq<Waiter>, t: Task) {
    forall i, k :: 0 <= i < k < |q'| && q'[i].task != t && q'[k].task != t ==> Stood(q, q'[i], q'[k])
  }

  /** `v` stood before `w`. */
  ghost predicate Stood(q: seq<Waiter>, v: Waiter, w: Waiter) {
    exists i, k :: 0 <= i < k < |q| && q[i] == v && q[k] == w
  }

  lemma StoodLater(q: seq<Waiter>, v: Waiter, w: Waiter)
    requires q != [] && Stood(q[1..], v, w)
    ensures Stood(q, v, w)
  {
    var i, k :| 0 <= i < k < |q[1..]| && q[1..][i] == v && q[1..][k] == w;
    assert q[i + 1] == v && q[k + 1] == w;
  }

  lemma {:induction false} DroppedOrder(t: Task, q: seq<Waiter>)
    ensures OrderKept(q, Dropped(q, t), t)
  {
    if q != [] {
      DroppedOrder(t, q[1..]);
      var r, r' := Dropped(q[1..], t), Dropped(q, t);
      forall i, k | 0 <= i < k < |r'| ensures Stood(q, r'[i], r'[k]) {
        if q[0].task == t {
          assert r'[i].task != t && r'[k].task != t;
          StoodLater(q, r'[i], r'[k]);
        } else if i == 0 {
          assert r[k - 1] in q[1..];
          var n :| 0 <= n < |q[1..]| && q[1..][n] == r[k - 1];
          assert q[0] == r'[0] && q[n + 1] == r'[k];
        } else {
          assert r[i - 1].task != t by {
            assert r[i - 1] in r;
          }
          assert r[k - 1].task != t by {
            assert r[k - 1] in r;
          }
          StoodLater(q, r'[i], r'[k]);
        }
      }
    }
  }

  lemma InsertedOrder(q: seq<Waiter>, at: nat, w: Waiter)
    requires at <= |q|
    ensures OrderKept(q, InsertAt(q, at, w), w.task)
  {
    var q' := InsertAt(q, at, w);
    forall i, k | 0 <= i < k < |q'| && q'[i].task != w.task && q'[k].task != w.task ensures Stood(q, q'[i], q'[k]) {
      assert q[if i < at then i else i - 1] == q'[i] && q[if k < at then k else k - 1] == q'[k];
    }
  }

  lemma OrderTwice(q: seq<Waiter>, q1: seq<Waiter>, q2: seq<Waiter>, t: Task)
    requires OrderKept(q, q1, t) && OrderKept(q1, q2, t)
    ensures OrderKept(q, q2, t)
  {
    forall i, k | 0 <= i < k < |q2| && q2[i].task != t && q2[k].task != t ensures Stood(q, q2[i], q2[k]) {
      assert Stood(q1, q2[i], q2[k]);
      var a, b :| 0 <= a < b < |q1| && q1[a] == q2[i] && q1[b] == q2[k];
      assert Stood(q, q1[a], q1[b]);
    }
  }

  /** Nobody overtakes: whatever a task does, the others that sleep keep their order; and it takes
      the place in the queue that is its due. */
  lemma StepKeepsOrder(s: State, e: Event)
    requires Inv(s) && Enabled(s, e)
    ensures OrderKept(s.queue, After(s, e).queue, e.t)
    ensures e.WaiFlg? && s.th[e.t].pc.no !in s.ptn && !e.poll ==>
              |After(s, e).queue| == |s.queue| + 1 && After(s, e).queue[e.at].task == e.t
    ensures e.Requeue? ==>
              |After(s, e).queue| == |s.queue| && After(s, e).queue[e.at].task == e.t
  {
    match e {
      case Timeout(t) => DroppedOrder(t, s.queue);
      case Requeue(t, at) =>
        var q := Dropped(s.queue, t);
        DroppedOrder(t, s.queue);
        OneFewer(s, t);
        InsertedOrder(q, at, LockWaiter(t, s.th[t].pc.no));
        OrderTwice(s.queue, q, After(s, e).queue, t);
      case WaiFlg(t, poll, at) =>
        assert s.th[t].pc.no in s.ptn <==> s.th[t].pc.no in s.ptn * {s.th[t].pc.no};
        InsertedOrder(s.queue, at, LockWaiter(t, s.th[t].pc.no));
        SameOrder(s.queue, t);
      case SetFlg(t) =>
        SignalAfter(s, t);
        var i := FirstFor(s.queue, s.th[t].pc.no);
        SameOrder(s.queue, t);
        if i < |s.queue| {
          RemovedOrder(s.queue, i, t);
        }
      case _ => SameOrder(s.queue, e.t);
    }
  }

  lemma SameOrder(q: seq<Waiter>, t: Task)
    ensures OrderKept(q, q, t)
  {
  }

  lemma RemovedOrder(q: seq<Waiter>, i: nat, t: Task)
    requires i < |q|
    ensures OrderKept(q, q[..i] + q[i + 1..], t)
  {
    var q' := q[..i] + q[i + 1..];
    forall j, k | 0 <= j < k < |q'| ensures Stood(q, q'[j], q'[k]) {
      assert q[if j < i then j else j + 1] == q'[j] && q[if k < i then k else k + 1] == q'[k];
    }
  }

  /** A sleeping task is in the queue once. */
  lemma OneFewer(s: State, t: Task)
    requires Queued(s) && t < |s.th| && s.th[t].pc.Asleep?
    ensures |Dropped(s.queue, t)| == |s.queue| - 1
  {
    var w := LockWaiter(t, s.th[t].pc.no);
    assert w in s.queue;
    DroppedOnce(s.queue, t);
  }

  lemma {:induction false} DroppedOnce(q: seq<Waiter>, t: Task)
    requires Apart(q) && exists w :: w in q && w.task == t
    ensures |Dropped(q, t)| == |q| - 1
  {
    if q[0].task == t {
      DroppedNobody(q[1..], t);
    } else {
      assert Apart(q[1..]);
      DroppedOnce(q[1..], t);
    }
  }

  lemma {:induction false} DroppedNobody(q: seq<Waiter>, t: Task)
    requires forall i :: 0 <= i < |q| ==> q[i].task != t
    ensures |Dropped(q, t)| == |q|
  {
    if q != [] {
      DroppedNobody(q[1..], t);
    }
  }
}
