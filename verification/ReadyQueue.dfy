/** The ready queue: a queue of tasks per priority, a bitmap of the priorities in use, and
    `top`, a cache of the first tasks of the ready order. */
module ReadyQueues {
  import opened Tasks
  import opened Sequences
  import opened BitOps
  import opened ReadyOrder

  /** `top` after a task was put at place `n` and the rest moved up by one. */
  ghost function Shifted(top: seq<Option<Task>>, n: nat, t: Task): (r: seq<Option<Task>>)
    ensures |r| == |top|
    ensures forall i :: 0 <= i < |top| ==> r[i] == if i < n then top[i] else if i == n then Some(t) else top[i - 1]
  {
    seq(|top|, i requires 0 <= i < |top| => if i < n then top[i] else if i == n then Some(t) else top[i - 1])
  }

  method InsertIntoTop(top: array<Option<Task>>, n: nat, t: Task)
    requires n < top.Length
    modifies top
    ensures top[..] == Shifted(old(top[..]), n, t)
  {
    var i := top.Length - 1;
    while n < i
      invariant n <= i < top.Length
      invariant forall k :: 0 <= k <= i ==> top[k] == old(top[k])
      invariant forall k :: i < k < top.Length ==> top[k] == old(top[k - 1])
    {
      top[i] := top[i - 1];
      i := i - 1;
    }
    top[n] := Some(t);
  }

  lemma ShiftedFront(order: seq<Task>, k: nat, t: Task, n: nat)
    requires k <= |order|
    ensures k < n ==> Front(InsertAt(order, k, t), n) == Shifted(Front(order, n), k, t)
    ensures n <= k ==> Front(InsertAt(order, k, t), n) == Front(order, n)
  {
    var a, b := Front(InsertAt(order, k, t), n), Shifted(Front(order, n), k, t);
    assert k < n ==> forall i :: 0 <= i < n ==> a[i] == b[i];
  }

  method UpdateTopWhenInsert(top: array<Option<Task>>, pri: seq<nat>, t: Task, ghost order: seq<Task>, ghost k: nat)
    requires top[..] == Front(order, top.Length) && Belongs(order, pri, t, k, false)
    modifies top
    ensures top[..] == Front(InsertAt(order, k, t), top.Length)
  {
    ShiftedFront(order, k, t, top.Length);
    var n := 0;
    while n < top.Length
      invariant 0 <= n <= k && n <= top.Length && top[..] == Front(order, top.Length)
    {
      assert top[n] == top[..][n];
      if top[n] == None || pri[top[n].value] > pri[t] {
        InsertIntoTop(top, n, t);
        return;
      }
      n := n + 1;
    }
  }

  method UpdateTopWhenInsertTop(top: array<Option<Task>>, pri: seq<nat>, t: Task, ghost order: seq<Task>, ghost k: nat)
    requires top[..] == Front(order, top.Length) && Belongs(order, pri, t, k, true)
    modifies top
    ensures top[..] == Front(InsertAt(order, k, t), top.Length)
  {
    ShiftedFront(order, k, t, top.Length);
    var n := 0;
    while n < top.Length
      invariant 0 <= n <= k && n <= top.Length && top[..] == Front(order, top.Length)
    {
      assert top[n] == top[..][n];
      if top[n] == None || pri[top[n].value] >= pri[t] {
        InsertIntoTop(top, n, t);
        return;
      }
      n := n + 1;
    }
  }

  /** The bitmap has the bit of a priority set exactly when its queue is not empty. */
  ghost predicate Mapped(q: seq<seq<Task>>, bits: seq<bv8>) {
    && |q| <= 8 * |bits|
    && forall p: nat :: p < |q| ==> (BitAt(bits, p) <==> q[p] != [])
  }

  lemma BitChanges(q: seq<seq<Task>>, bits: seq<bv8>, bits': seq<bv8>, p: nat, x: seq<Task>)
    requires Mapped(q, bits) && p < |q| && OneBitChanged(bits, bits', p, x != [])
    ensures Mapped(q[p := x], bits')
  {
    hide BitAt;
  }

  lemma BitStays(q: seq<seq<Task>>, bits: seq<bv8>, p: nat, x: seq<Task>)
    requires Mapped(q, bits) && p < |q| && (x == [] <==> q[p] == [])
    ensures Mapped(q[p := x], bits)
  {
    hide BitAt;
  }

  /** Only the last task of a queue links to its head. */
  lemma LastIsUnlinked(q: seq<seq<Task>>, pri: seq<nat>, next: seq<Option<Task>>, p: nat, i: nat)
    requires Queued(q, pri) && Linked(q, next) && p < |q| && i < |q[p]|
    ensures q[p][i] < |next| && (next[q[p][i]] == None <==> i == |q[p]| - 1)
    ensures q[p][|q[p]| - 1] == q[p][i] <==> i == |q[p]| - 1
  {
  }

  method ShiftDown(top: array<Option<Task>>, n: nat)
    requires n < top.Length
    modifies top
    ensures forall i :: 0 <= i < n ==> top[i] == old(top[i])
    ensures forall i :: n <= i < top.Length - 1 ==> top[i] == old(top[i + 1])
    ensures top[top.Length - 1] == old(top[top.Length - 1])
  {
    var i := n;
    while i < top.Length - 1
      invariant n <= i < top.Length
      invariant forall k :: 0 <= k < n ==> top[k] == old(top[k])
      invariant forall k :: n <= k < i ==> top[k] == old(top[k + 1])
      invariant forall k :: i <= k < top.Length ==> top[k] == old(top[k])
    {
      top[i] := top[i + 1];
      i := i + 1;
    }
  }

  method FindTop(top: array<Option<Task>>, t: Task, ghost was: seq<Task>, ghost k: nat) returns (n: nat)
    requires top[..] == Front(was, top.Length) && k < |was| && was[k] == t
    requires forall m :: 0 <= m < k ==> was[m] != t
    ensures n == if k < top.Length then k else top.Length
  {
    n := 0;
    while n < top.Length && top[n] != Some(t)
      invariant 0 <= n <= k && n <= top.Length
    {
      assert top[n] == top[..][n];
      n := n + 1;
    }
    assert n < top.Length ==> top[n] == top[..][n];
  }

  lemma ShiftedDown(was: seq<Task>, k: nat, before: seq<Option<Task>>, now: seq<Option<Task>>, order: seq<Task>)
    requires before == Front(was, |before|) && k < |was| && k < |before| == |now| && |before| >= 2
    requires order == RemoveAt(was, k)
    requires forall i :: 0 <= i < k ==> now[i] == before[i]
    requires forall i :: k <= i < |now| - 1 ==> now[i] == before[i + 1]
    requires now[|now| - 1] == before[|now| - 1]
    ensures forall m :: 0 <= m < |now| - 1 ==> now[m] == At(order, m)
    ensures now[|now| - 2] == None ==> now[|now| - 1] == None
  {
  }

  /** `t` has gone from queue `o`, unless it was not there, to the end of queue `p`. */
  ghost predicate MovedTo(q: seq<seq<Task>>, o: nat, p: nat, t: Task, absent: bool, q': seq<seq<Task>>) {
    && o < |q| && p < |q|
    && exists q1 :: (if absent then q1 == q else TakenOut(q, o, t, q1)) && |q1| == |q| && q' == q1[p := q1[p] + [t]]
  }

  lemma OutOfAll(q: seq<seq<Task>>, q1: seq<seq<Task>>, pri: seq<nat>, t: Task, absent: bool)
    requires t < |pri| && pri[t] < |q| && Queued(q, pri) && Queued(q1, pri) && (absent <==> t !in q[pri[t]])
    requires if absent then q1 == q else TakenOut(q, pri[t], t, q1)
    ensures |q1| == |q| && forall p :: 0 <= p < |q1| ==> t !in q1[p]
  {
  }

  lemma OtherPriority(q: seq<seq<Task>>, pri: seq<nat>, t: Task, p: nat)
    requires Queued(q, pri) && t < |pri| && forall k :: 0 <= k < |q| ==> t !in q[k]
    ensures Queued(q, pri[t := p])
  {
  }

  class ReadyQueue {
    var tskque: seq<seq<Task>>
    const bitmap: array<bv8>
    const top: array<Option<Task>>
    var klocktsk: Option<Task>
    var chg: bool
    /* The columns of the task control blocks that the queue reads and writes.  `next` is
       the forward link `tskque.next`, `None` standing for the queue head; a removed task
       keeps its link. */
    var next: seq<Option<Task>>
    var priority: seq<nat>
    var slicecnt: seq<nat>
    var klocked: seq<bool>
    var klockwait: seq<bool>

    ghost predicate Columns()
      reads this
    {
      |next| == |priority| == |slicecnt| == |klocked| == |klockwait|
    }

    ghost predicate Valid()
      reads this, bitmap, top
    {
      Sound() && top[..] == Front(Order(), top.Length)
    }

    /** All ready tasks, best first. */
    ghost function Order(): seq<Task>
      reads this
    {
      Flatten(tskque)
    }

    constructor (numPri: nat, numProc: nat, priority: seq<nat>, klocked: seq<bool>)
      requires numProc >= 1 && |klocked| == |priority|
      ensures Valid() && Order() == [] && |tskque| == numPri && top.Length == numProc
      ensures this.priority == priority && this.klocked == klocked
      ensures fresh(bitmap) && fresh(top)
    {
      tskque := seq(numPri, _ => []);
      bitmap := new bv8[(numPri + 31) / 32 * 4](_ => 0);
      top := new Option<Task>[numProc](_ => None);
      klocktsk, chg := None, false;
      next, slicecnt := seq(|priority|, _ => None), seq(|priority|, _ => 0);
      this.priority, this.klocked := priority, klocked;
      klockwait := seq(|priority|, _ => false);
      new;
      EmptyStretch(tskque);
    }

    /** The task after a node whose forward link is place `i` of the queue of priority
        `priority[t]`: `t` itself may be queued before that place or just have been removed
        from it. */
    method GetNextTcb(t: Task, ghost i: nat) returns (r: Option<Task>)
      requires Queued(tskque, priority) && Mapped(tskque, bitmap[..])
      requires t < |priority| && t < |next| && priority[t] < |tskque|
      requires i <= |tskque[priority[t]]| && next[t] == At(tskque[priority[t]], i)
      ensures r == At(Order(), Base(tskque, priority[t]) + i)
    {
      var p := priority[t];
      if next[t] != None {
        PlaceInOrder(tskque, p, i);
        return next[t];
      }
      var f := BitSearch1(bitmap, p + 1, |tskque| - (p + 1));
      ghost var bits := bitmap[..];
      assert forall k: nat :: p + 1 <= k < (if f >= 0 then p + 1 + f else |tskque|) ==> BitAt(bits, k) != true;
      NextQueue(tskque, p, f);
      r := if f >= 0 then Some(tskque[p + 1 + f][0]) else None;
    }
  
    /** The links and the bitmap are in order; what `top` caches is another matter. */
    ghost predicate Sound()
      reads this, bitmap
    {
      && Columns() && top.Length >= 1 && bitmap as object != top as object
      && Queued(tskque, priority) && Linked(tskque, next) && Mapped(tskque, bitmap[..])
    }

    /** The last place of `top`, from the place before it. */
    method RefillLast()
      requires Sound() && top.Length >= 2
      requires forall m :: 0 <= m < top.Length - 1 ==> top[m] == At(Order(), m)
      requires top[top.Length - 2] == None ==> top[top.Length - 1] == None
      modifies top
      ensures top[..] == Front(Order(), top.Length)
    {
      hide Queued, Linked, Mapped, Flatten, Base;
      ghost var order := Order();
      var u := top[top.Length - 2];
      if u != None {
        ghost var j := LinkInOrder(tskque, priority, next, top.Length - 2);
        top[top.Length - 1] := GetNextTcb(u.value, j);
      }
      assert forall m :: 0 <= m < top.Length ==> top[m] == At(order, m);
    }

    /** `t`, at place `k` of the ready order `was`, has just been unlinked; its own link
        still leads to place `i` of its queue. */
    ghost predicate Unlinked(t: Task, was: seq<Task>, k: nat, i: nat)
      reads this
    {
      && t < |priority| && t < |next| && priority[t] < |tskque|
      && i <= |tskque[priority[t]]| && next[t] == At(tskque[priority[t]], i)
      && k == Base(tskque, priority[t]) + i
      && k < |was| && was[k] == t && Order() == RemoveAt(was, k)
      && (forall m :: 0 <= m < k ==> was[m] != t)
    }

    method UpdateTopWhenRemove(t: Task, ghost was: seq<Task>, ghost k: nat, ghost i: nat)
      requires Sound() && Unlinked(t, was, k, i) && top[..] == Front(was, top.Length)
      modifies top
      ensures top[..] == Front(Order(), top.Length)
    {
      hide Queued, Linked, Mapped, Flatten;
      ghost var order := Order();
      var n := FindTop(top, t, was, k);
      if n < top.Length {
        if top.Length == 1 {
          top[n] := GetNextTcb(t, i);
          assert top[..] == Front(order, 1);
        } else {
          ghost var before := top[..];
          ShiftDown(top, n);
          ShiftedDown(was, k, before, top[..], order);
          RefillLast();
        }
      } else {
        assert top[..] == Front(order, top.Length);
      }
    }

    /** Append the task to the queue of its priority. */
    method Insert(t: Task)
      requires Valid() && t < |priority| && priority[t] < |tskque| && t !in tskque[priority[t]]
      modifies this, bitmap, top
      ensures Valid() && chg
      ensures tskque == old(tskque[priority[t] := tskque[priority[t]] + [t]])
      ensures klocktsk == old(if klocked[t] then Some(t) else klocktsk)
      ensures slicecnt == old(slicecnt[t := 0])
      ensures priority == old(priority) && klocked == old(klocked) && klockwait == old(klockwait)
    {
      hide Queued, Linked, Flatten, Belongs, Base;
      ghost var q, k := tskque, Base(tskque, priority[t]) + |tskque[priority[t]]|;
      AppendBelongs(q, priority, t);
      AppendInOrder(q, priority[t], t);
      slicecnt := slicecnt[t := 0];
      LinkLast(t);
      BitSet(bitmap, priority[t]);
      BitChanges(q, old(bitmap[..]), bitmap[..], priority[t], tskque[priority[t]]);
      if klocked[t] {
        klocktsk := Some(t);
      }
      UpdateTopWhenInsert(top, priority, t, Flatten(q), k);
      chg := true;
    }

    /** `QueInsert` before the head of the queue of `t`'s priority. */
    method LinkLast(t: Task)
      requires Queued(tskque, priority) && Linked(tskque, next) && |next| == |priority|
      requires t < |priority| && priority[t] < |tskque| && t !in tskque[priority[t]]
      modifies this`tskque, this`next
      ensures Queued(tskque, priority) && Linked(tskque, next) && |next| == |priority|
      ensures tskque == old(tskque[priority[t] := tskque[priority[t]] + [t]])
    {
      AppendKeeps(tskque, priority, next, t);
      next := AppendLinks(next, tskque[priority[t]], t);
      tskque := tskque[priority[t] := tskque[priority[t]] + [t]];
    }

    /** `QueInsert` behind the head of the queue of `t`'s priority. */
    method LinkFirst(t: Task)
      requires Queued(tskque, priority) && Linked(tskque, next) && |next| == |priority|
      requires t < |priority| && priority[t] < |tskque| && t !in tskque[priority[t]]
      modifies this`tskque, this`next
      ensures Queued(tskque, priority) && Linked(tskque, next) && |next| == |priority|
      ensures tskque == old(tskque[priority[t] := [t] + tskque[priority[t]]])
    {
      PrependKeeps(tskque, priority, next, t);
      next := next[t := At(tskque[priority[t]], 0)];
      tskque := tskque[priority[t] := [t] + tskque[priority[t]]];
    }

    /** `QueRemove` of the task at place `i` of queue `p`; its own link is left alone. */
    method Unlink(p: nat, i: nat)
      requires Queued(tskque, priority) && Linked(tskque, next) && |next| == |priority|
      requires p < |tskque| && i < |tskque[p]|
      modifies this`tskque, this`next
      ensures Queued(tskque, priority) && Linked(tskque, next) && |next| == |priority|
      ensures tskque == old(tskque[p := RemoveAt(tskque[p], i)])
      ensures old(tskque[p][i]) < |priority| && priority[old(tskque[p][i])] == p
      ensures Unlinked(old(tskque[p][i]), old(Order()), old(Base(tskque, p)) + i, i)
      ensures old(tskque[p][i]) !in tskque[p]
    {
      hide Flatten;
      ghost var q, k := tskque, Base(tskque, p) + i;
      RemoveKeepsQueued(q, priority, p, i);
      RemoveKeepsLinked(q, priority, next, p, i);
      RemoveInOrder(q, p, i);
      PlaceInOrder(q, p, i);
      forall m | 0 <= m < k ensures Flatten(q)[m] != q[p][i] {
        OnceInOrder(q, priority, m, k);
      }
      next := RemoveLinks(next, tskque[p], i);
      tskque := tskque[p := RemoveAt(tskque[p], i)];
      assert tskque[..p] == q[..p];
    }

    /** Put the task at the head of the queue of its priority. */
    method InsertTop(t: Task)
      requires Valid() && t < |priority| && priority[t] < |tskque| && t !in tskque[priority[t]]
      modifies this, bitmap, top
      ensures Valid() && chg
      ensures tskque == old(tskque[priority[t] := [t] + tskque[priority[t]]])
      ensures klocktsk == old(if klocked[t] then Some(t) else klocktsk)
      ensures slicecnt == old(slicecnt)
      ensures priority == old(priority) && klocked == old(klocked) && klockwait == old(klockwait)
    {
      hide Queued, Linked, Flatten, Belongs, Base;
      ghost var q, k := tskque, Base(tskque, priority[t]);
      AppendBelongs(q, priority, t);
      PrependInOrder(q, priority[t], t);
      LinkFirst(t);
      BitSet(bitmap, priority[t]);
      BitChanges(q, old(bitmap[..]), bitmap[..], priority[t], tskque[priority[t]]);
      if klocked[t] {
        klocktsk := Some(t);
      }
      UpdateTopWhenInsertTop(top, priority, t, Flatten(q), k);
      chg := true;
    }

    /** The bit of queue `p`, out of which a task may have been taken. */
    method ClearIfEmpty(p: nat, ghost q: seq<seq<Task>>)
      requires p < |q| == |tskque| && tskque == q[p := tskque[p]] && (tskque[p] != [] ==> q[p] != [])
      requires Mapped(q, bitmap[..])
      modifies bitmap
      ensures Mapped(tskque, bitmap[..])
    {
      if tskque[p] == [] {
        var p': int := p;
        assert p / 8 < bitmap.Length;
        BitClr(bitmap, p');
        BitChanges(q, old(bitmap[..]), bitmap[..], p, []);
      } else {
        BitStays(q, bitmap[..], p, tskque[p]);
      }
    }

    /** Take the task out.  A task waiting for the kernel lock sits in another queue, and
        taking it out of there leaves the ready queue as it is. */
    method Delete(t: Task)
      requires Valid() && t < |priority| && priority[t] < |tskque|
      requires klockwait[t] <==> t !in tskque[priority[t]]
      modifies this, bitmap, top
      ensures Valid()
      ensures old(klockwait[t]) ==> tskque == old(tskque) && chg == old(chg)
      ensures old(!klockwait[t]) ==> chg && TakenOut(old(tskque), old(priority[t]), t, tskque)
      ensures klockwait == old(klockwait[t := false])
      ensures klocktsk == if old(klocktsk) == Some(t) then None else old(klocktsk)
      ensures priority == old(priority) && klocked == old(klocked) && slicecnt == old(slicecnt)
    {
      hide Queued, Linked, Mapped, Flatten, Base;
      var p := priority[t];
      ghost var q := tskque;
      if klocktsk == Some(t) {
        klocktsk := None;
      }
      ghost var i := 0;
      if !klockwait[t] {
        var at :| 0 <= at < |tskque[p]| && tskque[p][at] == t;
        i := at;
        Unlink(p, at);
      }
      ClearIfEmpty(p, q);
      if klockwait[t] {
        klockwait := klockwait[t := false];
        return;
      }
      UpdateTopWhenRemove(t, Flatten(q), Base(q, p) + i, i);
      chg := true;
    }

    /** The branch of `change_task_priority` for a READY task: it goes to the end of the queue
        of its new priority, in the ready queue even if it waited for the kernel lock. */
    method ChangePriority(t: Task, p: nat)
      requires Valid() && t < |priority| && priority[t] < |tskque| && p < |tskque|
      requires klockwait[t] <==> t !in tskque[priority[t]]
      modifies this, bitmap, top
      ensures Valid() && chg && |tskque| == old(|tskque|)
      ensures MovedTo(old(tskque), old(priority[t]), p, t, old(klockwait[t]), tskque)
      ensures priority == old(priority[t := p]) && klocked == old(klocked) && klockwait == old(klockwait[t := false])
      ensures klocktsk == if klocked[t] then Some(t) else if old(klocktsk) == Some(t) then None else old(klocktsk)
      ensures slicecnt == old(slicecnt[t := 0])
    {
      hide Queued, Linked, Mapped, Flatten;
      ghost var q0, pri, waited := tskque, priority, klockwait[t];
      Delete(t);
      OutOfAll(q0, tskque, pri, t, waited);
      OtherPriority(tskque, pri, t, p);
      priority := priority[t := p];
      Insert(t);
    }

    /** Take the task at place `i` of queue `p`, which holds others too, to its end. */
    method ToEnd(p: nat, i: nat)
      requires Valid() && p < |tskque| && i < |tskque[p]| && |tskque[p]| > 1
      modifies this`tskque, this`next, top
      ensures Valid()
      ensures tskque == old(tskque[p := RemoveAt(tskque[p], i) + [tskque[p][i]]])
    {
      hide Queued, Linked, Flatten, Base, Belongs;
      ghost var q := tskque;
      var t := tskque[p][i];
      Unlink(p, i);
      BitStays(q, bitmap[..], p, tskque[p]);
      UpdateTopWhenRemove(t, Flatten(q), Base(q, p) + i, i);
      ghost var q' := tskque;
      AppendBelongs(q', priority, t);
      AppendInOrder(q', p, t);
      LinkLast(t);
      BitStays(q', bitmap[..], p, tskque[p]);
      UpdateTopWhenInsert(top, priority, t, Flatten(q'), Base(q', p) + |q'[p]|);
    }

    /** Move the head of the queue of a priority to its end. */
    method Rotate(p: nat)
      requires Valid() && p < |tskque|
      modifies this, top
      ensures Valid()
      ensures old(|tskque[p]|) == 0 ==> tskque == old(tskque) && slicecnt == old(slicecnt)
      ensures old(|tskque[p]|) > 0 ==> tskque == old(tskque[p := tskque[p][1..] + [tskque[p][0]]])
      ensures old(|tskque[p]|) > 0 ==> slicecnt == old(slicecnt[tskque[p][0] := 0])
      ensures chg == (old(chg) || old(|tskque[p]|) > 1)
      ensures priority == old(priority) && klocked == old(klocked) && klockwait == old(klockwait)
      ensures klocktsk == old(klocktsk)
    {
      if tskque[p] == [] {
        return;
      }
      var t := tskque[p][0];
      if |tskque[p]| > 1 {
        ToEnd(p, 0);
        chg := true;
      }
      slicecnt := slicecnt[t := 0];
      assert old(tskque[p][1..] + [t]) == if old(|tskque[p]|) > 1 then old(RemoveAt(tskque[p], 0) + [t])
               else old(tskque[p]);
    }

    /** Move the task to the end of the queue of its priority, unless it is there. */
    method MoveLast(t: Task) returns (moved: bool)
      requires Valid() && t < |priority| && priority[t] < |tskque| && t in tskque[priority[t]]
      modifies this, top
      ensures Valid()
      ensures moved <==> old(tskque[priority[t]][|tskque[priority[t]]| - 1]) != t
      ensures !moved ==> tskque == old(tskque)
      ensures moved ==> MovedToEnd(old(tskque), old(priority[t]), t, tskque)
      ensures slicecnt == old(slicecnt[t := 0]) && chg == old(chg)
      ensures priority == old(priority) && klocked == old(klocked) && klockwait == old(klockwait)
      ensures klocktsk == old(klocktsk)
    {
      hide Queued, Linked, Mapped, Flatten, MovedToEnd, RemoveAt;
      var p := priority[t];
      var i :| 0 <= i < |tskque[p]| && tskque[p][i] == t;
      LastIsUnlinked(tskque, priority, next, p, i);
      EndIsMoved(tskque, p, i);
      moved := next[t] != None;
      if moved {
        ToEnd(p, i);
      }
      slicecnt := slicecnt[t := 0];
    }
  }
}
