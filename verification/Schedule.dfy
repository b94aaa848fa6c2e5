/** What a schedule of all processors promises the tasks of the ready queue. */
module Schedules {
  import opened Tasks
  import opened Hall
  import opened Selection
  import opened Picking
  import opened Affinity
  import opened MultiCore
  import opened SingleCore

  /** A ready order: known tasks, none twice. */
  ghost predicate ReadyOrderOf(env: Env, order: seq<Task>) {
    && env.Good()
    && (forall i :: 0 <= i < |order| ==> order[i] < |env.attr|)
    && (forall i, k :: 0 <= i < k < |order| ==> order[i] != order[k])
  }

  /** The processors open to each task of the ready order. */
  ghost function Masks(env: Env, order: seq<Task>): (ms: seq<set<nat>>)
    requires env.Good() && forall i :: 0 <= i < |order| ==> order[i] < |env.attr|
    ensures |ms| == |order|
    ensures forall i :: 0 <= i < |order| ==> ms[i] == env.Mask(order[i])
  {
    seq(|order|, i requires 0 <= i < |order| => env.Mask(order[i]))
  }

  /** The schedule runs the tasks at the places `R` of the ready order, as `pl` says. */
  ghost predicate ScheduleOf(order: seq<Task>, ms: seq<set<nat>>, sch: seq<Option<Task>>, R: set<nat>,
                             pl: map<nat, nat>) {
    && |ms| == |order| && Places(ms, R, pl)
    && (forall k :: k in pl ==> pl[k] < |sch| && sch[pl[k]] == Some(order[k]))
    && Covered(sch, pl)
  }

  /** The task at place `k` of the ready order runs somewhere. */
  ghost predicate Running(order: seq<Task>, sch: seq<Option<Task>>, k: nat) {
    k < |order| && Some(order[k]) in sch
  }

  /** Every processor runs a ready task that may run there, no task twice. */
  ghost predicate Proper(env: Env, order: seq<Task>, sch: seq<Option<Task>>)
    requires ReadyOrderOf(env, order)
  {
    && |sch| == env.Procs()
    && (forall p :: 0 <= p < |sch| && sch[p].Some? ==>
          sch[p].value in order && sch[p].value < |env.attr| && p in env.attr[sch[p].value].assprc)
    && (forall p, q :: 0 <= p < q < |sch| && sch[p].Some? ==> sch[p] != sch[q])
  }

  /** A processor that must not switch tasks keeps its task while that is ready, and is
      given no other. */
  ghost predicate KeepsRunning(env: Env, order: seq<Task>, sch: seq<Option<Task>>)
    requires ReadyOrderOf(env, order) && |sch| == env.Procs()
  {
    forall p :: 0 <= p < |sch| && env.Disabled(p) ==>
      && (sch[p].Some? ==> sch[p] == env.ctx[p])
      && (env.ctx[p].Some? && env.ctx[p].value in order ==> sch[p] == env.ctx[p])
  }

  /** A ready task that does not run could only use processors that run earlier tasks. */
  ghost predicate WorkConserving(env: Env, order: seq<Task>, sch: seq<Option<Task>>)
    requires ReadyOrderOf(env, order) && |sch| == env.Procs()
  {
    forall k, p | 0 <= k < |order| && 0 <= p < |sch| ::
      (!Running(order, sch, k) && !env.Disabled(p) && p in env.attr[order[k]].assprc) ==>
        (sch[p].Some? && sch[p].value in order[..k])
  }

  /** Among the first tasks of the ready order, as many run as could run at all. */
  ghost predicate Maximal(order: seq<Task>, ms: seq<set<nat>>, sch: seq<Option<Task>>) {
    forall k, X: set<nat> :: 0 <= k <= |order| && X <= Upto(k) && Placeable(ms, X) ==>
      |X| <= |RunningAmong(order, sch, k)|
  }

  ghost function RunningAmong(order: seq<Task>, sch: seq<Option<Task>>, k: nat): (s: set<nat>)
    ensures forall i :: i in s <==> 0 <= i < k && Running(order, sch, i)
  {
    set i: nat | i < k && Running(order, sch, i)
  }

  /** Exactly the placed tasks run. */
  lemma RunsWhereScheduled(order: seq<Task>, ms: seq<set<nat>>, sch: seq<Option<Task>>, R: set<nat>,
                           pl: map<nat, nat>, k: nat)
    requires ScheduleOf(order, ms, sch, R, pl) && k < |order|
    requires forall i, j :: 0 <= i < j < |order| ==> order[i] != order[j]
    ensures k in R <==> Running(order, sch, k)
  {
    if k in R {
      assert sch[pl[k]] == Some(order[k]);
    }
    if Running(order, sch, k) {
      var p :| 0 <= p < |sch| && sch[p] == Some(order[k]);
      var i := WhoCovers(sch, pl, p);
      assert order[i] == order[k];
    }
  }

  lemma ScheduleIsProper(env: Env, order: seq<Task>, sch: seq<Option<Task>>, R: set<nat>, pl: map<nat, nat>)
    requires ReadyOrderOf(env, order) && |sch| == env.Procs()
    requires ScheduleOf(order, Masks(env, order), sch, R, pl)
    ensures Proper(env, order, sch)
  {
    var ms := Masks(env, order);
    forall p | 0 <= p < |sch| && sch[p].Some?
      ensures sch[p].value in order && sch[p].value < |env.attr| && p in env.attr[sch[p].value].assprc
    {
      var k := WhoCovers(sch, pl, p);
      assert k < |ms| && p in ms[k] && sch[p] == Some(order[k]);
      DisabledInMask(env, order[k], p);
    }
    forall p, q | 0 <= p < q < |sch| && sch[p].Some? ensures sch[p] != sch[q] {
      if sch[p] == sch[q] {
        SameTaskSameProcessor(order, ms, sch, R, pl, p, q);
      }
    }
  }

  lemma SameTaskSameProcessor(order: seq<Task>, ms: seq<set<nat>>, sch: seq<Option<Task>>, R: set<nat>,
                              pl: map<nat, nat>, p: nat, q: nat)
    requires ScheduleOf(order, ms, sch, R, pl)
    requires forall i, j :: 0 <= i < j < |order| ==> order[i] != order[j]
    requires p < |sch| && q < |sch| && sch[p].Some? && sch[p] == sch[q]
    ensures p == q
  {
    var k := WhoCovers(sch, pl, p);
    var m := WhoCovers(sch, pl, q);
    assert order[k] == order[m];
  }

  /** A task its processor may not leave is never refused. */
  lemma HeldIsChosen(env: Env, order: seq<Task>, pl: map<nat, nat>, k: nat, p: nat)
    requires ReadyOrderOf(env, order) && k < |order| && env.HeldAt(order[k], p)
    requires Places(Masks(env, order), Chosen(Masks(env, order)), pl)
    ensures k in pl && pl[k] == p
  {
    hide Chosen;
    var ms := Masks(env, order);
    HeldMask(env, order[k], p);
    if k !in pl {
      var i := RefusedIsOvertakenByEarlier(ms, pl, k, p);
      assert p in ms[i];
      DisabledInMask(env, order[i], p);
      assert false;
    }
    assert pl[k] in ms[k];
  }

  /** A held task alone has its processor. */
  lemma HeldIsAlone(env: Env, order: seq<Task>, k: nat, p: nat)
    requires ReadyOrderOf(env, order) && k < |order| && env.HeldAt(order[k], p)
    ensures Alone(Masks(env, order), k, p) && k in Chosen(Masks(env, order))
  {
    hide Chosen;
    var ms := Masks(env, order);
    HeldMask(env, order[k], p);
    forall i | 0 <= i < |ms| && i != k ensures p !in ms[i] {
      if p in ms[i] {
        DisabledInMask(env, order[i], p);
      }
    }
    ChosenHall(ms);
    HallTheorem(ms, Chosen(ms));
    var pl :| Places(ms, Chosen(ms), pl);
    HeldIsChosen(env, order, pl, k, p);
  }

  /** The places in `R` include all those whose task alone has its processor. */
  ghost predicate IncludesAlone(ms: seq<set<nat>>, R: set<nat>) {
    forall k: nat, p: nat :: Alone(ms, k, p) && k in Chosen(ms) ==> k in R
  }

  lemma ScheduleKeepsRunning(env: Env, order: seq<Task>, sch: seq<Option<Task>>, R: set<nat>, pl: map<nat, nat>)
    requires ReadyOrderOf(env, order) && |sch| == env.Procs()
    requires ScheduleOf(order, Masks(env, order), sch, R, pl) && IncludesAlone(Masks(env, order), R)
    ensures KeepsRunning(env, order, sch)
  {
    hide Chosen, Alone;
    var ms := Masks(env, order);
    forall p | 0 <= p < |sch| && env.Disabled(p)
      ensures sch[p].Some? ==> sch[p] == env.ctx[p]
      ensures env.ctx[p].Some? && env.ctx[p].value in order ==> sch[p] == env.ctx[p]
    {
      if sch[p].Some? {
        var k := WhoCovers(sch, pl, p);
        assert k < |ms| && p in ms[k];
        DisabledInMask(env, order[k], p);
      }
      if env.ctx[p].Some? && env.ctx[p].value in order {
        var k :| 0 <= k < |order| && order[k] == env.ctx[p].value;
        HeldMask(env, order[k], p);
        HeldIsAlone(env, order, k, p);
        assert pl[k] in ms[k];
      }
    }
  }

  lemma ScheduleIsWorkConserving(env: Env, order: seq<Task>, sch: seq<Option<Task>>, pl: map<nat, nat>)
    requires ReadyOrderOf(env, order) && |sch| == env.Procs()
    requires ScheduleOf(order, Masks(env, order), sch, Chosen(Masks(env, order)), pl)
    ensures WorkConserving(env, order, sch)
  {
    hide Chosen;
    var ms := Masks(env, order);
    forall k, p | 0 <= k < |order| && !Running(order, sch, k) && 0 <= p < |sch| && !env.Disabled(p)
      && p in env.attr[order[k]].assprc
      ensures sch[p].Some? && sch[p].value in order[..k]
    {
      RunsWhereScheduled(order, ms, sch, Chosen(ms), pl, k);
      OpenUnlessHeld(env, order, pl, k, p);
      var i := RefusedIsOvertakenByEarlier(ms, pl, k, p);
      assert order[..k][i] == order[i];
    }
  }

  lemma OpenUnlessHeld(env: Env, order: seq<Task>, pl: map<nat, nat>, k: nat, p: nat)
    requires ReadyOrderOf(env, order) && k < |order| && k !in pl
    requires Places(Masks(env, order), Chosen(Masks(env, order)), pl)
    requires p < env.Procs() && !env.Disabled(p) && p in env.attr[order[k]].assprc
    ensures p in Masks(env, order)[k]
  {
    hide Chosen;
    forall q | env.HeldAt(order[k], q) ensures false {
      HeldIsChosen(env, order, pl, k, q);
    }
  }

  lemma ScheduleIsMaximal(env: Env, order: seq<Task>, sch: seq<Option<Task>>, pl: map<nat, nat>)
    requires ReadyOrderOf(env, order) && |sch| == env.Procs()
    requires ScheduleOf(order, Masks(env, order), sch, Chosen(Masks(env, order)), pl)
    ensures Maximal(order, Masks(env, order), sch)
  {
    hide Chosen;
    var ms := Masks(env, order);
    forall k, X: set<nat> | 0 <= k <= |order| && X <= Upto(k) && Placeable(ms, X)
      ensures |X| <= |RunningAmong(order, sch, k)|
    {
      SelectionIsMaximum(ms, k, X);
      var c := set i | i in Chosen(ms) && i < k;
      forall i | 0 <= i < k ensures i in c <==> i in RunningAmong(order, sch, k) {
        RunsWhereScheduled(order, ms, sch, Chosen(ms), pl, i);
      }
      assert c == RunningAmong(order, sch, k);
    }
  }

  /* ---- Who stays where he is running. ---- */

  /** No chosen task is bound to several but not all processors. */
  ghost predicate UnsplitChosen(env: Env, order: seq<Task>)
    requires ReadyOrderOf(env, order)
  {
    forall k :: 0 <= k < |order| && k in Chosen(Masks(env, order)) ==> !(1 < |env.attr[order[k]].assprc| < env.Procs())
  }

  /** All chosen tasks are running, and so does one of them on every processor open to them. */
  ghost predicate Settled(env: Env, order: seq<Task>)
    requires ReadyOrderOf(env, order)
  {
    && (forall k :: 0 <= k < |order| && k in Chosen(Masks(env, order)) ==> Some(order[k]) in env.ctx)
    && (forall k, p: nat :: 0 <= k < |order| && k in Chosen(Masks(env, order)) && p in Masks(env, order)[k] ==>
          && p < |env.ctx|
          && exists u :: 0 <= u < |order| && u in Chosen(Masks(env, order)) && env.ctx[p] == Some(order[u]))
  }

  ghost predicate NobodyMoves(env: Env, order: seq<Task>, sch: seq<Option<Task>>)
    requires ReadyOrderOf(env, order) && |sch| == env.Procs()
  {
    forall k, p | 0 <= k < |order| && k in Chosen(Masks(env, order)) && 0 <= p < |sch| ::
      env.ctx[p] == Some(order[k]) ==> sch[p] == env.ctx[p]
  }

  /** A task may go on where it is running. */
  lemma RunningMask(env: Env, t: Task, p: nat)
    requires env.Good() && t < |env.attr| && p < env.Procs() && env.ctx[p] == Some(t)
    ensures p in env.Mask(t)
  {
    if env.Disabled(p) {
      HeldMask(env, t, p);
    } else {
      assert forall i :: !env.HeldAt(t, i);
    }
  }

  /** Everything a complete schedule promises. */
  ghost predicate GoodSchedule(env: Env, order: seq<Task>, sch: seq<Option<Task>>)
    requires ReadyOrderOf(env, order)
  {
    && Proper(env, order, sch) && KeepsRunning(env, order, sch)
    && WorkConserving(env, order, sch) && Maximal(order, Masks(env, order), sch)
  }

  lemma ScheduleIsGood(env: Env, order: seq<Task>, sch: seq<Option<Task>>, pl: map<nat, nat>)
    requires ReadyOrderOf(env, order) && |sch| == env.Procs()
    requires ScheduleOf(order, Masks(env, order), sch, Chosen(Masks(env, order)), pl)
    ensures GoodSchedule(env, order, sch)
  {
    hide Chosen, ScheduleOf, Proper, KeepsRunning, WorkConserving, Maximal;
    ScheduleIsProper(env, order, sch, Chosen(Masks(env, order)), pl);
    ScheduleKeepsRunning(env, order, sch, Chosen(Masks(env, order)), pl);
    ScheduleIsWorkConserving(env, order, sch, pl);
    ScheduleIsMaximal(env, order, sch, pl);
  }
}
