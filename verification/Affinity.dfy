/** What the scheduler knows about tasks and processors, and the processors it considers
    open to a task. */
module Affinity {
  import opened Tasks
  import opened Hall

  /** `specified` is the attribute TA_ASSPRC, `assprc` the processors the task may use. */
  datatype Attr = Attr(specified: bool, assprc: set<nat>)

  /** `ctx` is `ctxtsk`, `dds` is `dispatch_disabled`, `attr` the table of tasks. */
  datatype Env = Env(ctx: seq<Option<Task>>, dds: seq<int>, attr: seq<Attr>) {
    function Procs(): nat { |ctx| }

    predicate Disabled(i: nat)
      requires i < |dds|
    {
      dds[i] >= DDS_DISABLE
    }

    /** Task creation fixes the masks; a running task runs where it may, and nowhere else. */
    ghost predicate Good() {
      && |dds| == |ctx| && |ctx| >= 1
      && (forall t :: 0 <= t < |attr| ==> attr[t].assprc != {} && attr[t].assprc <= Upto(|ctx|))
      && (forall t :: 0 <= t < |attr| && !attr[t].specified ==> attr[t].assprc == Upto(|ctx|))
      && (forall i :: 0 <= i < |ctx| && ctx[i].Some? ==> ctx[i].value < |attr| && i in attr[ctx[i].value].assprc)
      && (forall i, k :: 0 <= i < k < |ctx| && ctx[i].Some? ==> ctx[i] != ctx[k])
    }

    ghost function Enabled(): (s: set<nat>)
      requires |dds| == |ctx|
      ensures forall i :: i in s <==> 0 <= i < |ctx| && !Disabled(i)
    {
      set i: nat | i < |ctx| && !Disabled(i)
    }

    /** The task is running on processor `i`, which must not switch tasks. */
    predicate HeldAt(t: Task, i: nat)
      requires |dds| == |ctx|
    {
      i < |ctx| && ctx[i] == Some(t) && Disabled(i)
    }

    /** The processors open to task `t`. */
    ghost function Mask(t: Task): (s: set<nat>)
      requires |dds| == |ctx| && t < |attr|
    {
      if i: nat :| HeldAt(t, i) then {i} else attr[t].assprc * Enabled()
    }
  }
}
