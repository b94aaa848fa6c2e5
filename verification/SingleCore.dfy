/** `single_core_assign`: placement when every accepted task is bound to one processor or
    to none. */
module SingleCore {
  import opened Tasks
  import opened Hall
  import opened Affinity
  import opened MultiCore

  ghost predicate Pinned(env: Env, t: Task)
    requires t < |env.attr|
  {
    env.attr[t].specified && env.attr[t].assprc != Upto(env.Procs())
  }

  /** The accepted tasks `ts`, and the absence of tasks bound to some but not all
      processors, which is what sends the scheduler down this path. */
  ghost predicate Accepted(env: Env, ts: seq<Task>, orig: seq<set<nat>>) {
    && env.Good() && |ts| <= env.Procs() && |orig| == |ts|
    && (forall i, j :: 0 <= i < j < |ts| ==> ts[i] != ts[j])
    && (forall j :: 0 <= j < |ts| ==> ts[j] < |env.attr| && orig[j] == env.Mask(ts[j]))
    && (forall j :: 0 <= j < |ts| && Pinned(env, ts[j]) ==> |env.attr[ts[j]].assprc| == 1)
    && HallOn(orig, Upto(|ts|))
  }

  /** The accepted tasks as the scheduler's array holds them. */
  ghost function Slots(ts: seq<Task>): (r: seq<Option<Task>>)
    ensures |r| == |ts|
    ensures forall i :: 0 <= i < |ts| ==> r[i] == Some(ts[i])
  {
    seq(|ts|, i requires 0 <= i < |ts| => Some(ts[i]))
  }

  /** Slot `j` of `top` is emptied when its task is put into the schedule. */
  ghost predicate Emptied(ts: seq<Task>, top: seq<Option<Task>>, pl: map<nat, nat>) {
    forall j :: 0 <= j < |top| ==> top[j] == if j < |ts| && j !in pl then Some(ts[j]) else None
  }

  ghost predicate Placing(ts: seq<Task>, orig: seq<set<nat>>, top: seq<Option<Task>>, sch: seq<Option<Task>>,
                          pl: map<nat, nat>) {
    && |orig| == |ts| <= |top| == |sch|
    && Assignment(orig, Slots(ts), |ts|, sch, pl)
    && Emptied(ts, top, pl)
  }

  lemma PlaceOne(ts: seq<Task>, orig: seq<set<nat>>, top: seq<Option<Task>>, sch: seq<Option<Task>>,
                 pl: map<nat, nat>, j: nat, p: nat)
    requires Placing(ts, orig, top, sch, pl)
    requires j < |ts| && j !in pl && p < |sch| && sch[p] == None && p in orig[j]
    ensures Placing(ts, orig, top[j := None], sch[p := Some(ts[j])], pl[j := p])
  {
    hide Places, Slots, Scheduled, Emptied;
    FreeIsUnused(orig, Slots(ts), |ts|, sch, pl, p);
    FreshPair(orig, pl, j, p);
    ScheduleStays(Slots(ts), sch, pl, j, p);
    EmptiedToo(ts, top, pl, j, p);
  }

  lemma EmptiedToo(ts: seq<Task>, top: seq<Option<Task>>, pl: map<nat, nat>, j: nat, p: nat)
    requires Emptied(ts, top, pl) && j < |top|
    ensures Emptied(ts, top[j := None], pl[j := p])
  {
  }

  lemma FreeIsUnused(orig: seq<set<nat>>, tcb: seq<Option<Task>>, m: nat, sch: seq<Option<Task>>, pl: map<nat, nat>,
                     p: nat)
    requires Assignment(orig, tcb, m, sch, pl) && p < |sch| && forall i :: 0 <= i < m && i < |tcb| ==> tcb[i].Some?
    ensures sch[p] == None <==> p !in pl.Values
  {
  }

  lemma SameOnlyProcessor(orig: seq<set<nat>>, R: set<nat>, j: nat, k: nat, p: nat)
    requires HallOn(orig, R) && {j, k} <= R && j < |orig| && k < |orig|
    requires orig[j] == {p} == orig[k]
    ensures j == k
  {
    var S := {j, k};
    assert Reach(orig, S) == {p};
    assert |S| <= |{p}| == 1;
    assert |S - {j}| == 0;
  }

  /** A slot that can only go to `p` finds it free. */
  lemma OnlyProcessorIsFree(ts: seq<Task>, orig: seq<set<nat>>, top: seq<Option<Task>>, sch: seq<Option<Task>>,
                            pl: map<nat, nat>, j: nat, p: nat)
    requires Placing(ts, orig, top, sch, pl) && HallOn(orig, Upto(|ts|))
    requires j < |ts| && j !in pl && p < |sch| && orig[j] == {p}
    requires forall k :: k in pl && pl[k] == p ==> orig[k] == {p}
    ensures sch[p] == None
  {
    forall k | k in pl && pl[k] == p ensures false {
      SameOnlyProcessor(orig, Upto(|ts|), j, k, p);
    }
    FreeIsUnused(orig, Slots(ts), |ts|, sch, pl, p);
  }

  lemma NotAllUsed(orig: seq<set<nat>>, m: nat, pl: map<nat, nat>, j: nat, E: set<nat>) returns (p: nat)
    requires HallOn(orig, Upto(m)) && pl.Keys <= Upto(m) && Places(orig, pl.Keys, pl)
    requires j < m <= |orig| && j !in pl && orig[j] == E
    requires forall k :: k in pl && pl[k] in E ==> orig[k] <= E
    ensures p in E && p !in pl.Values
  {
    var S := set k | k in pl && pl[k] in E;
    var T := S + {j};
    assert Reach(orig, T) <= E;
    SubsetSize(Reach(orig, T), E);
    assert |T| == |S| + 1 && T <= Upto(m);
    ImageSize(orig, pl.Keys, pl, S);
    var used := Image(pl, S);
    FewerLeavesOne(used, E);
    p :| p in E - used;
    UnusedIsFresh(pl, E, S, p);
  }

  lemma UnusedIsFresh(pl: map<nat, nat>, E: set<nat>, S: set<nat>, p: nat)
    requires S == set k | k in pl && pl[k] in E
    requires p in E && p !in Image(pl, S)
    ensures p !in pl.Values
  {
    forall k | k in pl ensures pl[k] != p {
      assert k in S ==> pl[k] in Image(pl, S);
    }
  }

  lemma FewerLeavesOne<T>(A: set<T>, B: set<T>)
    requires |A| < |B|
    ensures B - A != {}
  {
    assert B == (B - A) + (B * A);
    SubsetSize(B * A, A);
  }

  /** While a slot with the mask of all enabled processors waits, one of them is free. */
  lemma SomeEnabledIsFree(ts: seq<Task>, orig: seq<set<nat>>, top: seq<Option<Task>>, sch: seq<Option<Task>>,
                          pl: map<nat, nat>, j: nat, E: set<nat>) returns (p: nat)
    requires Placing(ts, orig, top, sch, pl) && HallOn(orig, Upto(|ts|))
    requires j < |ts| && j !in pl && orig[j] == E && forall p :: p in E ==> p < |sch|
    requires forall k :: k in pl && pl[k] in E ==> orig[k] <= E
    ensures p in E && p < |sch| && sch[p] == None
  {
    p := NotAllUsed(orig, |ts|, pl, j, E);
    FreeIsUnused(orig, Slots(ts), |ts|, sch, pl, p);
  }

  /** Bound to no processor, and not held by one either. */
  ghost predicate Loose(env: Env, t: Task)
    requires t < |env.attr| && |env.dds| == |env.ctx|
  {
    !Pinned(env, t) && forall i :: !env.HeldAt(t, i)
  }

  ghost predicate UnpinnedLeft(env: Env, ts: seq<Task>, pl: map<nat, nat>) {
    forall k :: 0 <= k < |ts| && k !in pl ==> ts[k] < |env.attr| && !Pinned(env, ts[k])
  }

  /** The slots below `n` that are still unplaced are loose. */
  ghost predicate LooseLeft(env: Env, ts: seq<Task>, pl: map<nat, nat>, n: int) {
    && |env.dds| == |env.ctx|
    && forall k :: 0 <= k < |ts| && k < n && k !in pl ==> ts[k] < |env.attr| && Loose(env, ts[k])
  }

  lemma HeldMask(env: Env, t: Task, i: nat)
    requires env.Good() && t < |env.attr| && env.HeldAt(t, i)
    ensures env.Mask(t) == {i}
  {
  }

  lemma DisabledInMask(env: Env, t: Task, p: nat)
    requires env.Good() && t < |env.attr| && p in env.Mask(t)
    ensures p < env.Procs() && p in env.attr[t].assprc
    ensures env.Disabled(p) ==> env.HeldAt(t, p) && env.Mask(t) == {p}
    ensures !env.Disabled(p) ==> env.Mask(t) <= env.Enabled() && forall i :: !env.HeldAt(t, i)
  {
  }

  lemma PinnedMask(env: Env, t: Task) returns (p: nat)
    requires env.Good() && t < |env.attr| && |env.attr[t].assprc| == 1 && env.Mask(t) != {}
    ensures env.attr[t].assprc == {p} == env.Mask(t) && p < env.Procs()
  {
    p :| p in env.Mask(t);
    DisabledInMask(env, t, p);
    assert |env.attr[t].assprc - {p}| == 0;
    assert forall q :: q in env.Mask(t) ==> q in env.attr[t].assprc;
  }

  lemma WideMask(env: Env, t: Task)
    requires env.Good() && t < |env.attr| && Loose(env, t)
    ensures env.Mask(t) == env.Enabled()
  {
  }

  lemma AcceptedCanRun(env: Env, ts: seq<Task>, orig: seq<set<nat>>, j: nat)
    requires Accepted(env, ts, orig) && j < |ts|
    ensures env.Mask(ts[j]) != {}
  {
    assert Reach(orig, {j}) == orig[j];
    assert {j} <= Upto(|ts|) && |{j}| == 1;
  }

  ghost predicate Arrays(env: Env, topTcb: array<Option<Task>>, sch: array<Option<Task>>) {
    topTcb.Length == sch.Length == env.Procs() == |env.dds| && topTcb != sch
  }

  /** Slot `j` of `topTcb` moves to processor `i` of `sch`. */
  method Put(topTcb: array<Option<Task>>, sch: array<Option<Task>>, j: nat, i: nat)
    requires j < topTcb.Length && i < sch.Length && topTcb != sch
    modifies topTcb, sch
    ensures topTcb[..] == old(topTcb[..])[j := None]
    ensures sch[..] == old(sch[..])[i := old(topTcb[j])]
  {
    sch[i] := topTcb[j];
    topTcb[j] := None;
  }

  lemma PinnedSlot(env: Env, ts: seq<Task>, orig: seq<set<nat>>, top: seq<Option<Task>>, sch: seq<Option<Task>>,
                   pl: map<nat, nat>, j: nat) returns (p: nat)
    requires Accepted(env, ts, orig) && Placing(ts, orig, top, sch, pl) && |sch| == env.Procs()
    requires j < |ts| && j !in pl && Pinned(env, ts[j])
    requires forall k :: k in pl ==> Pinned(env, ts[k])
    ensures env.attr[ts[j]].assprc == {p} && p < |sch| && sch[p] == None
    ensures Placing(ts, orig, top[j := None], sch[p := Some(ts[j])], pl[j := p])
  {
    AcceptedCanRun(env, ts, orig, j);
    p := PinnedMask(env, ts[j]);
    forall k | k in pl && pl[k] == p ensures orig[k] == {p} {
      AcceptedCanRun(env, ts, orig, k);
      var p' := PinnedMask(env, ts[k]);
    }
    OnlyProcessorIsFree(ts, orig, top, sch, pl, j, p);
    PlaceOne(ts, orig, top, sch, pl, j, p);
  }

  /** The first free processor among `assprc`; `p` is known to be one. */
  method FindBound(sch: array<Option<Task>>, assprc: set<nat>, ghost p: nat) returns (i: nat)
    requires p < sch.Length && sch[p] == None && p in assprc
    ensures i <= p && i in assprc && sch[i] == None
  {
    i := 0;
    while i < sch.Length && !(i in assprc && sch[i] == None)
      invariant 0 <= i <= p
    {
      i := i + 1;
    }
  }

  /** First pass for slot `j`: the one processor its task is bound to. */
  method PlacePinned(env: Env, topTcb: array<Option<Task>>, sch: array<Option<Task>>, j: nat,
                     ghost ts: seq<Task>, ghost orig: seq<set<nat>>, ghost pl: map<nat, nat>)
                         returns (ghost pl': map<nat, nat>)
    requires Arrays(env, topTcb, sch) && Accepted(env, ts, orig) && Placing(ts, orig, topTcb[..], sch[..], pl)
    requires j < |ts| && j !in pl && Pinned(env, ts[j])
    requires forall k :: k in pl ==> Pinned(env, ts[k])
    modifies topTcb, sch
    ensures Placing(ts, orig, topTcb[..], sch[..], pl')
    ensures forall k :: k in pl' <==> k in pl || k == j
  {
    ghost var top, was := topTcb[..], sch[..];
    assert topTcb[j] == top[j] == Some(ts[j]);
    ghost var p := PinnedSlot(env, ts, orig, top, was, pl, j);
    var i := FindBound(sch, env.attr[topTcb[j].value].assprc, p);
    Put(topTcb, sch, j, i);
    pl' := pl[j := p];
  }

  lemma RunningSlot(env: Env, ts: seq<Task>, orig: seq<set<nat>>, top: seq<Option<Task>>, sch: seq<Option<Task>>,
                    pl: map<nat, nat>, j: nat, i: nat)
    requires Accepted(env, ts, orig) && Placing(ts, orig, top, sch, pl) && |sch| == env.Procs()
    requires j < |ts| && j !in pl && i < |sch| && sch[i] == None && env.ctx[i] == Some(ts[j])
    requires !Pinned(env, ts[j])
    ensures Placing(ts, orig, top[j := None], sch[i := Some(ts[j])], pl[j := i])
  {
    if env.Disabled(i) {
      HeldMask(env, ts[j], i);
    } else {
      assert forall p :: !env.HeldAt(ts[j], p);
      WideMask(env, ts[j]);
    }
    PlaceOne(ts, orig, top, sch, pl, j, i);
  }

  lemma HeldSlotFindsItsProcessor(env: Env, ts: seq<Task>, orig: seq<set<nat>>, top: seq<Option<Task>>,
                                  sch: seq<Option<Task>>,
                                  pl: map<nat, nat>, j: nat, i: nat)
    requires Accepted(env, ts, orig) && Placing(ts, orig, top, sch, pl) && |sch| == env.Procs()
    requires j < |ts| && j !in pl && env.HeldAt(ts[j], i)
    ensures sch[i] == None
  {
    HeldMask(env, ts[j], i);
    forall k | k in pl && pl[k] == i ensures orig[k] == {i} {
      DisabledInMask(env, ts[k], i);
    }
    OnlyProcessorIsFree(ts, orig, top, sch, pl, j, i);
  }

  method FindRunning(env: Env, sch: array<Option<Task>>, t: Option<Task>) returns (i: nat)
    requires sch.Length == env.Procs()
    ensures i <= sch.Length
    ensures i < sch.Length ==> sch[i] == None && env.ctx[i] == t
    ensures i == sch.Length ==> forall k :: 0 <= k < i ==> !(sch[..][k] == None && env.ctx[k] == t)
  {
    i := 0;
    while i < |env.ctx| && !(sch[i] == None && env.ctx[i] == t)
      invariant 0 <= i <= |env.ctx|
      invariant forall k :: 0 <= k < i ==> !(sch[k] == None && env.ctx[k] == t)
    {
      i := i + 1;
    }
  }

  lemma NotFoundIsNotHeld(env: Env, ts: seq<Task>, orig: seq<set<nat>>, top: seq<Option<Task>>, sch: seq<Option<Task>>,
                          pl: map<nat, nat>, j: nat)
    requires Accepted(env, ts, orig) && Placing(ts, orig, top, sch, pl) && |sch| == env.Procs()
    requires j < |ts| && j !in pl && !Pinned(env, ts[j])
    requires forall k :: 0 <= k < |sch| ==> !(sch[k] == None && env.ctx[k] == Some(ts[j]))
    ensures Loose(env, ts[j])
  {
    forall i | env.HeldAt(ts[j], i) ensures false {
      HeldSlotFindsItsProcessor(env, ts, orig, top, sch, pl, j, i);
    }
  }

  /** Slot `j` got the processor that runs its task if that was free, and is passed over if not. */
  ghost predicate OneStays(env: Env, ts: seq<Task>, was: seq<Option<Task>>, sch: seq<Option<Task>>,
                           pl: map<nat, nat>, pl': map<nat, nat>, j: nat) {
    && |env.ctx| == |was| && j < |ts|
    && if j in pl' then
         pl'[j] < |was| && was[pl'[j]] == None && env.ctx[pl'[j]] == Some(ts[j]) && pl' == pl[j := pl'[j]]
         && sch == was[pl'[j] := Some(ts[j])]
       else
         pl' == pl && sch == was && forall i :: 0 <= i < |was| ==> !(was[i] == None && env.ctx[i] == Some(ts[j]))
  }

  /** Every slot below `n` whose task is running on a processor that was free is placed there,
      and such processors are still free for the slots from `n` on. */
  ghost predicate Stay(env: Env, ts: seq<Task>, was: seq<Option<Task>>, sch: seq<Option<Task>>,
                       pl0: map<nat, nat>, pl: map<nat, nat>, n: int) {
    && |env.ctx| == |was| == |sch| && (forall k :: k in pl ==> k in pl0 || k < n)
    && forall k: nat, i: nat :: RunsFree(env, ts, was, k, i) && k !in pl0 ==>
         if k < n then k in pl && pl[k] == i else sch[i] == None
  }

  /** The task of slot `k` is running on processor `i`, which is free. */
  ghost predicate RunsFree(env: Env, ts: seq<Task>, sch: seq<Option<Task>>, k: nat, i: nat) {
    k < |ts| && i < |sch| && i < |env.ctx| && sch[i] == None && env.ctx[i] == Some(ts[k])
  }

  lemma StayOneMore(env: Env, ts: seq<Task>, orig: seq<set<nat>>, was: seq<Option<Task>>, sch: seq<Option<Task>>,
                    sch': seq<Option<Task>>, pl0: map<nat, nat>, pl: map<nat, nat>, pl': map<nat, nat>, j: nat)
    requires Accepted(env, ts, orig) && Stay(env, ts, was, sch, pl0, pl, j) && j !in pl
    requires OneStays(env, ts, sch, sch', pl, pl', j)
    ensures Stay(env, ts, was, sch', pl0, pl', j + 1)
  {
  }

  lemma StayPassed(env: Env, ts: seq<Task>, was: seq<Option<Task>>, sch: seq<Option<Task>>,
                   pl0: map<nat, nat>, pl: map<nat, nat>, j: nat)
    requires Stay(env, ts, was, sch, pl0, pl, j) && (j in pl || j >= |ts|)
    ensures Stay(env, ts, was, sch, pl0, pl, j + 1)
  {
  }

  lemma RestSlot(env: Env, ts: seq<Task>, orig: seq<set<nat>>, top: seq<Option<Task>>, sch: seq<Option<Task>>,
                 pl: map<nat, nat>, j: nat) returns (p: nat)
    requires Accepted(env, ts, orig) && Placing(ts, orig, top, sch, pl) && |sch| == env.Procs()
    requires j < |ts| && j !in pl && Loose(env, ts[j])
    ensures orig[j] == env.Enabled() && p in env.Enabled() && p < |sch| && sch[p] == None
  {
    WideMask(env, ts[j]);
    forall k | k in pl && pl[k] in env.Enabled() ensures orig[k] <= env.Enabled() {
      DisabledInMask(env, ts[k], pl[k]);
    }
    p := SomeEnabledIsFree(ts, orig, top, sch, pl, j, env.Enabled());
  }

  /** The first free processor that may switch tasks; `p` is known to be one. */
  method FindEnabled(env: Env, sch: array<Option<Task>>, ghost p: nat) returns (i: nat)
    requires |env.dds| == |env.ctx| == sch.Length
    requires p < sch.Length && sch[p] == None && !env.Disabled(p)
    ensures i <= p && !env.Disabled(i) && sch[i] == None
    ensures forall k :: 0 <= k < i && !env.Disabled(k) ==> sch[..][k].Some?
  {
    i := 0;
    while i < |env.ctx| && !(!env.Disabled(i) && sch[i] == None)
      invariant 0 <= i <= p
      invariant forall k :: 0 <= k < i && !env.Disabled(k) ==> sch[..][k].Some?
    {
      i := i + 1;
    }
  }

  /** Slot `j` got processor `i`, and all enabled ones before that were used. */
  ghost predicate LeastFree(env: Env, pl: map<nat, nat>, pl': map<nat, nat>, j: nat) {
    && |env.dds| == |env.ctx| && j in pl' && pl' == pl[j := pl'[j]]
    && forall p: nat :: p < pl'[j] && p < |env.dds| && !env.Disabled(p) ==> UsedBy(pl, p)
  }

  ghost predicate UsedBy(pl: map<nat, nat>, p: nat) {
    exists k :: k in pl && pl[k] == p
  }

  lemma LeastFreeIs(env: Env, ts: seq<Task>, orig: seq<set<nat>>, top: seq<Option<Task>>, sch: seq<Option<Task>>,
                    pl: map<nat, nat>, j: nat, i: nat)
    requires Placing(ts, orig, top, sch, pl) && |env.dds| == |env.ctx| == |sch| && i < |sch|
    requires forall k :: 0 <= k < i && !env.Disabled(k) ==> sch[k].Some?
    ensures LeastFree(env, pl, pl[j := i], j)
  {
    hide Places, Slots, Emptied;
    forall p: nat | p < i && !env.Disabled(p) ensures UsedBy(pl, p) {
      var k := WhoCovers(sch, pl, p);
    }
  }

  /** Last pass for slot `j`: the first processor that is free and may switch tasks. */
  method PlaceRest(env: Env, topTcb: array<Option<Task>>, sch: array<Option<Task>>, j: nat,
                   ghost ts: seq<Task>, ghost orig: seq<set<nat>>, ghost pl: map<nat, nat>)
                       returns (ghost pl': map<nat, nat>)
    requires Arrays(env, topTcb, sch) && Accepted(env, ts, orig) && Placing(ts, orig, topTcb[..], sch[..], pl)
    requires j < |ts| && j !in pl && Loose(env, ts[j])
    modifies topTcb, sch
    ensures Placing(ts, orig, topTcb[..], sch[..], pl') && LeastFree(env, pl, pl', j)
  {
    ghost var top, was := topTcb[..], sch[..];
    assert topTcb[j] == top[j] == Some(ts[j]);
    ghost var p := RestSlot(env, ts, orig, top, was, pl, j);
    var i := FindEnabled(env, sch, p);
    PlaceOne(ts, orig, top, was, pl, j, i);
    LeastFreeIs(env, ts, orig, top, was, pl, j, i);
    Put(topTcb, sch, j, i);
    pl' := pl[j := i];
  }

  lemma AcceptedFit(env: Env, ts: seq<Task>, orig: seq<set<nat>>)
    requires Accepted(env, ts, orig)
    ensures |ts| <= |env.ctx| && |orig| == |ts| && forall j :: 0 <= j < |ts| ==> ts[j] < |env.attr|
  {
  }

  lemma SlotAt(ts: seq<Task>, orig: seq<set<nat>>, top: seq<Option<Task>>, sch: seq<Option<Task>>, pl: map<nat, nat>,
               j: nat)
    requires Placing(ts, orig, top, sch, pl) && j < |top|
    ensures top[j] == if j < |ts| && j !in pl then Some(ts[j]) else None
  {
  }

  /** "assign TA_ASSPRC attribute task". */
  method AssignPinned(env: Env, topTcb: array<Option<Task>>, sch: array<Option<Task>>,
                      ghost ts: seq<Task>, ghost orig: seq<set<nat>>) returns (ghost pl: map<nat, nat>)
    requires Arrays(env, topTcb, sch) && Accepted(env, ts, orig) && Placing(ts, orig, topTcb[..], sch[..], map[])
    modifies topTcb, sch
    ensures Placing(ts, orig, topTcb[..], sch[..], pl)
    ensures UnpinnedLeft(env, ts, pl) && FirstPass(env, ts, pl)
  {
    hide Placing, Accepted, Pinned;
    AcceptedFit(env, ts, orig);
    pl := map[];
    var j := 0;
    if 0 < |env.ctx| {
      SlotAt(ts, orig, topTcb[..], sch[..], pl, 0);
    }
    while j < |env.ctx| && topTcb[j] != None
      invariant 0 <= j <= |ts|
      invariant j < |env.ctx| ==> topTcb[j] == if j < |ts| then Some(ts[j]) else None
      invariant Placing(ts, orig, topTcb[..], sch[..], pl)
      invariant forall k :: k in pl ==> k < j
      invariant forall k :: 0 <= k < j ==> (k in pl <==> Pinned(env, ts[k]))
    {
      var t := topTcb[j].value;
      PinnedIs(env, t);
      if env.attr[t].specified && env.attr[t].assprc != AllCores(env) {
        pl := PlacePinned(env, topTcb, sch, j, ts, orig, pl);
      }
      j := j + 1;
      if j < |env.ctx| {
        SlotAt(ts, orig, topTcb[..], sch[..], pl, j);
      }
    }
  }

  /** Only tasks bound to a processor have been placed. */
  ghost predicate FirstPass(env: Env, ts: seq<Task>, pl: map<nat, nat>) {
    forall k :: k in pl ==> k < |ts| && ts[k] < |env.attr| && Pinned(env, ts[k])
  }

  lemma PinnedIs(env: Env, t: Task)
    requires t < |env.attr|
    ensures Pinned(env, t) <==> env.attr[t].specified && env.attr[t].assprc != AllCores(env)
  {
  }

  /** The value ALL_CORE_BIT. */
  function AllCores(env: Env): (s: set<nat>)
    ensures s == Upto(env.Procs()) && |s| == env.Procs()
  {
    Upto(|env.ctx|)
  }

  /** Second pass for slot `j`: the processor that is running its task already, if free. */
  method PlaceRunning(env: Env, topTcb: array<Option<Task>>, sch: array<Option<Task>>, j: nat, ghost ts: seq<Task>,
                      ghost orig: seq<set<nat>>, ghost was: seq<Option<Task>>, ghost pl0: map<nat, nat>,
                      ghost pl: map<nat, nat>) returns (ghost pl': map<nat, nat>)
    requires Arrays(env, topTcb, sch) && Accepted(env, ts, orig) && Placing(ts, orig, topTcb[..], sch[..], pl)
    requires SecondPass(env, ts, was, sch[..], pl0, pl, j)
    requires j < topTcb.Length
    modifies topTcb, sch
    ensures Placing(ts, orig, topTcb[..], sch[..], pl') && SecondPass(env, ts, was, sch[..], pl0, pl', j + 1)
  {
    hide Accepted, Placing, SecondPass, Loose, Pinned, OneStays;
    SlotAt(ts, orig, topTcb[..], sch[..], pl, j);
    if topTcb[j] == None {
      PassedOne(env, ts, was, sch[..], pl0, pl, j);
      return pl;
    }
    LeftAt(env, ts, was, sch[..], pl0, pl, j);
    ghost var top, sch0 := topTcb[..], sch[..];
    var i := FindRunning(env, sch, topTcb[j]);
    pl' := pl;
    if i < |env.ctx| {
      RunningSlot(env, ts, orig, top, sch0, pl, j, i);
      Put(topTcb, sch, j, i);
      pl' := pl[j := i];
    } else {
      NotFoundIsNotHeld(env, ts, orig, top, sch0, pl, j);
    }
    OneStaysIs(env, ts, sch0, sch[..], pl, pl', j, i);
    PassOneMore(env, ts, orig, was, sch0, sch[..], pl0, pl, pl', j);
  }

  lemma OneStaysIs(env: Env, ts: seq<Task>, was: seq<Option<Task>>, sch: seq<Option<Task>>,
                   pl: map<nat, nat>, pl': map<nat, nat>, j: nat, i: nat)
    requires |env.ctx| == |was| && j < |ts| && j !in pl && i <= |was|
    requires i < |was| ==>
               was[i] == None && env.ctx[i] == Some(ts[j]) && pl' == pl[j := i] && sch == was[i := Some(ts[j])]
    requires i == |was| ==>
               pl' == pl && sch == was && forall k :: 0 <= k < i ==> !(was[k] == None && env.ctx[k] == Some(ts[j]))
    ensures OneStays(env, ts, was, sch, pl, pl', j) && (j in pl' <==> i < |was|)
  {
  }

  /** "assign schedule task same as ctxtsk": a task stays where it is running, if no other is
      bound to that processor. */
  method AssignRunning(env: Env, topTcb: array<Option<Task>>, sch: array<Option<Task>>,
                       ghost ts: seq<Task>, ghost orig: seq<set<nat>>, ghost pl0: map<nat, nat>)
                           returns (ghost pl: map<nat, nat>)
    requires Arrays(env, topTcb, sch) && Accepted(env, ts, orig) && Placing(ts, orig, topTcb[..], sch[..], pl0)
    requires UnpinnedLeft(env, ts, pl0)
    modifies topTcb, sch
    ensures Placing(ts, orig, topTcb[..], sch[..], pl)
    ensures LooseLeft(env, ts, pl, |env.ctx|) && StayedAll(env, ts, old(sch[..]), pl0, pl)
  {
    hide Placing, Accepted, SecondPass, LooseLeft, StayedAll;
    ghost var was := sch[..];
    AcceptedFit(env, ts, orig);
    pl := pl0;
    var j := 0;
    NoneStayedYet(env, ts, was, pl);
    while j < |env.ctx|
      invariant 0 <= j <= |env.ctx|
      invariant Placing(ts, orig, topTcb[..], sch[..], pl) && SecondPass(env, ts, was, sch[..], pl0, pl, j)
    {
      pl := PlaceRunning(env, topTcb, sch, j, ts, orig, was, pl0, pl);
      j := j + 1;
    }
    AllStay(env, ts, was, sch[..], pl0, pl, j);
  }

  /** Every task that was running on a free processor has stayed, and the first pass stands. */
  ghost predicate StayedAll(env: Env, ts: seq<Task>, was: seq<Option<Task>>, pl0: map<nat, nat>, pl: map<nat, nat>) {
    && (forall k :: k in pl0 ==> k in pl && pl[k] == pl0[k])
    && (forall k: nat, i: nat :: RunsFree(env, ts, was, k, i) && k !in pl0 ==> k in pl && pl[k] == i)
    && OnlyRunning(env, ts, pl0, pl)
  }

  /** Whoever was placed since the first pass was placed where it is running. */
  ghost predicate OnlyRunning(env: Env, ts: seq<Task>, pl0: map<nat, nat>, pl: map<nat, nat>) {
    forall k :: k in pl && k !in pl0 ==> k < |ts| && pl[k] < |env.ctx| && env.ctx[pl[k]] == Some(ts[k])
  }

  /** What holds in the second pass before slot `n`. */
  ghost predicate SecondPass(env: Env, ts: seq<Task>, was: seq<Option<Task>>, sch: seq<Option<Task>>,
                             pl0: map<nat, nat>,
                             pl: map<nat, nat>, n: int) {
    && UnpinnedLeft(env, ts, pl) && LooseLeft(env, ts, pl, n) && Stay(env, ts, was, sch, pl0, pl, n)
    && (forall k :: k in pl0 ==> k in pl && pl[k] == pl0[k]) && OnlyRunning(env, ts, pl0, pl)
  }

  lemma NoneStayedYet(env: Env, ts: seq<Task>, sch: seq<Option<Task>>, pl: map<nat, nat>)
    requires |env.ctx| == |sch| == |env.dds| && UnpinnedLeft(env, ts, pl)
    ensures SecondPass(env, ts, sch, sch, pl, pl, 0)
  {
  }

  lemma PassOneMore(env: Env, ts: seq<Task>, orig: seq<set<nat>>, was: seq<Option<Task>>, sch: seq<Option<Task>>,
                    sch': seq<Option<Task>>, pl0: map<nat, nat>, pl: map<nat, nat>, pl': map<nat, nat>, j: nat)
    requires Accepted(env, ts, orig) && SecondPass(env, ts, was, sch, pl0, pl, j) && j !in pl
    requires OneStays(env, ts, sch, sch', pl, pl', j) && (j !in pl' ==> ts[j] < |env.attr| && Loose(env, ts[j]))
    ensures SecondPass(env, ts, was, sch', pl0, pl', j + 1)
  {
    StayOneMore(env, ts, orig, was, sch, sch', pl0, pl, pl', j);
    hide Stay, Accepted;
    LeftOneMore(env, ts, pl, pl', j);
  }

  lemma PassedOne(env: Env, ts: seq<Task>, was: seq<Option<Task>>, sch: seq<Option<Task>>,
                  pl0: map<nat, nat>, pl: map<nat, nat>, j: nat)
    requires SecondPass(env, ts, was, sch, pl0, pl, j) && (j in pl || j >= |ts|)
    ensures SecondPass(env, ts, was, sch, pl0, pl, j + 1)
  {
    hide Loose, Pinned;
    StayPassed(env, ts, was, sch, pl0, pl, j);
  }

  lemma AllStay(env: Env, ts: seq<Task>, was: seq<Option<Task>>, sch: seq<Option<Task>>, pl0: map<nat, nat>,
                pl: map<nat, nat>, n: int)
    requires SecondPass(env, ts, was, sch, pl0, pl, n) && |ts| <= n
    ensures StayedAll(env, ts, was, pl0, pl) && LooseLeft(env, ts, pl, n)
  {
  }

  lemma LeftAt(env: Env, ts: seq<Task>, was: seq<Option<Task>>, sch: seq<Option<Task>>, pl0: map<nat, nat>,
               pl: map<nat, nat>, j: nat)
    requires SecondPass(env, ts, was, sch, pl0, pl, j) && j < |ts| && j !in pl
    ensures ts[j] < |env.attr| && !Pinned(env, ts[j])
  {
  }

  lemma LeftOneMore(env: Env, ts: seq<Task>, pl: map<nat, nat>, pl': map<nat, nat>, j: nat)
    requires UnpinnedLeft(env, ts, pl) && LooseLeft(env, ts, pl, j) && forall k :: k in pl ==> k in pl'
    requires j < |ts| && j !in pl' ==> ts[j] < |env.attr| && Loose(env, ts[j])
    ensures UnpinnedLeft(env, ts, pl') && LooseLeft(env, ts, pl', j + 1)
  {
    hide Loose, Pinned;
  }

  /** "assign rest". */
  method AssignRest(env: Env, topTcb: array<Option<Task>>, sch: array<Option<Task>>,
                    ghost ts: seq<Task>, ghost orig: seq<set<nat>>, ghost pl0: map<nat, nat>)
                        returns (ghost pl: map<nat, nat>)
    requires Arrays(env, topTcb, sch) && Accepted(env, ts, orig) && Placing(ts, orig, topTcb[..], sch[..], pl0)
    requires LooseLeft(env, ts, pl0, |env.ctx|)
    modifies topTcb, sch
    ensures Placing(ts, orig, topTcb[..], sch[..], pl) && LastPass(env, ts, pl0, pl, |env.ctx|)
    ensures forall k :: 0 <= k < |ts| ==> k in pl
  {
    hide Loose, Placing, Accepted, LastPass, LeastFree;
    AcceptedFit(env, ts, orig);
    pl := pl0;
    var j := 0;
    NobodyRested(env, ts, pl);
    while j < |env.ctx|
      invariant 0 <= j <= |env.ctx|
      invariant Placing(ts, orig, topTcb[..], sch[..], pl) && LastPass(env, ts, pl0, pl, j)
    {
      SlotAt(ts, orig, topTcb[..], sch[..], pl, j);
      ghost var pl1 := pl;
      if topTcb[j] != None {
        LooseAt(env, ts, pl0, pl, j);
        pl := PlaceRest(env, topTcb, sch, j, ts, orig, pl);
      }
      LastOneMore(env, ts, pl0, pl1, pl, j);
      j := j + 1;
    }
    LastMeans(env, ts, pl0, pl, j);
  }

  /** What holds in the last pass before slot `n`: each slot that had no processor gets the least
      enabled one that is not used by those that had one or come before it. */
  ghost predicate LastPass(env: Env, ts: seq<Task>, pl0: map<nat, nat>, pl: map<nat, nat>, n: int) {
    && |env.dds| == |env.ctx| && LooseLeft(env, ts, pl0, |env.ctx|)
    && (forall k :: k in pl0 ==> k in pl && pl[k] == pl0[k])
    && (forall k :: k in pl ==> k in pl0 || k < n)
    && (forall k :: 0 <= k < n && k < |ts| ==> k in pl)
    && forall j: nat, p: nat :: j in pl && j !in pl0 && p < pl[j] && p < |env.dds| && !env.Disabled(p) ==>
         UsedBefore(pl0, pl, p, j)
  }

  ghost predicate UsedBefore(pl0: map<nat, nat>, pl: map<nat, nat>, p: nat, j: nat) {
    exists k :: k in pl && pl[k] == p && (k in pl0 || k < j)
  }

  lemma NobodyRested(env: Env, ts: seq<Task>, pl: map<nat, nat>)
    requires LooseLeft(env, ts, pl, |env.ctx|)
    ensures LastPass(env, ts, pl, pl, 0)
  {
  }

  lemma LooseAt(env: Env, ts: seq<Task>, pl0: map<nat, nat>, pl: map<nat, nat>, j: nat)
    requires LastPass(env, ts, pl0, pl, j) && j < |env.ctx| && j < |ts| && j !in pl
    ensures ts[j] < |env.attr| && Loose(env, ts[j])
  {
    hide Loose;
  }

  lemma LastOneMore(env: Env, ts: seq<Task>, pl0: map<nat, nat>, pl: map<nat, nat>, pl': map<nat, nat>, j: nat)
    requires LastPass(env, ts, pl0, pl, j)
    requires if j < |ts| && j !in pl then LeastFree(env, pl, pl', j) else pl' == pl
    ensures LastPass(env, ts, pl0, pl', j + 1)
  {
    hide LooseLeft;
    forall i: nat, p: nat | i in pl' && i !in pl0 && p < pl'[i] && p < |env.dds| && !env.Disabled(p)
      ensures UsedBefore(pl0, pl', p, i)
    {
      if i in pl {
        assert UsedBefore(pl0, pl, p, i);
        var k :| k in pl && pl[k] == p && (k in pl0 || k < i);
        assert k in pl' && pl'[k] == p;
      } else {
        assert UsedBy(pl, p);
        var k :| k in pl && pl[k] == p;
        assert k in pl' && pl'[k] == p;
      }
    }
  }

  lemma LastMeans(env: Env, ts: seq<Task>, pl0: map<nat, nat>, pl: map<nat, nat>, n: int)
    requires LastPass(env, ts, pl0, pl, n) && |ts| <= n
    ensures forall k :: 0 <= k < |ts| ==> k in pl
  {
  }

  /* ---- What this means for the schedule. ---- */

  /** The task may not use all processors. */
  ghost predicate Bound(env: Env, t: Task) {
    t < |env.attr| && env.attr[t].assprc != Upto(env.Procs())
  }

  /** A scheduled task that is running and may use all processors stays where it is, unless a
      scheduled task may use no other processor than that. */
  ghost predicate StaysPut(env: Env, sch: seq<Option<Task>>) {
    forall i :: 0 <= i < |sch| && i < |env.ctx| && env.ctx[i].Some? && env.ctx[i] in sch
                && !Bound(env, env.ctx[i].value) && !ClaimedBy(env, sch, i) ==>
      sch[i] == env.ctx[i]
  }

  /** A scheduled task may only use processor `i`. */
  ghost predicate ClaimedBy(env: Env, sch: seq<Option<Task>>, i: nat) {
    exists p :: 0 <= p < |sch| && sch[p].Some? && Bound(env, sch[p].value) && env.attr[sch[p].value].assprc == {i}
  }

  /** `a` stands before `b`. */
  ghost predicate Precedes(order: seq<Task>, a: Task, b: Task) {
    exists i, k :: 0 <= i < k < |order| && order[i] == a && order[k] == b
  }

  /** The tasks that neither are bound nor stay get the enabled processors that are over, from
      the first on, in their order. */
  ghost predicate LowestFirst(env: Env, order: seq<Task>, sch: seq<Option<Task>>) {
    && |env.dds| == |env.ctx| == |sch|
    && forall i, p :: 0 <= p < i < |sch| && sch[i].Some? && !Bound(env, sch[i].value) && sch[i] != env.ctx[i]
                      && !env.Disabled(p) ==>
         && sch[p].Some?
         && (Bound(env, sch[p].value) || sch[p] == env.ctx[p] || Precedes(order, sch[p].value, sch[i].value))
  }

  /** Where the passes have put the tasks. */
  ghost predicate ThreePasses(env: Env, ts: seq<Task>, orig: seq<set<nat>>, top: seq<Option<Task>>,
                              was: seq<Option<Task>>,
                              pl1: map<nat, nat>, pl2: map<nat, nat>, pl: map<nat, nat>, sch: seq<Option<Task>>) {
    && Accepted(env, ts, orig) && |was| == |sch| == |env.ctx|
    && Placing(ts, orig, top, was, pl1) && FirstPass(env, ts, pl1)
    && StayedAll(env, ts, was, pl1, pl2) && LastPass(env, ts, pl2, pl, |env.ctx|) && Runs(ts, orig, sch, pl)
  }

  lemma PinnedIsBound(env: Env, t: Task)
    requires env.Good() && t < |env.attr|
    ensures Pinned(env, t) <==> Bound(env, t)
  {
  }

  lemma SlotOf(ts: seq<Task>, orig: seq<set<nat>>, sch: seq<Option<Task>>, pl: map<nat, nat>, t: Task) returns (k: nat)
    requires Runs(ts, orig, sch, pl) && Some(t) in sch
    ensures k < |ts| && ts[k] == t && k in pl && pl[k] < |sch| && sch[pl[k]] == Some(t)
  {
    var p :| 0 <= p < |sch| && sch[p] == Some(t);
    k := WhoCovers(sch, pl, p);
  }

  /** After the first pass processor `i` is free, unless a task is bound to it. */
  lemma FreeUnlessClaimed(env: Env, ts: seq<Task>, orig: seq<set<nat>>, top: seq<Option<Task>>, was: seq<Option<Task>>,
                          pl1: map<nat, nat>, pl2: map<nat, nat>, pl: map<nat, nat>, sch: seq<Option<Task>>, i: nat)
    requires ThreePasses(env, ts, orig, top, was, pl1, pl2, pl, sch) && i < |sch| && !ClaimedBy(env, sch, i)
    ensures was[i] == None
  {
    hide StayedAll, LastPass, HallOn, Emptied;
    if was[i].Some? {
      var k := WhoCovers(was, pl1, i);
      BoundClaims(env, ts, orig, top, was, pl1, pl, sch, k);
    }
  }

  lemma BoundClaims(env: Env, ts: seq<Task>, orig: seq<set<nat>>, top: seq<Option<Task>>, was: seq<Option<Task>>,
                    pl1: map<nat, nat>, pl: map<nat, nat>, sch: seq<Option<Task>>, k: nat)
    requires Accepted(env, ts, orig) && Placing(ts, orig, top, was, pl1) && FirstPass(env, ts, pl1)
    requires Runs(ts, orig, sch, pl) && k in pl1
    ensures ClaimedBy(env, sch, pl1[k])
  {
    hide HallOn, Emptied;
    var p := PinnedMask(env, ts[k]);
    PinnedIsBound(env, ts[k]);
    assert sch[pl[k]] == Some(ts[k]);
  }

  lemma StayingPut(env: Env, ts: seq<Task>, orig: seq<set<nat>>, top: seq<Option<Task>>, was: seq<Option<Task>>,
                   pl1: map<nat, nat>, pl2: map<nat, nat>, pl: map<nat, nat>, sch: seq<Option<Task>>)
    requires ThreePasses(env, ts, orig, top, was, pl1, pl2, pl, sch)
    ensures StaysPut(env, sch)
  {
    hide Accepted, Placing, Bound, ClaimedBy, Pinned, Runs;
    forall i | 0 <= i < |sch| && env.ctx[i].Some? && env.ctx[i] in sch
               && !Bound(env, env.ctx[i].value) && !ClaimedBy(env, sch, i)
      ensures sch[i] == env.ctx[i]
    {
      FreeUnlessClaimed(env, ts, orig, top, was, pl1, pl2, pl, sch, i);
      var k := SlotOf(ts, orig, sch, pl, env.ctx[i].value);
      AcceptedFit(env, ts, orig);
      AcceptedGood(env, ts, orig);
      PinnedIsBound(env, ts[k]);
      assert RunsFree(env, ts, was, k, i);
    }
  }

  lemma AcceptedGood(env: Env, ts: seq<Task>, orig: seq<set<nat>>)
    requires Accepted(env, ts, orig)
    ensures env.Good()
  {
  }

  lemma FillingUp(env: Env, ts: seq<Task>, orig: seq<set<nat>>, top: seq<Option<Task>>, was: seq<Option<Task>>,
                  pl1: map<nat, nat>, pl2: map<nat, nat>, pl: map<nat, nat>, sch: seq<Option<Task>>)
    requires ThreePasses(env, ts, orig, top, was, pl1, pl2, pl, sch)
    ensures LowestFirst(env, ts, sch)
  {
    hide Accepted, Placing, Bound, Pinned, Runs, RunsFree;
    AcceptedFit(env, ts, orig);
    AcceptedGood(env, ts, orig);
    assert |env.dds| == |env.ctx|;
    forall i, p | 0 <= p < i < |sch| && sch[i].Some? && !Bound(env, sch[i].value) && sch[i] != env.ctx[i]
                  && !env.Disabled(p)
      ensures sch[p].Some?
      ensures Bound(env, sch[p].value) || sch[p] == env.ctx[p] || Precedes(ts, sch[p].value, sch[i].value)
    {
      var j := RunsAt(ts, orig, sch, pl, i);
      PinnedIsBound(env, ts[j]);
      assert UsedBefore(pl2, pl, p, j);
      var k :| k in pl && pl[k] == p && (k in pl2 || k < j);
      RunsHere(ts, orig, sch, pl, k);
      PinnedIsBound(env, ts[k]);
    }
  }

  lemma RunsAt(ts: seq<Task>, orig: seq<set<nat>>, sch: seq<Option<Task>>, pl: map<nat, nat>, i: nat) returns (j: nat)
    requires Runs(ts, orig, sch, pl) && i < |sch| && sch[i].Some?
    ensures j < |ts| && j in pl && pl[j] == i && sch[i] == Some(ts[j])
  {
    j := WhoCovers(sch, pl, i);
  }

  lemma RunsHere(ts: seq<Task>, orig: seq<set<nat>>, sch: seq<Option<Task>>, pl: map<nat, nat>, k: nat)
    requires Runs(ts, orig, sch, pl) && k in pl
    ensures k < |ts| && pl[k] < |sch| && sch[pl[k]] == Some(ts[k])
  {
  }

  /** The schedule runs exactly the tasks `ts`, each once, where its mask allows. */
  ghost predicate Runs(ts: seq<Task>, orig: seq<set<nat>>, sch: seq<Option<Task>>, pl: map<nat, nat>) {
    && |orig| == |ts| && Places(orig, Upto(|ts|), pl)
    && (forall i :: 0 <= i < |ts| ==> pl[i] < |sch| && sch[pl[i]] == Some(ts[i]))
    && Covered(sch, pl)
  }

  method SingleCoreAssign(tcb: array<Option<Task>>, topTcb: array<Option<Task>>, env: Env,
                          ghost ts: seq<Task>, ghost orig: seq<set<nat>>)
    requires Arrays(env, topTcb, tcb) && Accepted(env, ts, orig)
    requires forall j :: 0 <= j < topTcb.Length ==> topTcb[j] == if j < |ts| then Some(ts[j]) else None
    modifies tcb, topTcb
    ensures exists pl :: Runs(ts, orig, tcb[..], pl)
    ensures StaysPut(env, tcb[..]) && LowestFirst(env, ts, tcb[..])
  {
    hide Placing, Accepted, UnpinnedLeft, LooseLeft, Runs, FirstPass, StayedAll, LastPass, StaysPut, LowestFirst;
    var sch := new Option<Task>[|env.ctx|](_ => None);
    AcceptedFit(env, ts, orig);
    NothingPutYet(ts, orig, topTcb[..], sch[..]);
    ghost var pl1 := AssignPinned(env, topTcb, sch, ts, orig);
    ghost var top, was := topTcb[..], sch[..];
    ghost var pl2 := AssignRunning(env, topTcb, sch, ts, orig, pl1);
    ghost var pl := AssignRest(env, topTcb, sch, ts, orig, pl2);
    CopyOut(tcb, sch);
    EverybodyRuns(ts, orig, topTcb[..], sch[..], pl);
    StayingPut(env, ts, orig, top, was, pl1, pl2, pl, sch[..]);
    FillingUp(env, ts, orig, top, was, pl1, pl2, pl, sch[..]);
  }

  lemma NothingPutYet(ts: seq<Task>, orig: seq<set<nat>>, top: seq<Option<Task>>, sch: seq<Option<Task>>)
    requires |orig| == |ts| <= |top| == |sch| && forall p :: 0 <= p < |sch| ==> sch[p] == None
    requires forall j :: 0 <= j < |top| ==> top[j] == if j < |ts| then Some(ts[j]) else None
    ensures Placing(ts, orig, top, sch, map[])
  {
    var none: map<nat, nat> := map[];
    assert none.Values == {};
  }

  lemma EverybodyRuns(ts: seq<Task>, orig: seq<set<nat>>, top: seq<Option<Task>>, sch: seq<Option<Task>>,
                      pl: map<nat, nat>)
    requires Placing(ts, orig, top, sch, pl) && forall k :: 0 <= k < |ts| ==> k in pl
    ensures Runs(ts, orig, sch, pl)
  {
    assert pl.Keys == Upto(|ts|);
  }
}
