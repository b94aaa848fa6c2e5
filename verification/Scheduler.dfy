/** `ready_queue_top`: from the ready queue to the schedule of all processors. */
module Scheduler {
  import opened Tasks
  import opened Hall
  import opened Selection
  import opened History
  import opened Picking
  import opened Greedy
  import opened Affinity
  import opened ReadyOrder
  import opened ReadyQueues
  import opened MultiCore
  import opened SingleCore
  import opened Schedules

  lemma MaskInRange(env: Env, t: Task)
    requires env.Good() && t < |env.attr|
    ensures env.Mask(t) <= Upto(env.Procs())
  {
  }

  /** The complement of the dispatch-disabled processors (`dds_mask`). */
  method EnabledMask(env: Env) returns (mask: set<nat>)
    requires |env.dds| == |env.ctx|
    ensures mask == env.Enabled()
  {
    mask := {};
    var j := 0;
    while j < |env.ctx|
      invariant 0 <= j <= |env.ctx|
      invariant forall i :: i in mask <==> 0 <= i < j && !env.Disabled(i)
    {
      if !env.Disabled(j) {
        mask := mask + {j};
      }
      j := j + 1;
    }
  }

  /** The mask of one candidate: the processor it may not leave, or its own mask without the
      processors that must not switch tasks. */
  method TaskBit(env: Env, t: Task, enabled: set<nat>) returns (bit: set<nat>)
    requires env.Good() && t < |env.attr| && enabled == env.Enabled()
    ensures bit == env.Mask(t)
  {
    var i := 0;
    while i < |env.ctx|
      invariant 0 <= i <= |env.ctx|
      invariant forall k :: 0 <= k < i ==> !env.HeldAt(t, k)
    {
      if env.ctx[i] == Some(t) && env.Disabled(i) {
        HeldMask(env, t, i);
        return {i};
      }
      i := i + 1;
    }
    bit := if env.attr[t].specified then env.attr[t].assprc else AllCores(env);
    bit := bit * enabled;
  }

  ghost function Sum(cnt: seq<int>, bit: set<nat>): (r: seq<int>)
    ensures |r| == |cnt|
    ensures forall k :: 0 <= k < |cnt| ==> r[k] == if k in bit then cnt[k] + 1 else cnt[k]
  {
    seq(|cnt|, k requires 0 <= k < |cnt| => if k in bit then cnt[k] + 1 else cnt[k])
  }

  method SumBits(cnt: array<int>, bit: set<nat>)
    modifies cnt
    ensures cnt[..] == Sum(old(cnt[..]), bit)
  {
    var k := 0;
    while k < cnt.Length
      invariant 0 <= k <= cnt.Length
      invariant cnt[..k] == Sum(old(cnt[..]), bit)[..k]
      invariant cnt[k..] == old(cnt[..])[k..]
    {
      if k in bit {
        cnt[k] := cnt[k] + 1;
      }
      k := k + 1;
    }
  }

  /** From slot `j` on, `top` shows the ready order from place `x` on. */
  ghost predicate Window(order: seq<Task>, top: seq<Option<Task>>, j: nat, x: nat) {
    forall k :: j <= k < |top| ==> top[k] == At(order, x + (k - j))
  }

  /** Drop candidate `j`: the later candidates move up, the last slot takes the next task of
      the ready queue. */
  method NextCandidate(rq: ReadyQueue, top: array<Option<Task>>, j: nat, ghost x: nat)
    requires rq.Sound() && j < top.Length && Window(rq.Order(), top[..], j, x)
    requires rq.top != top && rq.bitmap as object != top as object
    modifies top
    ensures Window(rq.Order(), top[..], j, x + 1)
    ensures forall k :: 0 <= k < j ==> top[k] == old(top[k])
  {
    hide Queued, Linked, Mapped, Flatten, Base;
    ghost var order := rq.Order();
    assert forall k :: j <= k < top.Length ==> top[k] == top[..][k];
    ShiftDown(top, j);
    var last := top[top.Length - 1];
    assert last == At(order, x + (top.Length - 1 - j));
    if last != None {
      ghost var i := LinkInOrder(rq.tskque, rq.priority, rq.next, x + (top.Length - 1 - j));
      top[top.Length - 1] := rq.GetNextTcb(last.value, i);
    }
    assert forall k :: j <= k < top.Length ==> top[k] == At(order, x + 1 + (k - j));
  }

  /** May this candidate join the accepted tasks with masks `cm`?  Nobody without a processor
      may, anybody who can run everywhere may, the others are checked against the table. */
  method CheckCandidate(hist: array<Entry>, histNum: nat, bit: set<nat>, all: set<nat>, record: bool,
                        ghost cm: seq<set<nat>>) returns (ok: bool, newNum: nat)
    requires HallOn(cm, Upto(|cm|)) && |cm| < |all| && record == (|cm| + 1 < |all|)
    requires hist.Length >= Pow2(|all| - 1)
    requires histNum <= hist.Length && hist[..histNum] == HistOf(cm, all)
    modifies hist
    ensures ok <==> HallOn(cm + [bit], Upto(|cm| + 1))
    ensures newNum <= hist.Length
    ensures !ok ==> hist[..newNum] == HistOf(cm, all)
    ensures ok && record ==> hist[..newNum] == HistOf(cm + [bit], all)
  {
    hide HallOn, HistOf, Passes;
    newNum := histNum;
    if bit == {} {
      EmptyNewcomerDoesNotFit(cm);
      return false, histNum;
    }
    HistOfExtended(cm, bit, all);
    if bit == all {
      WideNewcomerFits(cm, all);
      return true, histNum;
    }
    CheckIsHall(cm, all, bit);
    if record {
      RoomInTable(cm, all, |all|);
    }
    ok, newNum := CheckAndRecord(hist, histNum, bit, record, HistOf(cm, all));
  }

  lemma HistOfExtended(cm: seq<set<nat>>, bit: set<nat>, all: set<nat>)
    ensures HistOf(cm + [bit], all) == if bit == all then HistOf(cm, all) else Recorded(HistOf(cm, all), bit)
  {
    assert (cm + [bit])[..|cm|] == cm;
  }

  /** The arrays of the selection loop after the first `x` tasks of the ready order: the
      accepted ones with their masks in front, the rest of the order behind them. */
  ghost predicate Selecting(order: seq<Task>, ms: seq<set<nat>>, n: nat, x: nat, pos: seq<nat>,
                            top: seq<Option<Task>>, bits: seq<set<nat>>, cnt: seq<int>) {
    && |ms| == |order| && |top| == |bits| == |cnt| == n && |pos| <= n
    && Picked(ms, x, pos) && Window(order, top, |pos|, x)
    && (forall k :: 0 <= k < |pos| ==> pos[k] < |order| && top[k] == Some(order[pos[k]]) && bits[k] == ms[pos[k]])
    && (forall k :: |pos| <= k < n ==> bits[k] == {})
    && (forall p :: 0 <= p < n ==> cnt[p] == |Users(bits, p)|)
  }

  lemma UsersSum(bits: seq<set<nat>>, cnt: seq<int>, j: nat, bit: set<nat>, p: nat)
    requires j < |bits| && bits[j] == {} && p < |cnt| && cnt[p] == |Users(bits, p)|
    ensures Sum(cnt, bit)[p] == |Users(bits[j := bit], p)|
  {
    assert Users(bits[j := bit], p) == if p in bit then Users(bits, p) + {j} else Users(bits, p);
  }

  lemma Accept(order: seq<Task>, ms: seq<set<nat>>, n: nat, x: nat, pos: seq<nat>,
               top: seq<Option<Task>>, bits: seq<set<nat>>, cnt: seq<int>)
    requires Selecting(order, ms, n, x, pos, top, bits, cnt) && |pos| < n && x < |order|
    requires HallOn(Compact(ms, pos) + [ms[x]], Upto(|pos| + 1))
    ensures Selecting(order, ms, n, x + 1, pos + [x], top, bits[|pos| := ms[x]], Sum(cnt, ms[x]))
    ensures Compact(ms, pos + [x]) == Compact(ms, pos) + [ms[x]]
  {
    hide HallOn, Picked, Compact;
    Decide(ms, x, pos);
    forall p | 0 <= p < n ensures Sum(cnt, ms[x])[p] == |Users(bits[|pos| := ms[x]], p)| {
      UsersSum(bits, cnt, |pos|, ms[x], p);
    }
  }

  lemma Refuse(order: seq<Task>, ms: seq<set<nat>>, n: nat, x: nat, pos: seq<nat>,
               top: seq<Option<Task>>, top': seq<Option<Task>>, bits: seq<set<nat>>, cnt: seq<int>)
    requires Selecting(order, ms, n, x, pos, top, bits, cnt) && |pos| < n && x < |order|
    requires !HallOn(Compact(ms, pos) + [ms[x]], Upto(|pos| + 1))
    requires |top'| == n && Window(order, top', |pos|, x + 1)
    requires forall k :: 0 <= k < |pos| ==> top'[k] == top[k]
    ensures Selecting(order, ms, n, x + 1, pos, top', bits, cnt)
  {
    hide HallOn, Picked, Compact;
    Decide(ms, x, pos);
  }

  /** The ready queue and the working arrays do not overlap. */
  ghost predicate Apart(rq: ReadyQueue, hist: array<Entry>, topTcb: array<Option<Task>>, topBit: array<set<nat>>,
                        bitCnt: array<int>) {
    var h, t, b, c := hist as object, topTcb as object, topBit as object, bitCnt as object;
    && rq.top != topTcb
    && h != t && h != b && h != c && t != b && t != c && b != c
    && h != rq.top as object && b != rq.top as object && c != rq.top as object
    && h != rq.bitmap as object && t != rq.bitmap as object && b != rq.bitmap as object && c != rq.bitmap as object
  }

  /** The table of groups for the tasks accepted so far, unless all processors have one. */
  ghost predicate Table(hist: array<Entry>, histNum: nat, cm: seq<set<nat>>, all: set<nat>)
    reads hist
  {
    |cm| < |all| ==> histNum <= hist.Length && hist[..histNum] == HistOf(cm, all)
  }

  /** Save and count the mask of the task accepted in slot `j`. */
  method AcceptSlot(topBit: array<set<nat>>, bitCnt: array<int>, j: nat, bit: set<nat>)
    requires j < topBit.Length && topBit as object != bitCnt as object
    modifies topBit, bitCnt
    ensures topBit[..] == old(topBit[..])[j := bit]
    ensures bitCnt[..] == Sum(old(bitCnt[..]), bit)
  {
    topBit[j] := bit;
    SumBits(bitCnt, bit);
  }

  /** The verdict on one candidate. */
  method Judge(env: Env, hist: array<Entry>, t: Task, enabled: set<nat>, all: set<nat>, last: bool, histNum: nat,
               ghost cm: seq<set<nat>>) returns (ok: bool, bit: set<nat>, newNum: nat)
    requires env.Good() && t < |env.attr| && enabled == env.Enabled()
    requires HallOn(cm, Upto(|cm|)) && |cm| < |all| && hist.Length >= Pow2(|all| - 1) && last == (|cm| + 1 == |all|)
    requires Table(hist, histNum, cm, all)
    modifies hist
    ensures bit == env.Mask(t) && (ok <==> HallOn(cm + [bit], Upto(|cm| + 1)))
    ensures Table(hist, newNum, if ok then cm + [bit] else cm, all)
  {
    hide HallOn, HistOf, Env.Mask;
    bit := TaskBit(env, t, enabled);
    ok, newNum := CheckCandidate(hist, histNum, bit, all, !last, cm);
  }

  /** Carry out the verdict in the arrays. */
  method Enact(rq: ReadyQueue, topTcb: array<Option<Task>>, topBit: array<set<nat>>, bitCnt: array<int>, j: nat,
               ok: bool, bit: set<nat>, ghost ms: seq<set<nat>>, ghost x: nat, ghost pos: seq<nat>)
    requires rq.Sound() && rq.top != topTcb && rq.bitmap as object != topTcb as object
    requires topBit as object != bitCnt as object
    requires topBit as object != topTcb as object && bitCnt as object != topTcb as object
    requires Selecting(rq.Order(), ms, topTcb.Length, x, pos, topTcb[..], topBit[..], bitCnt[..])
    requires j == |pos| < topTcb.Length && x < |ms| && bit == ms[x]
    requires ok <==> HallOn(Compact(ms, pos) + [bit], Upto(|pos| + 1))
    modifies topTcb, topBit, bitCnt
    ensures Selecting(old(rq.Order()), ms, topTcb.Length, x + 1, if ok then pos + [x] else pos,
                      topTcb[..], topBit[..], bitCnt[..])
    ensures ok ==> Compact(ms, pos + [x]) == Compact(ms, pos) + [bit]
  {
    hide HallOn, Picked, Flatten;
    ghost var order, n, top, bits, cnt := rq.Order(), topTcb.Length, topTcb[..], topBit[..], bitCnt[..];
    if ok {
      Accept(order, ms, n, x, pos, top, bits, cnt);
      AcceptSlot(topBit, bitCnt, j, bit);
    } else {
      NextCandidate(rq, topTcb, j, x);
      Refuse(order, ms, n, x, pos, top, topTcb[..], bits, cnt);
    }
  }

  /** The selection loop: walk the ready order, accept every task that still fits. */
  method Select(rq: ReadyQueue, env: Env, hist: array<Entry>, topTcb: array<Option<Task>>,
                topBit: array<set<nat>>, bitCnt: array<int>, ghost ms: seq<set<nat>>)
      returns (j: nat, ghost pos: seq<nat>)
    requires rq.Valid() && env.Good() && rq.top.Length == env.Procs()
    requires Apart(rq, hist, topTcb, topBit, bitCnt) && hist.Length >= Pow2(env.Procs() - 1)
    requires forall i :: 0 <= i < |rq.Order()| ==> rq.Order()[i] < |env.attr|
    requires ms == Masks(env, rq.Order())
    requires topTcb[..] == rq.top[..] && |topBit[..]| == |bitCnt[..]| == env.Procs()
    requires forall k :: 0 <= k < env.Procs() ==> topBit[k] == {} && bitCnt[k] == 0
    modifies hist, topTcb, topBit, bitCnt
    ensures j == |pos| && Picked(ms, |ms|, pos)
    ensures Selecting(rq.Order(), ms, env.Procs(), |ms|, pos, topTcb[..], topBit[..], bitCnt[..])
  {
    hide Picked, Selecting, HistOf, Queued, Linked, Mapped, Flatten, Compact, Env.Mask, HallOn, Pow2,
      Env.Enabled, Front, ReadyQueue.Sound, Upto;
    ghost var order, n := rq.Order(), env.Procs();
    assert topTcb.Length == n;
    var enabled := EnabledMask(env);
    var all := AllCores(env);
    var histNum: nat := 0;
    ghost var x := 0;
    j, pos := 0, [];
    StartSelecting(order, ms, n, topTcb[..], topBit[..], bitCnt[..]);
    while j < |env.ctx| && topTcb[j] != None
      invariant j == |pos| && x <= |order|
      invariant rq.Sound() && rq.Order() == order
      invariant Selecting(order, ms, n, x, pos, topTcb[..], topBit[..], bitCnt[..])
      invariant Table(hist, histNum, Compact(ms, pos), all)
      decreases |order| - x
    {
      Slot(order, ms, n, x, pos, topTcb[..], topBit[..], bitCnt[..]);
      PickedHall(ms, x, pos);
      var ok, bit;
      ok, bit, histNum := Judge(env, hist, topTcb[j].value, enabled, all, j == |env.ctx| - 1, histNum,
                                Compact(ms, pos));
      Enact(rq, topTcb, topBit, bitCnt, j, ok, bit, ms, x, pos);
      if ok {
        j, pos := j + 1, pos + [x];
      }
      x := x + 1;
    }
    FinishSelecting(env, order, ms, x, pos, topTcb[..], topBit[..], bitCnt[..]);
  }

  lemma Slot(order: seq<Task>, ms: seq<set<nat>>, n: nat, x: nat, pos: seq<nat>,
             top: seq<Option<Task>>, bits: seq<set<nat>>, cnt: seq<int>)
    requires Selecting(order, ms, n, x, pos, top, bits, cnt) && |pos| < n
    ensures top[|pos|] == At(order, x) && Picked(ms, x, pos) && |Compact(ms, pos)| == |pos|
  {
  }

  lemma StartSelecting(order: seq<Task>, ms: seq<set<nat>>, n: nat, top: seq<Option<Task>>, bits: seq<set<nat>>,
                       cnt: seq<int>)
    requires |ms| == |order| && |bits| == |cnt| == n && top == Front(order, n)
    requires forall k :: 0 <= k < n ==> bits[k] == {} && cnt[k] == 0
    ensures Selecting(order, ms, n, 0, [], top, bits, cnt)
    ensures forall all :: HistOf(Compact(ms, []), all) == []
  {
    assert ms[..0] == [];
    assert Places1([]) == {};
    forall p | 0 <= p < n ensures cnt[p] == |Users(bits, p)| {
      assert Users(bits, p) == {};
    }
  }

  lemma FinishSelecting(env: Env, order: seq<Task>, ms: seq<set<nat>>, x: nat, pos: seq<nat>,
                        top: seq<Option<Task>>, bits: seq<set<nat>>, cnt: seq<int>)
    requires env.Good() && (forall i :: 0 <= i < |order| ==> order[i] < |env.attr|) && ms == Masks(env, order)
    requires Selecting(order, ms, env.Procs(), x, pos, top, bits, cnt)
    requires |pos| < env.Procs() ==> top[|pos|] == None
    ensures Selecting(order, ms, env.Procs(), |ms|, pos, top, bits, cnt)
  {
    if |pos| == env.Procs() {
      forall i | 0 <= i < |ms| ensures ms[i] <= Upto(env.Procs()) {
        MaskInRange(env, order[i]);
      }
      FullIsFinal(ms, x, pos, Upto(env.Procs()));
    }
  }

  lemma OneMoreBit(bits: set<nat>, i: nat)
    ensures |bits * Upto(i + 1)| == |bits * Upto(i)| + if i in bits then 1 else 0
  {
    var a, b := bits * Upto(i), bits * Upto(i + 1);
    hide Upto;
    if i in bits {
      assert b == a + {i};
    } else {
      assert b == a;
    }
  }

  /** `cnt_bits2`: how many of the processors are in the mask. */
  method CountBits(env: Env, bits: set<nat>) returns (cnt: nat)
    requires bits <= Upto(env.Procs())
    ensures cnt == |bits|
  {
    cnt := 0;
    var i := 0;
    while i < |env.ctx|
      invariant 0 <= i <= |env.ctx| && cnt == |bits * Upto(i)|
    {
      OneMoreBit(bits, i);
      if i in bits {
        cnt := cnt + 1;
      }
      i := i + 1;
    }
    assert bits * Upto(i) == bits;
  }

  /** The accepted tasks, in ready order. */
  ghost function AcceptedTasks(order: seq<Task>, pos: seq<nat>): (ts: seq<Task>)
    requires forall j :: 0 <= j < |pos| ==> pos[j] < |order|
    ensures |ts| == |pos|
    ensures forall j :: 0 <= j < |pos| ==> ts[j] == order[pos[j]]
  {
    seq(|pos|, j requires 0 <= j < |pos| => order[pos[j]])
  }

  /** The schedule in terms of the slots of the accepted tasks. */
  ghost predicate SlotSchedule(order: seq<Task>, ms: seq<set<nat>>, pos: seq<nat>, sch: seq<Option<Task>>,
                               pl: map<nat, nat>) {
    && |ms| == |order| && Ascending(pos, |ms|)
    && (forall j :: j in pl ==> j < |pos| && pl[j] < |sch| && pl[j] in ms[pos[j]] && sch[pl[j]] == Some(order[pos[j]]))
    && (forall i, j :: i in pl && j in pl && i != j ==> pl[i] != pl[j])
    && Covered(sch, pl)
  }

  ghost function Index(pos: seq<nat>, k: nat): (j: nat)
    requires k in pos
    ensures j < |pos| && pos[j] == k
  {
    var j :| 0 <= j < |pos| && pos[j] == k;
    j
  }

  lemma IndexIsUnique(pos: seq<nat>, x: nat, j: nat)
    requires Ascending(pos, x) && j < |pos|
    ensures pos[j] in pos && Index(pos, pos[j]) == j
  {
  }

  /** `pl` says for places of the ready order what `pl0` says for slots. */
  ghost predicate Lifted(pos: seq<nat>, pl0: map<nat, nat>, pl: map<nat, nat>) {
    && (forall k :: k in pl ==> k in pos && Index(pos, k) in pl0 && pl[k] == pl0[Index(pos, k)])
    && (forall j :: j in pl0 && j < |pos| ==> pos[j] in pl)
  }

  lemma Lift(pos: seq<nat>, x: nat, pl0: map<nat, nat>) returns (pl: map<nat, nat>)
    requires Ascending(pos, x)
    ensures Lifted(pos, pl0, pl) && pl.Keys == Pick(pos, pl0.Keys)
  {
    forall j | 0 <= j < |pos| ensures Index(pos, pos[j]) == j {
      IndexIsUnique(pos, x, j);
    }
    hide Index;
    pl := map k | k in Pick(pos, pl0.Keys) :: pl0[Index(pos, k)];
  }

  lemma LiftedPlaces(order: seq<Task>, ms: seq<set<nat>>, pos: seq<nat>, sch: seq<Option<Task>>, pl0: map<nat, nat>,
                     pl: map<nat, nat>)
    requires SlotSchedule(order, ms, pos, sch, pl0) && Lifted(pos, pl0, pl)
    ensures Places(ms, pl.Keys, pl)
    ensures forall k :: k in pl ==> pl[k] < |sch| && sch[pl[k]] == Some(order[k])
  {
    hide Covered;
    forall i, k | i in pl && k in pl && i != k ensures pl[i] != pl[k] {
      assert pos[Index(pos, i)] != pos[Index(pos, k)];
    }
  }

  lemma LiftedCovers(order: seq<Task>, ms: seq<set<nat>>, pos: seq<nat>, sch: seq<Option<Task>>, pl0: map<nat, nat>,
                     pl: map<nat, nat>)
    requires SlotSchedule(order, ms, pos, sch, pl0) && Lifted(pos, pl0, pl)
    ensures Covered(sch, pl)
  {
    forall p | 0 <= p < |sch| && sch[p].Some? ensures p in pl.Values {
      var j := WhoCovers(sch, pl0, p);
      IndexIsUnique(pos, |ms|, j);
      assert pl[pos[j]] == p;
    }
  }

  /** From slots back to places of the ready order. */
  lemma SlotsToPlaces(order: seq<Task>, ms: seq<set<nat>>, pos: seq<nat>, sch: seq<Option<Task>>, pl0: map<nat, nat>)
      returns (pl: map<nat, nat>)
    requires SlotSchedule(order, ms, pos, sch, pl0)
    ensures ScheduleOf(order, ms, sch, Pick(pos, pl0.Keys), pl)
  {
    pl := Lift(pos, |ms|, pl0);
    hide Places, Covered, Lifted, Pick;
    LiftedPlaces(order, ms, pos, sch, pl0, pl);
    LiftedCovers(order, ms, pos, sch, pl0, pl);
  }

  lemma AllSlots(pos: seq<nat>, ms: seq<set<nat>>, keys: set<nat>)
    requires Picked(ms, |ms|, pos) && keys <= Upto(|pos|)
    ensures Pick(pos, keys) <= Chosen(ms)
    ensures keys == Upto(|pos|) ==> Pick(pos, keys) == Chosen(ms)
  {
    assert ms[..|ms|] == ms;
    assert Places1(pos) == Chosen(ms);
    hide Chosen;
    forall v ensures v in Pick(pos, Upto(|pos|)) <==> v in Places1(pos) {
      if v in pos {
        var j :| 0 <= j < |pos| && pos[j] == v;
        assert j in Upto(|pos|);
      }
    }
  }

  /** The single-mask path, slot by slot. */
  lemma FromRuns(order: seq<Task>, ms: seq<set<nat>>, pos: seq<nat>, sch: seq<Option<Task>>, pl: map<nat, nat>)
    requires |ms| == |order| && Ascending(pos, |ms|)
    requires Runs(AcceptedTasks(order, pos), Compact(ms, pos), sch, pl)
    ensures SlotSchedule(order, ms, pos, sch, pl) && pl.Keys == Upto(|pos|)
  {
    hide Covered, Places, Ascending;
    PosIn(pos, |ms|);
    var ts, cm := AcceptedTasks(order, pos), Compact(ms, pos);
    forall j | j in pl ensures j < |pos| && pl[j] < |sch| && pl[j] in ms[pos[j]] && sch[pl[j]] == Some(order[pos[j]]) {
      PlacedAt(cm, Upto(|ts|), pl, j);
    }
    forall i, j | i in pl && j in pl && i != j ensures pl[i] != pl[j] {
      PlacedApart(cm, Upto(|ts|), pl, i, j);
    }
    PlacedKeys(cm, Upto(|ts|), pl);
  }

  lemma PosIn(pos: seq<nat>, x: nat)
    requires Ascending(pos, x)
    ensures forall j :: 0 <= j < |pos| ==> pos[j] < x
  {
  }

  lemma PlacedKeys(ms: seq<set<nat>>, R: set<nat>, pl: map<nat, nat>)
    requires Places(ms, R, pl)
    ensures pl.Keys == R
  {
  }

  lemma PlacedAt(ms: seq<set<nat>>, R: set<nat>, pl: map<nat, nat>, j: nat)
    requires Places(ms, R, pl) && j in pl
    ensures j in R && j < |ms| && pl[j] in ms[j]
  {
  }

  lemma PlacedApart(ms: seq<set<nat>>, R: set<nat>, pl: map<nat, nat>, i: nat, j: nat)
    requires Places(ms, R, pl) && i in pl && j in pl && i != j
    ensures pl[i] != pl[j]
  {
  }

  /** The multi-mask path, slot by slot. */
  lemma FromAssignment(order: seq<Task>, ms: seq<set<nat>>, n: nat, pos: seq<nat>, top: seq<Option<Task>>,
                       bits: seq<set<nat>>, cnt: seq<int>, sch: seq<Option<Task>>, pl: map<nat, nat>)
    requires Selecting(order, ms, n, |ms|, pos, top, bits, cnt)
    requires Assignment(bits, top, |pos|, sch, pl)
    ensures SlotSchedule(order, ms, pos, sch, pl) && pl.Keys <= Upto(|pos|)
  {
    hide Window, Users, Chosen, Covered;
  }

  /** No accepted task is bound to several but not all processors. */
  ghost predicate Unsplit(env: Env, ts: seq<Task>)
    requires forall j :: 0 <= j < |ts| ==> ts[j] < |env.attr|
  {
    forall j :: 0 <= j < |ts| ==> !(1 < |env.attr[ts[j]].assprc| < env.Procs())
  }

  lemma SingleMasks(env: Env, order: seq<Task>, pos: seq<nat>)
    requires ReadyOrderOf(env, order) && Picked(Masks(env, order), |order|, pos) && |pos| <= env.Procs()
    requires Unsplit(env, AcceptedTasks(order, pos))
    ensures Accepted(env, AcceptedTasks(order, pos), Compact(Masks(env, order), pos))
  {
    var ts, ms := AcceptedTasks(order, pos), Masks(env, order);
    PickedHall(ms, |order|, pos);
    assert forall i, j :: 0 <= i < j < |pos| ==> pos[i] != pos[j];
    hide Picked, HallOn, Chosen;
    forall j | 0 <= j < |ts| && Pinned(env, ts[j]) ensures |env.attr[ts[j]].assprc| == 1 {
      var a := env.attr[ts[j]].assprc;
      SubsetSize(a, Upto(env.Procs()));
      var p :| p in a;
      SubsetSize({p}, a);
    }
  }

  lemma MultiMasks(env: Env, order: seq<Task>, pos: seq<nat>, top: seq<Option<Task>>, bits: seq<set<nat>>,
                   cnt: seq<int>)
    requires ReadyOrderOf(env, order)
    requires Selecting(order, Masks(env, order), env.Procs(), |order|, pos, top, bits, cnt)
    ensures Family(env.Procs(), |pos|, bits, top)
    ensures HallOn(bits, Upto(|pos|))
  {
    var ms := Masks(env, order);
    PickedHall(ms, |order|, pos);
    assert bits[..|pos|] == Compact(ms, pos);
    HallOfPrefix(bits, |pos|, Upto(|pos|));
    hide HallOn, Picked, Users, Window;
    forall i, p | 0 <= i < env.Procs() && p in bits[i] ensures p < env.Procs() {
      MaskInRange(env, order[pos[i]]);
    }
  }

  /** Is some accepted task bound to several but not all processors? */
  method AnySplit(env: Env, topTcb: array<Option<Task>>, assignNum: nat, ghost ts: seq<Task>) returns (split: bool)
    requires env.Good() && assignNum == |ts| <= topTcb.Length
    requires forall j :: 0 <= j < |ts| ==> ts[j] < |env.attr| && topTcb[j] == Some(ts[j])
    ensures split <==> !Unsplit(env, ts)
  {
    var j := 0;
    while j < assignNum
      invariant 0 <= j <= assignNum
      invariant forall i :: 0 <= i < j ==> !(1 < |env.attr[ts[i]].assprc| < env.Procs())
    {
      var k := CountBits(env, env.attr[topTcb[j].value].assprc);
      if k > 1 && k < |env.ctx| {
        return true;
      }
      j := j + 1;
    }
    return false;
  }

  /** The slots the paths start from. */
  lemma SlotsOf(env: Env, order: seq<Task>, pos: seq<nat>, top: seq<Option<Task>>, bits: seq<set<nat>>, cnt: seq<int>)
    requires ReadyOrderOf(env, order)
    requires Selecting(order, Masks(env, order), env.Procs(), |order|, pos, top, bits, cnt)
    ensures Ascending(pos, |order|) && Picked(Masks(env, order), |order|, pos)
    ensures |pos| <= env.Procs() == |top| == |bits| == |cnt|
    ensures forall j :: 0 <= j < |pos| ==> AcceptedTasks(order, pos)[j] < |env.attr|
    ensures forall j :: 0 <= j < |top| ==> top[j] == if j < |pos| then Some(AcceptedTasks(order, pos)[j]) else None
    ensures forall p :: 0 <= p < |cnt| ==> cnt[p] == |Users(bits, p)|
  {
    hide Users, Chosen, Masks;
  }

  /** A placement of the slots, complete when it must be. */
  ghost predicate Placed(order: seq<Task>, ms: seq<set<nat>>, pos: seq<nat>, sch: seq<Option<Task>>, complete: bool) {
    exists pl :: SlotSchedule(order, ms, pos, sch, pl) && pl.Keys <= Upto(|pos|)
        && (complete ==> pl.Keys == Upto(|pos|))
      && SlotsAlone(ms, pos, pl)
  }

  /** Every slot whose task alone has its processor is placed. */
  ghost predicate SlotsAlone(ms: seq<set<nat>>, pos: seq<nat>, pl: map<nat, nat>) {
    forall j, p: nat :: 0 <= j < |pos| && Alone(ms, pos[j], p) ==> j in pl
  }

  lemma AllAlone(ms: seq<set<nat>>, pos: seq<nat>, pl: map<nat, nat>)
    requires pl.Keys == Upto(|pos|)
    ensures SlotsAlone(ms, pos, pl)
  {
    assert forall j :: 0 <= j < |pos| ==> j in Upto(|pos|);
  }

  lemma StillAlone(order: seq<Task>, ms: seq<set<nat>>, n: nat, pos: seq<nat>, top: seq<Option<Task>>,
                   bits: seq<set<nat>>, cnt: seq<int>, pl: map<nat, nat>)
    requires Selecting(order, ms, n, |ms|, pos, top, bits, cnt) && AlonePlaced(bits, |pos|, pl)
    ensures SlotsAlone(ms, pos, pl)
  {
    hide Window, Users, Chosen;
    forall j, p: nat | 0 <= j < |pos| && Alone(ms, pos[j], p) ensures j in pl {
      assert bits[j] == {p};
      forall k | 0 <= k < |bits| && k != j ensures p !in bits[k] {
        if k < |pos| {
          assert pos[k] != pos[j];
        }
      }
      assert Alone(bits, j, p);
    }
  }

  /** The slots are those of the chosen places. */
  lemma PlacesAlone(order: seq<Task>, ms: seq<set<nat>>, pos: seq<nat>, sch: seq<Option<Task>>, pl: map<nat, nat>)
    requires Picked(ms, |ms|, pos) && SlotsAlone(ms, pos, pl)
    ensures IncludesAlone(ms, Pick(pos, pl.Keys))
  {
    hide Alone, Chosen;
    assert ms[..|ms|] == ms;
    forall k: nat, p: nat | Alone(ms, k, p) && k in Chosen(ms) ensures k in Pick(pos, pl.Keys) {
      assert k in Places1(pos);
      var j :| 0 <= j < |pos| && pos[j] == k;
    }
  }

  lemma StillPrecedes(order: seq<Task>, ms: seq<set<nat>>, pos: seq<nat>, a: Task, b: Task)
    requires Ascending(pos, |order|) && Precedes(AcceptedTasks(order, pos), a, b)
    ensures Precedes(order, a, b)
  {
    var ts := AcceptedTasks(order, pos);
    var i, k :| 0 <= i < k < |ts| && ts[i] == a && ts[k] == b;
    assert order[pos[i]] == a && order[pos[k]] == b && pos[i] < pos[k];
  }

  lemma LowestInOrder(env: Env, order: seq<Task>, ms: seq<set<nat>>, pos: seq<nat>, sch: seq<Option<Task>>)
    requires Ascending(pos, |order|) && LowestFirst(env, AcceptedTasks(order, pos), sch)
    ensures LowestFirst(env, order, sch)
  {
    hide Bound, Precedes, Ascending;
    assert forall j :: 0 <= j < |pos| ==> pos[j] < |order| by {
      PosIn(pos, |order|);
    }
    forall i, p | 0 <= p < i < |sch| && sch[i].Some? && !Bound(env, sch[i].value) && sch[i] != env.ctx[i]
                  && !env.Disabled(p)
      ensures sch[p].Some?
      ensures Bound(env, sch[p].value) || sch[p] == env.ctx[p] || Precedes(order, sch[p].value, sch[i].value)
    {
      if Precedes(AcceptedTasks(order, pos), sch[p].value, sch[i].value) {
        StillPrecedes(order, ms, pos, sch[p].value, sch[i].value);
      }
    }
  }

  /** The slot of a chosen place. */
  lemma SlotOfPlace(ms: seq<set<nat>>, pos: seq<nat>, k: nat) returns (j: nat)
    requires Picked(ms, |ms|, pos) && k in Chosen(ms)
    ensures j < |pos| && pos[j] == k
  {
    hide Chosen;
    assert ms[..|ms|] == ms;
    assert k in Places1(pos);
    j :| 0 <= j < |pos| && pos[j] == k;
  }

  lemma PlaceOfSlot(ms: seq<set<nat>>, pos: seq<nat>, j: nat)
    requires Picked(ms, |ms|, pos) && j < |pos|
    ensures pos[j] in Chosen(ms) && pos[j] < |ms|
  {
    hide Chosen;
    assert ms[..|ms|] == ms;
    assert pos[j] in Places1(pos);
  }

  /** Whoever is running has been placed there. */
  ghost predicate PlacedOwn(env: Env, order: seq<Task>, pos: seq<nat>, pl: map<nat, nat>) {
    forall j, p | 0 <= j < |pos| && pos[j] < |order| && 0 <= p < env.Procs() && j in pl ::
      env.ctx[p] == Some(order[pos[j]]) ==> pl[j] == p
  }

  /** Both paths place everybody where `pl` says; nobody moves if this is where he is running. */
  lemma OwnMeansNobodyMoves(env: Env, order: seq<Task>, pos: seq<nat>, sch: seq<Option<Task>>, pl: map<nat, nat>)
    requires ReadyOrderOf(env, order) && |sch| == env.Procs() && Picked(Masks(env, order), |order|, pos)
    requires SlotSchedule(order, Masks(env, order), pos, sch, pl) && pl.Keys == Upto(|pos|)
    requires PlacedOwn(env, order, pos, pl)
    ensures NobodyMoves(env, order, sch)
  {
    hide Picked, Chosen, SlotSchedule, PlacedOwn, Masks;
    var ms := Masks(env, order);
    forall k, p | 0 <= k < |order| && k in Chosen(ms) && 0 <= p < |sch| && env.ctx[p] == Some(order[k])
      ensures sch[p] == env.ctx[p]
    {
      var j := SlotOfPlace(ms, pos, k);
      OwnSlot(env, order, pos, sch, pl, j, p);
    }
  }

  lemma OwnSlot(env: Env, order: seq<Task>, pos: seq<nat>, sch: seq<Option<Task>>, pl: map<nat, nat>, j: nat, p: nat)
    requires ReadyOrderOf(env, order) && SlotSchedule(order, Masks(env, order), pos, sch, pl)
    requires PlacedOwn(env, order, pos, pl)
    requires pl.Keys == Upto(|pos|) && j < |pos| && pos[j] < |order| && p < |sch| == env.Procs()
    requires env.ctx[p] == Some(order[pos[j]])
    ensures sch[p] == env.ctx[p]
  {
    hide Masks, Ascending, Covered;
    assert j in pl;
  }

  /** The single-mask path. */
  lemma SettledSingle(env: Env, order: seq<Task>, pos: seq<nat>, sch: seq<Option<Task>>, pl: map<nat, nat>)
    requires ReadyOrderOf(env, order) && |sch| == env.Procs() && Picked(Masks(env, order), |order|, pos)
    requires SlotSchedule(order, Masks(env, order), pos, sch, pl) && pl.Keys == Upto(|pos|)
    requires Unsplit(env, AcceptedTasks(order, pos)) && StaysPut(env, sch) && Settled(env, order)
    ensures NobodyMoves(env, order, sch)
  {
    hide Chosen, Masks, Picked, NobodyMoves;
    var ms := Masks(env, order);
    forall j, p | 0 <= j < |pos| && pos[j] < |order| && 0 <= p < env.Procs() && j in pl
                  && env.ctx[p] == Some(order[pos[j]])
      ensures pl[j] == p
    {
      PlaceOfSlot(ms, pos, j);
      SettledSlot(env, order, pos, sch, pl, j, p);
    }
    OwnMeansNobodyMoves(env, order, pos, sch, pl);
  }

  lemma SettledSlot(env: Env, order: seq<Task>, pos: seq<nat>, sch: seq<Option<Task>>, pl: map<nat, nat>, j: nat,
                    p: nat)
    requires ReadyOrderOf(env, order) && |sch| == env.Procs() && Picked(Masks(env, order), |order|, pos)
    requires SlotSchedule(order, Masks(env, order), pos, sch, pl) && pl.Keys == Upto(|pos|)
    requires Unsplit(env, AcceptedTasks(order, pos)) && StaysPut(env, sch) && Settled(env, order)
    requires j < |pos| && pos[j] < |order| && p < env.Procs() && env.ctx[p] == Some(order[pos[j]]) && j in pl
    ensures pl[j] == p
  {
    hide Chosen, Picked, Settled, StaysPut;
    var ms, t := Masks(env, order), order[pos[j]];
    assert pl[j] in ms[pos[j]];
    DisabledInMask(env, t, pl[j]);
    if Bound(env, t) {
      assert AcceptedTasks(order, pos)[j] == t;
      BoundToOne(env, t, p, pl[j]);
    } else {
      if ClaimedBy(env, sch, p) {
        var u := Claimant(env, order, pos, sch, pl, p);
      }
      MustStay(env, sch, p, pl[j]);
      assert sch[pl[j]] == sch[p];
      var i := WhoCovers(sch, pl, p);
      assert order[pos[i]] == t;
    }
  }

  /** Whoever may only use `p` is running there. */
  lemma Claimant(env: Env, order: seq<Task>, pos: seq<nat>, sch: seq<Option<Task>>, pl: map<nat, nat>, p: nat)
      returns (u: Task)
    requires ReadyOrderOf(env, order) && |sch| == env.Procs() && Picked(Masks(env, order), |order|, pos)
    requires SlotSchedule(order, Masks(env, order), pos, sch, pl) && Settled(env, order) && ClaimedBy(env, sch, p)
    ensures p < env.Procs() && env.ctx[p] == Some(u) && Bound(env, u)
  {
    PosIn(pos, |order|);
    hide Chosen, Picked, Settled, Masks, Ascending;
    var q :| 0 <= q < |sch| && sch[q].Some? && Bound(env, sch[q].value) && env.attr[sch[q].value].assprc == {p};
    var i := WhoCovers(sch, pl, q);
    assert sch[q] == Some(order[pos[i]]);
    PlaceOfSlot(Masks(env, order), pos, i);
    ChosenIsRunning(env, order, pos[i], p);
    u := order[pos[i]];
  }

  lemma BoundToOne(env: Env, t: Task, p: nat, q: nat)
    requires env.Good() && t < |env.attr| && Bound(env, t) && !(1 < |env.attr[t].assprc| < env.Procs())
    requires p in env.attr[t].assprc && q in env.attr[t].assprc
    ensures p == q
  {
    var a := env.attr[t].assprc;
    if p != q {
      SubsetSize({p, q}, a);
      SubsetSize(a, Upto(env.Procs()));
      if |a| == env.Procs() {
        FullSubset(a, env.Procs());
      }
    }
  }

  lemma FullSubset(a: set<nat>, n: nat)
    requires a <= Upto(n) && |a| == n
    ensures a == Upto(n)
  {
    if x :| x in Upto(n) && x !in a {
      SubsetSize(a + {x}, Upto(n));
    }
  }

  lemma MustStay(env: Env, sch: seq<Option<Task>>, p: nat, q: nat)
    requires StaysPut(env, sch) && |sch| == |env.ctx| && p < |sch| && q < |sch| && env.ctx[p].Some?
    requires sch[q] == env.ctx[p]
    requires !Bound(env, env.ctx[p].value) && !ClaimedBy(env, sch, p)
    ensures sch[p] == env.ctx[p]
  {
    hide Bound, ClaimedBy;
  }

  /** A chosen task that may only use `p` is running there. */
  lemma ChosenIsRunning(env: Env, order: seq<Task>, k: nat, p: nat)
    requires ReadyOrderOf(env, order) && Settled(env, order) && k < |order| && k in Chosen(Masks(env, order))
    requires env.attr[order[k]].assprc == {p}
    ensures p < env.Procs() && env.ctx[p] == Some(order[k])
  {
    hide Chosen, Masks;
    assert Some(order[k]) in env.ctx;
    var i :| 0 <= i < |env.ctx| && env.ctx[i] == Some(order[k]);
  }

  /** The multi-mask path. */
  lemma SettledMulti(env: Env, order: seq<Task>, pos: seq<nat>, top: seq<Option<Task>>, bits: seq<set<nat>>,
                     cnt: seq<int>)
    requires ReadyOrderOf(env, order) && Settled(env, order)
    requires Selecting(order, Masks(env, order), env.Procs(), |order|, pos, top, bits, cnt)
    ensures SettledSlots(bits, top, env.ctx, |pos|)
  {
    hide Chosen, Users, Window, Env.Mask, Masks, Picked, Settled, SameTask;
    var ms := Masks(env, order);
    forall i | 0 <= i < |pos| ensures HasOwn(bits[i], top, env.ctx, i) {
      PlaceOfSlot(ms, pos, i);
      var p := ChosenRuns(env, order, pos[i]);
      SameIs(top, env.ctx, i, p);
    }
    forall i, p | 0 <= i < |pos| && p in bits[i] ensures exists u :: 0 <= u < |pos| && SameTask(top, env.ctx, u, p) {
      PlaceOfSlot(ms, pos, i);
      var k := OpenRuns(env, order, pos[i], p);
      var u := SlotOfPlace(ms, pos, k);
      SameIs(top, env.ctx, u, p);
    }
    AcceptedOnce(env, order, pos, top);
  }

  lemma SameIs(top: seq<Option<Task>>, ctx: seq<Option<Task>>, i: nat, p: nat)
    requires i < |top| && p < |ctx| && top[i] == ctx[p]
    ensures SameTask(top, ctx, i, p)
  {
  }

  lemma AcceptedOnce(env: Env, order: seq<Task>, pos: seq<nat>, top: seq<Option<Task>>)
    requires ReadyOrderOf(env, order) && Picked(Masks(env, order), |order|, pos) && |pos| <= |top|
    requires forall k :: 0 <= k < |pos| ==> pos[k] < |order| && top[k] == Some(order[pos[k]])
    ensures forall i, k :: 0 <= i < k < |pos| ==> top[i] != top[k]
    ensures forall p, q :: 0 <= p < q < |env.ctx| && env.ctx[p].Some? ==> env.ctx[p] != env.ctx[q]
  {
    hide Chosen;
    forall i, k | 0 <= i < k < |pos| ensures top[i] != top[k] {
      assert pos[i] < pos[k];
    }
  }

  lemma ChosenRuns(env: Env, order: seq<Task>, k: nat) returns (p: nat)
    requires ReadyOrderOf(env, order) && Settled(env, order) && k < |order| && k in Chosen(Masks(env, order))
    ensures p < |env.ctx| && env.ctx[p] == Some(order[k]) && p in Masks(env, order)[k]
  {
    hide Chosen, Env.Mask;
    assert Some(order[k]) in env.ctx;
    p :| 0 <= p < |env.ctx| && env.ctx[p] == Some(order[k]);
    RunningMask(env, order[k], p);
  }

  lemma OpenRuns(env: Env, order: seq<Task>, k: nat, p: nat) returns (u: nat)
    requires ReadyOrderOf(env, order) && Settled(env, order) && k < |order| && k in Chosen(Masks(env, order))
    requires p in Masks(env, order)[k]
    ensures p < |env.ctx| && u < |order| && u in Chosen(Masks(env, order)) && env.ctx[p] == Some(order[u])
  {
    hide Chosen, Masks;
    u :| 0 <= u < |order| && u in Chosen(Masks(env, order)) && env.ctx[p] == Some(order[u]);
  }

  lemma OwnSlots(env: Env, order: seq<Task>, pos: seq<nat>, top: seq<Option<Task>>, bits: seq<set<nat>>, cnt: seq<int>,
                 pl: map<nat, nat>)
    requires ReadyOrderOf(env, order) && OwnPlaces(top, env.ctx, pl)
    requires Selecting(order, Masks(env, order), env.Procs(), |order|, pos, top, bits, cnt)
    ensures PlacedOwn(env, order, pos, pl)
  {
    hide Chosen, Users, Window, Env.Mask, Picked, Masks;
    forall j, p | 0 <= j < |pos| && pos[j] < |order| && 0 <= p < env.Procs() && j in pl
                  && env.ctx[p] == Some(order[pos[j]])
      ensures pl[j] == p
    {
      assert SameTask(top, env.ctx, j, pl[j]);
    }
  }

  method AssignSingle(env: Env, tcb: array<Option<Task>>, topTcb: array<Option<Task>>, ghost order: seq<Task>,
                      ghost pos: seq<nat>, ghost bits: seq<set<nat>>, ghost cnt: seq<int>)
    requires ReadyOrderOf(env, order) && tcb.Length == env.Procs() && tcb != topTcb
    requires Selecting(order, Masks(env, order), env.Procs(), |order|, pos, topTcb[..], bits, cnt)
    requires Unsplit(env, AcceptedTasks(order, pos))
    modifies tcb, topTcb
    ensures Placed(order, Masks(env, order), pos, tcb[..], true)
    ensures StaysPut(env, tcb[..]) && LowestFirst(env, order, tcb[..])
    ensures Settled(env, order) ==> NobodyMoves(env, order, tcb[..])
  {
    ghost var ms := Masks(env, order);
    SlotsOf(env, order, pos, topTcb[..], bits, cnt);
    hide Selecting, Runs, SlotSchedule, Chosen, Masks, Picked, SlotsAlone, StaysPut, LowestFirst, Settled, NobodyMoves;
    SingleMasks(env, order, pos);
    assert forall j :: 0 <= j < topTcb.Length ==> topTcb[j] == topTcb[..][j];
    SingleCoreAssign(tcb, topTcb, env, AcceptedTasks(order, pos), Compact(ms, pos));
    ghost var pl :| Runs(AcceptedTasks(order, pos), Compact(ms, pos), tcb[..], pl);
    FromRuns(order, ms, pos, tcb[..], pl);
    AllAlone(ms, pos, pl);
    LowestInOrder(env, order, ms, pos, tcb[..]);
    if Settled(env, order) {
      SettledSingle(env, order, pos, tcb[..], pl);
    }
  }

  /** The schedule is what the search comes to from the selected tasks: in each round it makes the
      first pick of all. */
  ghost predicate Searched(env: Env, order: seq<Task>, sch: seq<Option<Task>>)
    requires ReadyOrderOf(env, order)
  {
    exists pos, top, bits, cnt :: SearchedFrom(env, order, pos, top, bits, cnt, sch)
  }

  ghost predicate SearchedFrom(env: Env, order: seq<Task>, pos: seq<nat>, top: seq<Option<Task>>, bits: seq<set<nat>>,
                               cnt: seq<int>, sch: seq<Option<Task>>)
    requires ReadyOrderOf(env, order)
  {
    && Selecting(order, Masks(env, order), env.Procs(), |order|, pos, top, bits, cnt)
    && exists bs, xs :: PlayedOut(bs, xs, top, env.ctx, |pos|, FirstBoard(bits, cnt), sch)
  }

  lemma SearchedSo(env: Env, order: seq<Task>, pos: seq<nat>, top: seq<Option<Task>>, bits: seq<set<nat>>,
                   cnt: seq<int>,
                   bs: seq<Board>, xs: seq<Choice>, sch: seq<Option<Task>>)
    requires ReadyOrderOf(env, order)
    requires Selecting(order, Masks(env, order), env.Procs(), |order|, pos, top, bits, cnt)
    requires PlayedOut(bs, xs, top, env.ctx, |pos|, FirstBoard(bits, cnt), sch)
    ensures Searched(env, order, sch)
  {
    hide Selecting, PlayedOut;
    assert SearchedFrom(env, order, pos, top, bits, cnt, sch);
  }

  method AssignMulti(env: Env, tcb: array<Option<Task>>, topTcb: array<Option<Task>>, topBit: array<set<nat>>,
                     bitCnt: array<int>, assignNum: nat, ghost order: seq<Task>, ghost pos: seq<nat>)
    requires ReadyOrderOf(env, order) && tcb.Length == env.Procs() && tcb != topTcb && assignNum == |pos| > 0
    requires Selecting(order, Masks(env, order), env.Procs(), |order|, pos, topTcb[..], topBit[..], bitCnt[..])
    requires topBit as object != topTcb as object && bitCnt as object != topTcb as object
    modifies tcb, topBit, bitCnt
    ensures Placed(order, Masks(env, order), pos, tcb[..], env.Procs() <= 4)
    ensures Settled(env, order) ==> NobodyMoves(env, order, tcb[..])
    ensures Searched(env, order, tcb[..])
  {
    ghost var ms, top, bits, cnt := Masks(env, order), topTcb[..], topBit[..], bitCnt[..];
    SlotsOf(env, order, pos, top, bits, cnt);
    MultiMasks(env, order, pos, top, bits, cnt);
    hide Selecting, Assignment, SlotSchedule, Chosen, Masks, Picked, HallOn, Family, Users, SlotsAlone, AlonePlaced,
      Settled, NobodyMoves, SettledSlots, OwnPlaces, PlayedOut, Searched;
    assert forall p :: 0 <= p < env.Procs() ==> bitCnt[p] == bitCnt[..][p];
    MultiCoreAssign(tcb, topTcb, topBit, bitCnt, env.ctx, assignNum);
    ghost var pl :| Assignment(bits, top, |pos|, tcb[..], pl) && AlonePlaced(bits, |pos|, pl)
      && (env.Procs() <= 4 ==> pl.Keys == Upto(|pos|))
      && (SettledSlots(bits, top, env.ctx, |pos|) ==> pl.Keys == Upto(|pos|) && OwnPlaces(top, env.ctx, pl));
    ghost var bs, xs :| PlayedOut(bs, xs, top, env.ctx, |pos|, FirstBoard(bits, cnt), tcb[..]);
    SearchedSo(env, order, pos, top, bits, cnt, bs, xs, tcb[..]);
    StillAlone(order, ms, env.Procs(), pos, top, bits, cnt, pl);
    FromAssignment(order, ms, env.Procs(), pos, top, bits, cnt, tcb[..], pl);
    if Settled(env, order) {
      SettledMulti(env, order, pos, top, bits, cnt);
      OwnSlots(env, order, pos, top, bits, cnt, pl);
      OwnMeansNobodyMoves(env, order, pos, tcb[..], pl);
    }
  }

  lemma ReadyOrderIsProper(rq: ReadyQueue, env: Env)
    requires rq.Valid() && env.Good()
    requires forall i :: 0 <= i < |rq.Order()| ==> rq.Order()[i] < |env.attr|
    ensures ReadyOrderOf(env, rq.Order())
  {
    forall i, k | 0 <= i < k < |rq.Order()| ensures rq.Order()[i] != rq.Order()[k] {
      OnceInOrder(rq.tskque, rq.priority, i, k);
    }
  }

  /** From the placement of the slots to the promises of the schedule. */
  lemma PlacedIsGood(env: Env, order: seq<Task>, pos: seq<nat>, sch: seq<Option<Task>>, complete: bool)
    requires ReadyOrderOf(env, order) && |sch| == env.Procs() && Picked(Masks(env, order), |order|, pos)
    requires Placed(order, Masks(env, order), pos, sch, complete)
    ensures Proper(env, order, sch) && KeepsRunning(env, order, sch)
    ensures complete ==> GoodSchedule(env, order, sch)
  {
    hide SlotSchedule, ScheduleOf, Proper, KeepsRunning, GoodSchedule, Chosen, Picked, Masks, Pick, SlotsAlone,
      IncludesAlone;
    var ms := Masks(env, order);
    var pl0 :| SlotSchedule(order, ms, pos, sch, pl0) && pl0.Keys <= Upto(|pos|)
        && (complete ==> pl0.Keys == Upto(|pos|))
      && SlotsAlone(ms, pos, pl0);
    var pl := SlotsToPlaces(order, ms, pos, sch, pl0);
    AllSlots(pos, ms, pl0.Keys);
    ScheduleIsProper(env, order, sch, Pick(pos, pl0.Keys), pl);
    PlacesAlone(order, ms, pos, sch, pl0);
    ScheduleKeepsRunning(env, order, sch, Pick(pos, pl0.Keys), pl);
    if complete {
      ScheduleIsGood(env, order, sch, pl);
    }
  }

  /** The accepted tasks are the chosen ones. */
  lemma UnsplitAccepted(env: Env, order: seq<Task>, pos: seq<nat>)
    requires ReadyOrderOf(env, order) && Picked(Masks(env, order), |order|, pos)
    ensures UnsplitChosen(env, order) <==> Unsplit(env, AcceptedTasks(order, pos))
  {
    hide Chosen, Picked;
    forall k | 0 <= k < |order| && k in Chosen(Masks(env, order)) ensures exists j :: 0 <= j < |pos| && pos[j] == k {
      var j := SlotOfPlace(Masks(env, order), pos, k);
    }
    assert forall j :: 0 <= j < |pos| ==> pos[j] in Chosen(Masks(env, order)) && pos[j] < |order| by {
      forall j | 0 <= j < |pos| ensures pos[j] in Chosen(Masks(env, order)) && pos[j] < |order| {
        PlaceOfSlot(Masks(env, order), pos, j);
      }
    }
  }

  /** Choose and carry out one of the two ways of assigning processors. */
  method Assign(env: Env, tcb: array<Option<Task>>, topTcb: array<Option<Task>>, topBit: array<set<nat>>,
                bitCnt: array<int>, assignNum: nat, ghost order: seq<Task>, ghost pos: seq<nat>)
    requires ReadyOrderOf(env, order) && tcb.Length == env.Procs() && tcb != topTcb && assignNum == |pos|
    requires Selecting(order, Masks(env, order), env.Procs(), |order|, pos, topTcb[..], topBit[..], bitCnt[..])
    requires topBit as object != topTcb as object && bitCnt as object != topTcb as object
    modifies tcb, topTcb, topBit, bitCnt
    ensures Proper(env, order, tcb[..]) && KeepsRunning(env, order, tcb[..])
    ensures env.Procs() <= 4 || UnsplitChosen(env, order) ==> GoodSchedule(env, order, tcb[..])
    ensures UnsplitChosen(env, order) ==> StaysPut(env, tcb[..]) && LowestFirst(env, order, tcb[..])
    ensures Settled(env, order) ==> NobodyMoves(env, order, tcb[..])
    ensures !UnsplitChosen(env, order) ==> Searched(env, order, tcb[..])
  {
    ghost var ms, bits, cnt := Masks(env, order), topBit[..], bitCnt[..];
    SlotsOf(env, order, pos, topTcb[..], bits, cnt);
    hide Selecting, Proper, KeepsRunning, GoodSchedule, Placed, Chosen, Masks, Picked, StaysPut, LowestFirst, Settled,
      NobodyMoves, UnsplitChosen, Searched;
    assert forall j :: 0 <= j < topTcb.Length ==> topTcb[j] == topTcb[..][j];
    var split := AnySplit(env, topTcb, assignNum, AcceptedTasks(order, pos));
    UnsplitAccepted(env, order, pos);
    if split {
      AssignMulti(env, tcb, topTcb, topBit, bitCnt, assignNum, order, pos);
      PlacedIsGood(env, order, pos, tcb[..], env.Procs() <= 4);
    } else {
      AssignSingle(env, tcb, topTcb, order, pos, bits, cnt);
      PlacedIsGood(env, order, pos, tcb[..], true);
    }
  }

  /** The scheduler.  `hist` is the global table with room for the groups of all but one
      processor's tasks.  For any number of processors the schedule is proper and leaves
      processors that must not switch tasks alone, and nobody moves if all that are chosen are
      running.  It keeps every promise on up to four, or when no chosen task is bound to several
      but not all processors; in that case running tasks stay and the others fill up from the
      first processor on, otherwise the outcome is that of the search. */
  method ReadyQueueTop(rq: ReadyQueue, env: Env, hist: array<Entry>, tcb: array<Option<Task>>)
    requires rq.Valid() && env.Good() && rq.top.Length == env.Procs() == tcb.Length
    requires forall i :: 0 <= i < |rq.Order()| ==> rq.Order()[i] < |env.attr|
    requires hist.Length >= Pow2(env.Procs() - 1)
    requires tcb != rq.top && tcb as object != hist as object && tcb as object != rq.bitmap as object
    requires hist as object != rq.top as object && hist as object != rq.bitmap as object
    modifies rq`chg, hist, tcb
    ensures rq.Valid() && rq.Order() == old(rq.Order()) && !rq.chg
    ensures ReadyOrderOf(env, rq.Order()) && Proper(env, rq.Order(), tcb[..]) && KeepsRunning(env, rq.Order(), tcb[..])
    ensures env.Procs() <= 4 || UnsplitChosen(env, rq.Order()) ==> GoodSchedule(env, rq.Order(), tcb[..])
    ensures UnsplitChosen(env, rq.Order()) ==> StaysPut(env, tcb[..]) && LowestFirst(env, rq.Order(), tcb[..])
    ensures Settled(env, rq.Order()) ==> NobodyMoves(env, rq.Order(), tcb[..])
    ensures !UnsplitChosen(env, rq.Order()) ==> Searched(env, rq.Order(), tcb[..])
  {
    hide Queued, Linked, Mapped, Flatten, Selecting, Proper, KeepsRunning, GoodSchedule, Chosen, Masks, Picked,
      ReadyOrderOf, UnsplitChosen, StaysPut, LowestFirst, Settled, NobodyMoves, Searched;
    ReadyOrderIsProper(rq, env);
    ghost var order := rq.Order();
    var topTcb := new Option<Task>[|env.ctx|](i requires 0 <= i < rq.top.Length reads rq.top => rq.top[i]);
    var topBit := new set<nat>[|env.ctx|](_ => {});
    var bitCnt := new int[|env.ctx|](_ => 0);
    assert topTcb[..] == rq.top[..];
    var assignNum, pos := Select(rq, env, hist, topTcb, topBit, bitCnt, Masks(env, order));
    Assign(env, tcb, topTcb, topBit, bitCnt, assignNum, order, pos);
    rq.chg := false;
  }
}
