/** The table `hist` of `ready_queue_top`: for every non-empty group of the tasks accepted
    so far (those restricted to some processors), the processors the group can use and
    the size of the group.  The source packs an entry into one word, the processors in
    the lower and the size in the upper 16 bits. */
module History {
  import opened Hall

  datatype Entry = Entry(bits: set<nat>, num: nat)

  /** A group's entry after one more task joined the group. */
  function Join(e: Entry, bit: set<nat>): Entry {
    Entry(e.bits + bit, e.num + 1)
  }

  /** The table after one more restricted task: the old groups, the old groups joined by
      the newcomer, and the newcomer alone. */
  function Recorded(h: seq<Entry>, bit: set<nat>): (r: seq<Entry>)
    ensures |r| == 2 * |h| + 1 && r[..|h|] == h && r[2 * |h|] == Entry(bit, 1)
    ensures forall k :: 0 <= k < |h| ==> r[|h| + k] == Join(h[k], bit)
  {
    h + seq(|h|, i requires 0 <= i < |h| => Join(h[i], bit)) + [Entry(bit, 1)]
  }

  /** The table after the tasks with masks `ms` were accepted in that order; tasks that
      may run on every processor leave no trace in it. */
  function HistOf(ms: seq<set<nat>>, all: set<nat>): seq<Entry> {
    if ms == [] then [] else
    var h := HistOf(ms[..|ms| - 1], all);
    var bit := ms[|ms| - 1];
    if bit == all then h else Recorded(h, bit)
  }

  /** The accepted tasks that are restricted to some processors. */
  ghost function Narrow(ms: seq<set<nat>>, all: set<nat>): (s: set<nat>)
    ensures forall i :: i in s <==> 0 <= i < |ms| && ms[i] != all
  {
    set i: nat | i < |ms| && ms[i] != all
  }

  function Pow2(n: nat): (r: nat)
    ensures r >= 1
  {
    if n == 0 then 1 else 2 * Pow2(n - 1)
  }

  lemma Pow2Monotone(m: nat, n: nat)
    requires m <= n
    ensures Pow2(m) <= Pow2(n)
  {
    if m < n {
      Pow2Monotone(m, n - 1);
    }
  }

  ghost function GroupEntry(ms: seq<set<nat>>, S: set<nat>): Entry {
    Entry(Reach(ms, S), |S|)
  }

  lemma GroupOfPrefix(ms: seq<set<nat>>, S: set<nat>)
    requires ms != [] && forall i :: i in S ==> i < |ms| - 1
    ensures GroupEntry(ms[..|ms| - 1], S) == GroupEntry(ms, S)
    ensures GroupEntry(ms, S + {|ms| - 1}) == Entry(Reach(ms, S) + ms[|ms| - 1], |S| + 1)
  {
    var k := |ms| - 1;
    assert forall i :: 0 <= i < k ==> ms[..k][i] == ms[i];
    assert Reach(ms[..k], S) == Reach(ms, S);
    assert Reach(ms, S + {k}) == Reach(ms, S) + ms[k];
  }

  /** Every entry of the table describes a non-empty group of restricted tasks. */
  lemma {:induction false} HistSound(ms: seq<set<nat>>, all: set<nat>, k: nat) returns (S: set<nat>)
    requires k < |HistOf(ms, all)|
    ensures S != {} && S <= Narrow(ms, all) && HistOf(ms, all)[k] == GroupEntry(ms, S)
  {
    var n := |ms| - 1;
    var init := ms[..n];
    var h := HistOf(init, all);
    if ms[n] == all || k < |h| {
      S := HistSound(init, all, k);
      GroupOfPrefix(ms, S);
    } else if k < 2 * |h| {
      var S0 := HistSound(init, all, k - |h|);
      GroupOfPrefix(ms, S0);
      S := S0 + {n};
    } else {
      S := {n};
      GroupOfPrefix(ms, {});
      assert S == {} + {n};
      assert Reach(ms, {}) == {};
    }
  }

  lemma NarrowOfPrefix(ms: seq<set<nat>>, all: set<nat>, S: set<nat>)
    requires ms != [] && S <= Narrow(ms, all)
    ensures S - {|ms| - 1} <= Narrow(ms[..|ms| - 1], all)
    ensures ms[|ms| - 1] == all ==> |ms| - 1 !in S
  {
    var init := ms[..|ms| - 1];
    forall i | i in S - {|ms| - 1} ensures i in Narrow(init, all) {
      assert i in Narrow(ms, all);
      assert init[i] == ms[i];
    }
  }

  lemma NewestEntry(ms: seq<set<nat>>, all: set<nat>)
    requires ms != [] && ms[|ms| - 1] != all
    ensures var g := HistOf(ms, all);
            |g| > 0 && g[|g| - 1] == GroupEntry(ms, {|ms| - 1})
  {
    GroupOfPrefix(ms, {});
    assert {} + {|ms| - 1} == {|ms| - 1} && Reach(ms, {}) == {};
  }

  lemma CarriedEntry(ms: seq<set<nat>>, all: set<nat>, S: set<nat>, k: nat)
    requires ms != [] && forall i :: i in S ==> i < |ms| - 1
    requires k < |HistOf(ms[..|ms| - 1], all)| && HistOf(ms[..|ms| - 1], all)[k] == GroupEntry(ms[..|ms| - 1], S)
    ensures k < |HistOf(ms, all)| && HistOf(ms, all)[k] == GroupEntry(ms, S)
    ensures ms[|ms| - 1] != all ==>
              && |HistOf(ms[..|ms| - 1], all)| + k < |HistOf(ms, all)|
              && HistOf(ms, all)[|HistOf(ms[..|ms| - 1], all)| + k] == GroupEntry(ms, S + {|ms| - 1})
  {
    GroupOfPrefix(ms, S);
  }

  lemma {:induction false} SomeEntry(ms: seq<set<nat>>, all: set<nat>, S: set<nat>) returns (k: nat)
    requires S != {} && S <= Narrow(ms, all)
    requires ms != [] && S - {|ms| - 1} == {}
    ensures k < |HistOf(ms, all)| && HistOf(ms, all)[k] == GroupEntry(ms, S)
  {
    NarrowOfPrefix(ms, all, S);
    assert S == {|ms| - 1};
    NewestEntry(ms, all);
    k := |HistOf(ms, all)| - 1;
  }

  /** Every non-empty group of restricted tasks has its entry in the table. */
  lemma {:induction false} HistComplete(ms: seq<set<nat>>, all: set<nat>, S: set<nat>) returns (k: nat)
    requires S != {} && S <= Narrow(ms, all)
    ensures k < |HistOf(ms, all)| && HistOf(ms, all)[k] == GroupEntry(ms, S)
    decreases |ms|
  {
    assert ms != [];
    var n := |ms| - 1;
    var S0 := S - {n};
    NarrowOfPrefix(ms, all, S);
    if S0 == {} {
      k := SomeEntry(ms, all, S);
    } else {
      k := HistComplete(ms[..n], all, S0);
      CarriedEntry(ms, all, S0, k);
      if n in S {
        assert S == S0 + {n};
        k := k + |HistOf(ms[..n], all)|;
      } else {
        assert S == S0;
      }
    }
  }

  /** The table has one entry per non-empty group, no more. */
  lemma {:induction false} HistSize(ms: seq<set<nat>>, all: set<nat>)
    ensures |HistOf(ms, all)| + 1 == Pow2(|Narrow(ms, all)|)
  {
    if ms == [] {
      assert Narrow(ms, all) == {};
    } else {
      var n := |ms| - 1;
      HistSize(ms[..n], all);
      if ms[n] == all {
        assert Narrow(ms, all) == Narrow(ms[..n], all);
      } else {
        assert Narrow(ms, all) == Narrow(ms[..n], all) + {n};
      }
    }
  }

  ghost predicate Passes(h: seq<Entry>, bit: set<nat>) {
    forall i :: 0 <= i < |h| ==> |h[i].bits + bit| >= h[i].num + 1
  }

  lemma WideGroupsFit(ms: seq<set<nat>>, all: set<nat>, S: set<nat>, i: nat)
    requires i in S && i < |ms| && ms[i] == all && |S| <= |all|
    ensures |S| <= |Reach(ms, S)|
  {
    assert all <= Reach(ms, S);
    SubsetSize(all, Reach(ms, S));
  }

  lemma GroupWithNewcomer(ms: seq<set<nat>>, bit: set<nat>, S: set<nat>)
    requires forall i :: i in S ==> i < |ms|
    ensures Reach(ms + [bit], S) == Reach(ms, S)
    ensures Reach(ms + [bit], S + {|ms|}) == Reach(ms, S) + bit
    ensures |S + {|ms|}| == |S| + 1
  {
    var ext := ms + [bit];
    assert ext[..|ext| - 1] == ms;
    GroupOfPrefix(ext, S);
  }

  /** The check of the source is exact: a restricted newcomer passes it exactly when
      Hall's condition holds for all accepted tasks and the newcomer together. */
  lemma CheckIsHall(ms: seq<set<nat>>, all: set<nat>, bit: set<nat>)
    requires HallOn(ms, Upto(|ms|)) && |ms| < |all| && bit != {}
    ensures Passes(HistOf(ms, all), bit) <==> HallOn(ms + [bit], Upto(|ms| + 1))
  {
    var h := HistOf(ms, all);
    var ext := ms + [bit];
    if HallOn(ext, Upto(|ms| + 1)) {
      forall k | 0 <= k < |h| ensures |h[k].bits + bit| >= h[k].num + 1 {
        var S := HistSound(ms, all, k);
        GroupWithNewcomer(ms, bit, S);
        assert S + {|ms|} <= Upto(|ms| + 1);
      }
    }
    if Passes(h, bit) {
      forall S: set<nat> | S <= Upto(|ms| + 1) ensures |S| <= |Reach(ext, S)| {
        GroupPasses(ms, all, bit, S);
      }
    }
  }

  lemma NarrowGroupPasses(ms: seq<set<nat>>, all: set<nat>, bit: set<nat>, S: set<nat>)
    requires bit != {} && Passes(HistOf(ms, all), bit) && S <= Narrow(ms, all)
    ensures |S| + 1 <= |Reach(ms, S) + bit|
  {
    if S == {} {
      assert Reach(ms, S) == {};
      var p :| p in bit;
      assert Reach(ms, S) + bit == {p} + (bit - {p});
    } else {
      var k := HistComplete(ms, all, S);
    }
  }

  lemma GroupPasses(ms: seq<set<nat>>, all: set<nat>, bit: set<nat>, S: set<nat>)
    requires HallOn(ms, Upto(|ms|)) && |ms| < |all| && bit != {}
    requires Passes(HistOf(ms, all), bit) && S <= Upto(|ms| + 1)
    ensures |S| <= |Reach(ms + [bit], S)|
  {
    var S0 := S - {|ms|};
    assert S0 <= Upto(|ms|);
    GroupWithNewcomer(ms, bit, S0);
    if |ms| !in S {
      assert S == S0;
    } else {
      assert S == S0 + {|ms|};
      if S0 <= Narrow(ms, all) {
        NarrowGroupPasses(ms, all, bit, S0);
      } else {
        var i :| i in S0 && i !in Narrow(ms, all);
        SubsetSize(S0, Upto(|ms|));
        assert (ms + [bit])[i] == all;
        WideGroupsFit(ms + [bit], all, S, i);
      }
    }
  }

  /** A task that may run on every processor always fits while a processor is left. */
  lemma WideNewcomerFits(ms: seq<set<nat>>, all: set<nat>)
    requires HallOn(ms, Upto(|ms|)) && |ms| < |all|
    ensures HallOn(ms + [all], Upto(|ms| + 1))
  {
    forall S: set<nat> | S <= Upto(|ms| + 1) ensures |S| <= |Reach(ms + [all], S)| {
      SubsetSize(S, Upto(|ms| + 1));
      var S0 := S - {|ms|};
      GroupWithNewcomer(ms, all, S0);
      if |ms| in S {
        WideGroupsFit(ms + [all], all, S, |ms|);
      } else {
        assert S == S0 && S <= Upto(|ms|);
      }
    }
  }

  /** A task with no processor left never fits. */
  lemma EmptyNewcomerDoesNotFit(ms: seq<set<nat>>)
    ensures !HallOn(ms + [{}], Upto(|ms| + 1))
  {
    var S: set<nat> := {|ms|};
    assert Reach(ms + [{}], S) == {};
    assert |S| == 1 && S <= Upto(|ms| + 1);
  }

  /** The check of one newcomer against the table, extending the table on the way unless
      no further task can follow (`record` is false in the last round).  A failing check
      leaves half-written entries behind the live part of the table. */
  method CheckAndRecord(hist: array<Entry>, histNum: nat, bit: set<nat>, record: bool, ghost h: seq<Entry>)
      returns (ok: bool, newNum: nat)
    requires histNum <= hist.Length && hist[..histNum] == h
    requires record ==> 2 * histNum + 1 <= hist.Length
    modifies hist
    ensures ok <==> Passes(h, bit)
    ensures newNum <= hist.Length
    ensures hist[..newNum] == if ok && record then Recorded(h, bit) else h
  {
    var i := 0;
    while i < histNum
      invariant 0 <= i <= histNum
      invariant hist[..histNum] == h
      invariant forall k :: 0 <= k < i ==> |h[k].bits + bit| >= h[k].num + 1
      invariant record ==> forall k :: 0 <= k < i ==> hist[histNum + k] == Join(h[k], bit)
    {
      assert hist[i] == h[i];
      var joined := Join(hist[i], bit);
      if |joined.bits| < joined.num {
        return false, histNum;
      }
      if record {
        hist[histNum + i] := joined;
      }
      i := i + 1;
    }
    ok, newNum := true, histNum;
    if record {
      hist[histNum + i] := Entry(bit, 1);
      newNum := histNum + i + 1;
      assert hist[..histNum] == h;
      assert hist[..newNum] == Recorded(h, bit);
    }
  }
}
