/** What the invariant of the mutex operations means for the priorities of the tasks. */
module MutexLaws {
  import opened Tasks
  import opened MutexState
  import opened MutexSteps

  /** `u` waits for a mutex with priority inheritance that `o` owns. */
  ghost predicate Donates(s: Sys, u: Task, o: Task) {
    && u < |s.waits| && s.waits[u].Some? && s.waits[u].value < |s.owner| == |s.attr|
    && s.owner[s.waits[u].value] == Some(o) && s.attr[s.waits[u].value] == TA_INHERIT
  }

  /** Each task of `path` waits for the next one by way of a mutex with inheritance. */
  ghost predicate Chain(s: Sys, path: seq<Task>) {
    && path != [] && (forall i :: 0 <= i < |path| ==> path[i] < |s.bpri|)
    && (forall i :: 0 <= i < |path| - 1 ==> Donates(s, path[i], path[i + 1]))
  }

  /** What `u` asks for on its own account: its base priority or a ceiling it holds. */
  ghost predicate OwnCause(s: Sys, u: Task, x: nat)
    requires Shape(s) && u < |s.bpri|
  {
    x == s.bpri[u] || exists m :: m in s.held[u] && s.attr[m] == TA_CEILING && s.ceil[m] == x
  }

  lemma OneStep(s: Sys, rank: seq<nat>, u: Task, o: Task)
    requires Inv(s, rank) && Donates(s, u, o)
    ensures o < |s.bpri| && s.pri[o] <= s.pri[u] && rank[o] < rank[u]
  {
    var m := s.waits[u].value;
    assert u in s.queue[m] && o < |s.held| && m in s.held[o] && Fixed(s, o);
    assert WaitsFor(s, u, o);
    HeadIsLeast(s, m, u);
  }

  /** No priority inversion, however long the chain: whoever stands at its end runs at
      least as urgently as anything its first task asks for. */
  lemma {:induction false} NoInversion(s: Sys, rank: seq<nat>, path: seq<Task>, x: nat)
    requires Inv(s, rank) && Chain(s, path) && OwnCause(s, path[0], x)
    ensures s.pri[path[|path| - 1]] <= x
  {
    hide Inv;
    PathLowers(s, rank, path);
    AtMost(s, rank, path[0], x);
  }

  lemma AtMost(s: Sys, rank: seq<nat>, u: Task, x: nat)
    requires Inv(s, rank) && u < |s.bpri| && OwnCause(s, u, x)
    ensures s.pri[u] <= x
  {
    assert Fixed(s, u);
    if x != s.bpri[u] {
      var m :| m in s.held[u] && s.attr[m] == TA_CEILING && s.ceil[m] == x;
      assert Demand(s, m) == Some(x);
    }
  }

  lemma {:induction false} PathLowers(s: Sys, rank: seq<nat>, path: seq<Task>)
    requires Inv(s, rank) && Chain(s, path)
    ensures |s.pri| == |s.bpri| && s.pri[path[|path| - 1]] <= s.pri[path[0]]
  {
    if |path| > 1 {
      OneStep(s, rank, path[0], path[1]);
      assert Chain(s, path[1..]);
      PathLowers(s, rank, path[1..]);
    }
  }

  /** No priority without a cause: some task at the start of a chain that ends in `t` asks
      for exactly the priority `t` has. */
  lemma {:induction false} HasACause(s: Sys, rank: seq<nat>, t: Task, top: nat) returns (path: seq<Task>)
    requires Inv(s, rank) && t < |s.bpri| && forall u :: 0 <= u < |rank| ==> rank[u] < top
    ensures Chain(s, path) && path[|path| - 1] == t && OwnCause(s, path[0], s.pri[t])
    decreases top - rank[t]
  {
    assert Fixed(s, t);
    if OwnCause(s, t, s.pri[t]) {
      return [t];
    }
    var m :| m in s.held[t] && Demand(s, m) == Some(s.pri[t]);
    assert s.attr[m] == TA_INHERIT && s.queue[m] != [];
    var u := s.queue[m][0];
    assert u in s.queue[m];
    assert Donates(s, u, t) && s.pri[u] == s.pri[t];
    OneStep(s, rank, u, t);
    hide Inv, OwnCause;
    var rest := HasACause(s, rank, u, top);
    path := rest + [t];
  }

  /** The priorities depend on who holds and who waits for what, not on how that came
      about. */
  lemma PrioritiesAreDetermined(s: Sys, s': Sys, rank: seq<nat>, rank': seq<nat>)
    requires Inv(s, rank) && Inv(s', rank') && SameHolders(s, s')
    ensures s.pri == s'.pri
  {
    forall t | 0 <= t < |s.bpri| ensures s.pri[t] == s'.pri[t] {
      NoMoreUrgent(s, s', rank, rank', t);
      NoMoreUrgent(s', s, rank', rank, t);
    }
  }

  lemma NoMoreUrgent(s: Sys, s': Sys, rank: seq<nat>, rank': seq<nat>, t: Task)
    requires Inv(s, rank) && Inv(s', rank') && t < |s.bpri|
    requires s'.bpri == s.bpri && s'.waits == s.waits && s'.held == s.held && s'.owner == s.owner
    requires s'.attr == s.attr && s'.ceil == s.ceil
    ensures s'.pri[t] <= s.pri[t]
  {
    var top := Bound(rank);
    var path := HasACause(s, rank, t, top);
    hide Inv;
    assert Chain(s', path) && OwnCause(s', path[0], s.pri[t]);
    NoInversion(s', rank', path, s.pri[t]);
  }

  lemma {:induction false} Bound(rank: seq<nat>) returns (top: nat)
    ensures forall u :: 0 <= u < |rank| ==> rank[u] < top
  {
    top := 0;
    if rank != [] {
      top := Bound(rank[1..]);
      if top <= rank[0] {
        top := rank[0] + 1;
      }
      forall u | 0 <= u < |rank| ensures rank[u] < top {
        assert u > 0 ==> rank[u] == rank[1..][u - 1];
      }
    }
  }

  /** The priority of `t` is the most urgent cause among all tasks that a chain of waits
      connects with it, `t` among them. */
  lemma PriorityIsTheMostUrgentCause(s: Sys, rank: seq<nat>, t: Task, x: nat)
    requires Inv(s, rank) && t < |s.bpri|
    ensures x == s.pri[t] <==>
              && (exists path :: Chain(s, path) && path[|path| - 1] == t && OwnCause(s, path[0], x))
              && (forall path, y :: Chain(s, path) && path[|path| - 1] == t && OwnCause(s, path[0], y) ==> x <= y)
  {
    var top := Bound(rank);
    var path := HasACause(s, rank, t, top);
    hide Inv;
    forall path, y | Chain(s, path) && path[|path| - 1] == t && OwnCause(s, path[0], y) ensures s.pri[t] <= y {
      NoInversion(s, rank, path, y);
    }
  }
}
