/** The ready order: the queues of all priorities, highest priority first, laid end to
    end; and what inserting and removing a task does to its first few places. */
module ReadyOrder {
  import opened Tasks
  import opened Sequences

  function Flatten(q: seq<seq<Task>>): seq<Task> {
    if q == [] then [] else q[0] + Flatten(q[1..])
  }

  lemma {:induction false} FlattenConcat(a: seq<seq<Task>>, b: seq<seq<Task>>)
    ensures Flatten(a + b) == Flatten(a) + Flatten(b)
  {
    if a == [] {
      assert a + b == b;
    } else {
      assert (a + b)[1..] == a[1..] + b;
      FlattenConcat(a[1..], b);
    }
  }

  /** The ready order around the queue of priority `p`. */
  lemma FlattenAround(q: seq<seq<Task>>, p: nat)
    requires p < |q|
    ensures Flatten(q) == Flatten(q[..p]) + q[p] + Flatten(q[p + 1..])
  {
    assert q == q[..p] + q[p..];
    assert q[p..][1..] == q[p + 1..];
    FlattenConcat(q[..p], q[p..]);
  }

  lemma FlattenUpdate(q: seq<seq<Task>>, p: nat, x: seq<Task>)
    requires p < |q|
    ensures Flatten(q[p := x]) == Flatten(q[..p]) + x + Flatten(q[p + 1..])
  {
    var q' := q[p := x];
    assert q'[..p] == q[..p] && q'[p + 1..] == q[p + 1..];
    FlattenAround(q', p);
  }

  lemma {:induction false} InFlatten(q: seq<seq<Task>>, t: Task) returns (p: nat)
    requires t in Flatten(q)
    ensures p < |q| && t in q[p]
  {
    if t in q[0] {
      p := 0;
    } else {
      p := InFlatten(q[1..], t);
      p := p + 1;
    }
  }

  function At(order: seq<Task>, i: nat): Option<Task> {
    if i < |order| then Some(order[i]) else None
  }

  /** The first `n` places of the ready order, padded with null pointers. */
  function Front(order: seq<Task>, n: nat): (r: seq<Option<Task>>)
    ensures |r| == n
    ensures forall i :: 0 <= i < n ==> r[i] == At(order, i)
  {
    seq(n, i requires 0 <= i => At(order, i))
  }

  /** `t` left queue `p`, everything else kept its place. */
  ghost predicate TakenOut(q: seq<seq<Task>>, p: nat, t: Task, q': seq<seq<Task>>) {
    p < |q| && exists i :: 0 <= i < |q[p]| && q[p][i] == t && q' == q[p := RemoveAt(q[p], i)]
  }

  /** `t` moved to the end of queue `p`, everything else kept its place. */
  ghost predicate MovedToEnd(q: seq<seq<Task>>, p: nat, t: Task, q': seq<seq<Task>>) {
    p < |q| && exists i :: 0 <= i < |q[p]| && q[p][i] == t && q' == q[p := RemoveAt(q[p], i) + [t]]
  }

  lemma EndIsMoved(q: seq<seq<Task>>, p: nat, i: nat)
    requires p < |q| && i < |q[p]|
    ensures MovedToEnd(q, p, q[p][i], q[p := RemoveAt(q[p], i) + [q[p][i]]])
  {
  }

  /** Queues by priority, each task queued once, under its own priority. */
  ghost predicate Queued(q: seq<seq<Task>>, pri: seq<nat>) {
    && (forall p, i :: 0 <= p < |q| && 0 <= i < |q[p]| ==> q[p][i] < |pri| && pri[q[p][i]] == p)
    && (forall p, i, k :: 0 <= p < |q| && 0 <= i < k < |q[p]| ==> q[p][i] != q[p][k])
  }

  /** The link fields: the next task of the same queue, or the queue itself (`None`). */
  ghost predicate Linked(q: seq<seq<Task>>, next: seq<Option<Task>>) {
    forall p, i :: 0 <= p < |q| && 0 <= i < |q[p]| ==> q[p][i] < |next| && next[q[p][i]] == At(q[p], i + 1)
  }

  lemma LinkedAt(q: seq<seq<Task>>, next: seq<Option<Task>>, p: nat, i: nat)
    requires Linked(q, next) && p < |q| && i < |q[p]|
    ensures q[p][i] < |next| && next[q[p][i]] == At(q[p], i + 1)
  {
  }

  lemma QueuedAt(q: seq<seq<Task>>, pri: seq<nat>, p: nat, t: Task)
    requires p < |q| && Queued(q, pri) && t in q[p]
    ensures t < |pri| && pri[t] == p
  {
  }

  lemma QueuedBefore(q: seq<seq<Task>>, pri: seq<nat>, p: nat, t: Task)
    requires p < |q| && Queued(q, pri) && t in Flatten(q[..p])
    ensures t < |pri| && pri[t] < p
  {
    var r := InFlatten(q[..p], t);
    QueuedAt(q, pri, r, t);
  }

  lemma QueuedBehind(q: seq<seq<Task>>, pri: seq<nat>, p: nat, t: Task)
    requires p < |q| && Queued(q, pri) && t in Flatten(q[p + 1..])
    ensures t < |pri| && pri[t] > p
  {
    var r := InFlatten(q[p + 1..], t);
    assert q[p + 1..][r] == q[p + 1 + r];
    QueuedAt(q, pri, p + 1 + r, t);
  }

  /** Where queue `p` starts in the ready order. */
  function Base(q: seq<seq<Task>>, p: nat): nat
    requires p <= |q|
  {
    |Flatten(q[..p])|
  }

  lemma PlaceInOrder(q: seq<seq<Task>>, p: nat, i: nat)
    requires p < |q| && i < |q[p]|
    ensures Base(q, p) + i < |Flatten(q)| && Flatten(q)[Base(q, p) + i] == q[p][i]
  {
    FlattenAround(q, p);
  }

  /** Appending to queue `p` inserts into the ready order behind every task that is not of
      a lower priority. */
  lemma AppendInOrder(q: seq<seq<Task>>, p: nat, t: Task)
    requires p < |q|
    ensures Base(q, p) + |q[p]| <= |Flatten(q)|
    ensures Flatten(q[p := q[p] + [t]]) == InsertAt(Flatten(q), Base(q, p) + |q[p]|, t)
  {
    FlattenAround(q, p);
    FlattenUpdate(q, p, q[p] + [t]);
  }

  lemma InsertBetween(a: seq<Task>, b: seq<Task>, t: Task)
    ensures a + ([t] + b) == InsertAt(a + b, |a|, t)
  {
  }

  lemma PrependInOrder(q: seq<seq<Task>>, p: nat, t: Task)
    requires p < |q|
    ensures Base(q, p) <= |Flatten(q)|
    ensures Flatten(q[p := [t] + q[p]]) == InsertAt(Flatten(q), Base(q, p), t)
  {
    hide Flatten, InsertAt;
    var a, c := Flatten(q[..p]), Flatten(q[p + 1..]);
    FlattenAround(q, p);
    FlattenUpdate(q, p, [t] + q[p]);
    assert a + ([t] + q[p]) + c == a + ([t] + (q[p] + c));
    assert a + q[p] + c == a + (q[p] + c);
    InsertBetween(a, q[p] + c, t);
  }

  lemma RemoveInOrder(q: seq<seq<Task>>, p: nat, i: nat)
    requires p < |q| && i < |q[p]|
    ensures Base(q, p) + i < |Flatten(q)|
    ensures Flatten(q[p := RemoveAt(q[p], i)]) == RemoveAt(Flatten(q), Base(q, p) + i)
  {
    FlattenAround(q, p);
    FlattenUpdate(q, p, RemoveAt(q[p], i));
  }

  lemma {:induction false} EmptyStretch(q: seq<seq<Task>>)
    requires forall i :: 0 <= i < |q| ==> q[i] == []
    ensures Flatten(q) == []
  {
    if q != [] {
      EmptyStretch(q[1..]);
    }
  }

  /** Behind queue `p` the ready order goes on with the first task of the next queue that is
      not empty, or ends. */
  lemma NextQueue(q: seq<seq<Task>>, p: nat, r: int)
    requires p < |q| && -1 <= r < |q| - (p + 1)
    requires r >= 0 ==> q[p + 1 + r] != []
    requires forall i :: p + 1 <= i < (if r >= 0 then p + 1 + r else |q|) ==> q[i] == []
    ensures At(Flatten(q), Base(q, p) + |q[p]|) == if r >= 0 then Some(q[p + 1 + r][0]) else None
  {
    FlattenAround(q, p);
    var tail := q[p + 1..];
    var gap := if r >= 0 then r else |tail|;
    EmptyStretch(tail[..gap]);
    if r >= 0 {
      FlattenAround(tail, r);
    } else {
      assert tail[..gap] == tail;
    }
  }

  /** Links after appending `t` to the queue `x`. */
  function AppendLinks(next: seq<Option<Task>>, x: seq<Task>, t: Task): seq<Option<Task>>
    requires t < |next| && forall i :: 0 <= i < |x| ==> x[i] < |next|
  {
    if x == [] then next[t := None] else next[x[|x| - 1] := Some(t)][t := None]
  }

  lemma AppendKeeps(q: seq<seq<Task>>, pri: seq<nat>, next: seq<Option<Task>>, t: Task)
    requires Queued(q, pri) && Linked(q, next) && |next| == |pri|
    requires t < |pri| && pri[t] < |q| && t !in q[pri[t]]
    ensures var q' := q[pri[t] := q[pri[t]] + [t]];
            Queued(q', pri) && Linked(q', AppendLinks(next, q[pri[t]], t))
  {
  }

  lemma PrependKeeps(q: seq<seq<Task>>, pri: seq<nat>, next: seq<Option<Task>>, t: Task)
    requires Queued(q, pri) && Linked(q, next) && |next| == |pri|
    requires t < |pri| && pri[t] < |q| && t !in q[pri[t]]
    ensures var q' := q[pri[t] := [t] + q[pri[t]]];
            Queued(q', pri) && Linked(q', next[t := At(q[pri[t]], 0)])
  {
  }

  /** Links after taking place `i` out of the queue `x`; its own link stays. */
  function RemoveLinks(next: seq<Option<Task>>, x: seq<Task>, i: nat): seq<Option<Task>>
    requires i < |x| && forall k :: 0 <= k < |x| ==> x[k] < |next|
  {
    if i == 0 then next else next[x[i - 1] := next[x[i]]]
  }

  lemma RemoveKeepsQueued(q: seq<seq<Task>>, pri: seq<nat>, p: nat, i: nat)
    requires Queued(q, pri) && p < |q| && i < |q[p]|
    ensures Queued(q[p := RemoveAt(q[p], i)], pri)
    ensures q[p][i] !in RemoveAt(q[p], i)
  {
    var x, y := q[p], RemoveAt(q[p], i);
    forall k, m | 0 <= k < m < |y| ensures y[k] != y[m] {
      var k', m' := if k < i then k else k + 1, if m < i then m else m + 1;
      assert x[k'] != x[m'];
    }
  }

  lemma RemovedLink(next: seq<Option<Task>>, x: seq<Task>, i: nat, u: Task)
    requires i < |x| && u < |next| && forall k :: 0 <= k < |x| ==> x[k] < |next|
    ensures RemoveLinks(next, x, i)[u] == if i > 0 && u == x[i - 1] then next[x[i]] else next[u]
  {
  }

  lemma RemoveFromList(x: seq<Task>, next: seq<Option<Task>>, i: nat, k: nat)
    requires i < |x| && k < |x| - 1 && forall j :: 0 <= j < |x| ==> x[j] < |next|
    requires var k' := if k < i then k else k + 1;
             && next[x[k']] == At(x, k' + 1) && next[x[i]] == At(x, i + 1)
             && (i > 0 && x[i - 1] == x[k'] ==> i - 1 == k')
    ensures RemoveLinks(next, x, i)[RemoveAt(x, i)[k]] == At(RemoveAt(x, i), k + 1)
  {
    var k' := if k < i then k else k + 1;
    RemovedLink(next, x, i, x[k']);
    var y := RemoveAt(x, i);
    assert y[k] == x[k'] && (k != i - 1 && k + 1 < |y| ==> y[k + 1] == x[k' + 1]);
    assert At(y, i) == At(x, i + 1);
    hide RemoveLinks, RemoveAt;
  }

  lemma RemoveFromOther(q: seq<seq<Task>>, pri: seq<nat>, next: seq<Option<Task>>, p: nat, i: nat, r: nat, k: nat)
    requires Queued(q, pri) && Linked(q, next) && p < |q| && i < |q[p]|
    requires r < |q| && r != p && k < |q[r]|
    ensures RemoveLinks(next, q[p], i)[q[r][k]] == At(q[r], k + 1)
  {
    assert pri[q[r][k]] == r;
    assert i > 0 ==> pri[q[p][i - 1]] == p;
  }

  lemma RemoveKeepsLinked(q: seq<seq<Task>>, pri: seq<nat>, next: seq<Option<Task>>, p: nat, i: nat)
    requires Queued(q, pri) && Linked(q, next) && p < |q| && i < |q[p]|
    ensures Linked(q[p := RemoveAt(q[p], i)], RemoveLinks(next, q[p], i))
    ensures RemoveLinks(next, q[p], i)[q[p][i]] == At(RemoveAt(q[p], i), i)
  {
    var x, y, next' := q[p], RemoveAt(q[p], i), RemoveLinks(next, q[p], i);
    assert forall j :: 0 <= j < |x| ==> x[j] < |next| && next[x[j]] == At(x, j + 1);
    assert forall j, m :: 0 <= j < m < |x| ==> x[j] != x[m];
    assert next[x[i]] == At(x, i + 1) && (i > 0 ==> x[i - 1] != x[i]);
    var q' := q[p := y];
    forall r, k | 0 <= r < |q'| && 0 <= k < |q'[r]| ensures q'[r][k] < |next'| && next'[q'[r][k]] == At(q'[r], k + 1) {
      if r == p {
        RemoveFromList(x, next, i, k);
      } else {
        RemoveFromOther(q, pri, next, p, i, r, k);
      }
    }
  }

  /** The queue and place behind place `k` of the ready order. */
  lemma {:induction false} WhereInOrder(q: seq<seq<Task>>, k: nat) returns (p: nat, i: nat)
    requires k < |Flatten(q)|
    ensures p < |q| && i < |q[p]| && Base(q, p) + i == k && Flatten(q)[k] == q[p][i]
  {
    if k < |q[0]| {
      p, i := 0, k;
    } else {
      p, i := WhereInOrder(q[1..], k - |q[0]|);
      assert q[..p + 1][1..] == q[1..][..p];
      p := p + 1;
    }
  }

  /** Where the link of place `k` of the ready order leads. */
  lemma LinkInOrder(q: seq<seq<Task>>, pri: seq<nat>, next: seq<Option<Task>>, k: nat) returns (i: nat)
    requires Queued(q, pri) && Linked(q, next) && k < |Flatten(q)|
    ensures var t := Flatten(q)[k];
            && t < |pri| && t < |next| && pri[t] < |q| && i <= |q[pri[t]]|
            && next[t] == At(q[pri[t]], i) && Base(q, pri[t]) + i == k + 1
  {
    hide Linked, Flatten;
    var p, j := WhereInOrder(q, k);
    i := j + 1;
    LinkedAt(q, next, p, j);
  }

  /** No task is twice in the ready order. */
  lemma OnceInOrder(q: seq<seq<Task>>, pri: seq<nat>, k: nat, m: nat)
    requires Queued(q, pri) && k < m < |Flatten(q)|
    ensures Flatten(q)[k] != Flatten(q)[m]
  {
    var p, i := WhereInOrder(q, k);
    var r, j := WhereInOrder(q, m);
    assert pri[q[p][i]] == p && pri[q[r][j]] == r;
  }

  /** The ready order is sorted by priority around the place where `t` goes. */
  ghost predicate Belongs(order: seq<Task>, pri: seq<nat>, t: Task, k: nat, front: bool) {
    && k <= |order| && t < |pri|
    && (forall i :: 0 <= i < |order| ==> order[i] < |pri|)
    && (forall i :: 0 <= i < k ==> if front then pri[order[i]] < pri[t] else pri[order[i]] <= pri[t])
    && (forall i :: k <= i < |order| ==> if front then pri[order[i]] >= pri[t] else pri[order[i]] > pri[t])
  }

  lemma ThreeParts(a: seq<Task>, b: seq<Task>, c: seq<Task>, i: nat)
    requires i < |a| + |b| + |c|
    ensures i < |a| ==> (a + b + c)[i] in a
    ensures |a| <= i < |a| + |b| ==> (a + b + c)[i] in b
    ensures |a| + |b| <= i ==> (a + b + c)[i] in c
  {
  }

  /** The ready order is sorted by priority around every queue. */
  lemma PlaceByPriority(q: seq<seq<Task>>, pri: seq<nat>, p: nat, i: nat)
    requires Queued(q, pri) && p < |q| && i < |Flatten(q)|
    ensures var t := Flatten(q)[i];
            && t < |pri|
            && (i < Base(q, p) ==> pri[t] < p)
            && (Base(q, p) <= i < Base(q, p) + |q[p]| ==> pri[t] == p)
            && (Base(q, p) + |q[p]| <= i ==> pri[t] > p)
  {
    FlattenAround(q, p);
    var a, b, t := Flatten(q[..p]), Flatten(q[p + 1..]), Flatten(q)[i];
    ThreeParts(a, q[p], b, i);
    if i < |a| {
      QueuedBefore(q, pri, p, t);
    } else if i < |a| + |q[p]| {
      QueuedAt(q, pri, p, t);
    } else {
      QueuedBehind(q, pri, p, t);
    }
  }

  lemma AppendBelongs(q: seq<seq<Task>>, pri: seq<nat>, t: Task)
    requires Queued(q, pri) && t < |pri| && pri[t] < |q|
    ensures Belongs(Flatten(q), pri, t, Base(q, pri[t]) + |q[pri[t]]|, false)
    ensures Belongs(Flatten(q), pri, t, Base(q, pri[t]), true)
  {
    var p := pri[t];
    FlattenAround(q, p);
    forall i | 0 <= i < |Flatten(q)|
      ensures Flatten(q)[i] < |pri|
      ensures i < Base(q, p) ==> pri[Flatten(q)[i]] < p
      ensures Base(q, p) <= i < Base(q, p) + |q[p]| ==> pri[Flatten(q)[i]] == p
      ensures Base(q, p) + |q[p]| <= i ==> pri[Flatten(q)[i]] > p
    {
      PlaceByPriority(q, pri, p, i);
    }
  }
}
