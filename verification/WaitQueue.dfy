/** Wait queues in order of arrival or of priority, whatever the tasks wait for. */
module WaitQueues {
  import opened Tasks
  import opened Sequences

  /** A waiting task, its priority (smaller is more urgent), and what it waits with. */
  datatype Entry<T> = Entry(task: Task, pri: nat, what: T)

  /** The priorities of a queue. */
  function Pris<T>(q: seq<Entry<T>>): (p: seq<nat>)
    ensures |p| == |q| && forall i :: 0 <= i < |q| ==> p[i] == q[i].pri
  {
    seq(|q|, i requires 0 <= i < |q| => q[i].pri)
  }

  /** The priorities of a queue of tasks whose control blocks have the priorities `table`. */
  function PrisIn(q: seq<Task>, table: seq<nat>): (p: seq<nat>)
    requires forall i :: 0 <= i < |q| ==> q[i] < |table|
    ensures |p| == |q| && forall i :: 0 <= i < |q| ==> p[i] == table[q[i]]
  {
    seq(|q|, i requires 0 <= i < |q| => table[q[i]])
  }

  ghost predicate Sorted(p: seq<nat>) {
    forall i, k :: 0 <= i < k < |p| ==> p[i] <= p[k]
  }

  /** Place `i` is behind all that are no less urgent than `pri` and before all that are less. */
  ghost predicate PlaceFor(p: seq<nat>, pri: nat, i: nat) {
    && i <= |p| && (forall k :: 0 <= k < i ==> p[k] <= pri)
    && (forall k :: i <= k < |p| ==> pri < p[k])
  }

  lemma PutSorted(p: seq<nat>, pri: nat, i: nat)
    requires Sorted(p) && PlaceFor(p, pri, i)
    ensures Sorted(InsertAt(p, i, pri))
  {
  }

  lemma CutSorted(p: seq<nat>, i: nat)
    requires Sorted(p) && i < |p|
    ensures Sorted(RemoveAt(p, i))
  {
  }

  /** The search of `queue_insert_tpri`. */
  method QueueInsertTpri(p: seq<nat>, pri: nat) returns (i: nat)
    requires Sorted(p)
    ensures PlaceFor(p, pri, i)
  {
    i := 0;
    while i < |p|
      invariant i <= |p| && forall k :: 0 <= k < i ==> p[k] <= pri
    {
      if p[i] > pri {
        break;
      }
      i := i + 1;
    }
  }

  /** `gcb_top_of_wait_queue`: whether a task of priority `pri` would be first. */
  predicate WouldBeFirst<T>(tpri: bool, q: seq<Entry<T>>, pri: nat) {
    q == [] || (tpri && pri < q[0].pri)
  }

  /** A queue by priority is sorted. */
  ghost predicate InTurn<T>(tpri: bool, q: seq<Entry<T>>) {
    tpri ==> Sorted(Pris(q))
  }

  /** `q'` is `q` with `e` where it is due. */
  ghost predicate Joined<T>(tpri: bool, q: seq<Entry<T>>, q': seq<Entry<T>>, e: Entry<T>) {
    if tpri then exists i :: PlaceFor(Pris(q), e.pri, i) && q' == InsertAt(q, i, e) else q' == q + [e]
  }

  /** `QueInsert` or `queue_insert_tpri`. */
  method Join<T>(tpri: bool, q: seq<Entry<T>>, e: Entry<T>) returns (r: seq<Entry<T>>)
    requires InTurn(tpri, q)
    ensures Joined(tpri, q, r, e) && InTurn(tpri, r)
    ensures r != [] && r[0] == (if WouldBeFirst(tpri, q, e.pri) then e else q[0])
    ensures forall x :: x in r <==> x in q || x == e
  {
    if tpri {
      var i := QueueInsertTpri(Pris(q), e.pri);
      r := InsertAt(q, i, e);
      InsertHas(q, i, e);
      PutSorted(Pris(q), e.pri, i);
      assert Pris(r) == InsertAt(Pris(q), i, e.pri);
    } else {
      r := q + [e];
    }
  }

  /** A queue one of whose tasks has gone. */
  lemma CutInTurn<T>(tpri: bool, q: seq<Entry<T>>, i: nat)
    requires InTurn(tpri, q) && i < |q|
    ensures InTurn(tpri, RemoveAt(q, i))
  {
    if tpri {
      CutSorted(Pris(q), i);
      assert Pris(RemoveAt(q, i)) == RemoveAt(Pris(q), i);
    }
  }

  /** A queue whose first tasks have gone. */
  lemma LaterInTurn<T>(tpri: bool, q: seq<Entry<T>>, n: nat)
    requires InTurn(tpri, q) && n <= |q|
    ensures InTurn(tpri, q[n..])
  {
    if tpri {
      assert Pris(q[n..]) == Pris(q)[n..];
    }
  }
}
