/** Event flags: tasks wait for a pattern of bits.  Patterns are sets of bit numbers. */
module EventFlags {
  import opened Tasks
  import opened Sequences
  import W = WaitQueues

  /** A waiting task, what it waits for and how (`TWF_ORW`, `TWF_BITCLR`, `TWF_CLR`). */
  datatype Waiter = Waiter(task: Task, waiptn: set<nat>, orw: bool, bitclr: bool, clr: bool)

  /** `eventflag_cond`. */
  predicate Cond(ptn: set<nat>, w: Waiter) {
    if w.orw then ptn * w.waiptn != {} else ptn * w.waiptn == w.waiptn
  }

  /** The pattern after `w` has been released. */
  function Consumed(ptn: set<nat>, w: Waiter): set<nat> {
    if w.clr then {} else if w.bitclr then ptn - w.waiptn else ptn
  }

  /** Whether the search ends with the release of `w`. */
  predicate Ends(ptn: set<nat>, w: Waiter) {
    w.clr || (w.bitclr && ptn - w.waiptn == {})
  }

  /** Who is left, the pattern that is left, and who is released with which pattern. */
  datatype Sweep = Sweep(left: seq<Waiter>, ptn: set<nat>, released: seq<(Waiter, set<nat>)>)

  function Swept(queue: seq<Waiter>, ptn: set<nat>): Sweep {
    if queue == [] then Sweep([], ptn, [])
    else if !Cond(ptn, queue[0]) then
      var r := Swept(queue[1..], ptn);
      r.(left := [queue[0]] + r.left)
    else if Ends(ptn, queue[0]) then
      Sweep(queue[1..], Consumed(ptn, queue[0]), [(queue[0], ptn)])
    else
      var r := Swept(queue[1..], Consumed(ptn, queue[0]));
      r.(released := [(queue[0], ptn)] + r.released)
  }

  /** Everybody waits for something, and nobody for what is already there. */
  ghost predicate Quiet(queue: seq<Waiter>, ptn: set<nat>) {
    forall w :: w in queue ==> w.waiptn != {} && !Cond(ptn, w)
  }

  lemma FewerBits(ptn: set<nat>, ptn': set<nat>, w: Waiter)
    requires ptn' <= ptn && !Cond(ptn, w) && w.waiptn != {}
    ensures !Cond(ptn', w)
  {
    if !w.orw {
      var b :| b in w.waiptn && b !in ptn;
      assert b !in ptn' * w.waiptn;
    }
  }

  lemma {:induction false} SweptShrinks(queue: seq<Waiter>, ptn: set<nat>)
    ensures Swept(queue, ptn).ptn <= ptn
    ensures forall w :: w in Swept(queue, ptn).left ==> w in queue
  {
    if queue != [] {
      SweptShrinks(queue[1..], ptn);
      SweptShrinks(queue[1..], Consumed(ptn, queue[0]));
    }
  }

  /** Whatever was waiting, nobody is left who could be released: stopping early, at the
      empty pattern, and going on after bits were taken away, are both right. */
  lemma {:induction false} SweptIsQuiet(queue: seq<Waiter>, ptn: set<nat>)
    requires forall w :: w in queue ==> w.waiptn != {}
    ensures Quiet(Swept(queue, ptn).left, Swept(queue, ptn).ptn)
  {
    if queue != [] {
      var w := queue[0];
      if !Cond(ptn, w) {
        SweptIsQuiet(queue[1..], ptn);
        SweptShrinks(queue[1..], ptn);
        FewerBits(ptn, Swept(queue[1..], ptn).ptn, w);
      } else if Ends(ptn, w) {
        assert Consumed(ptn, w) == {};
        forall v | v in queue[1..] ensures v.waiptn != {} && !Cond({}, v) {
          assert {} * v.waiptn == {};
        }
      } else {
        SweptIsQuiet(queue[1..], Consumed(ptn, w));
      }
    }
  }

  /** Nobody is lost: each waiter is released, with a pattern that meets its condition, or
      left. */
  lemma {:induction false} SweptKeepsAll(queue: seq<Waiter>, ptn: set<nat>)
    ensures multiset(queue) == multiset(Swept(queue, ptn).left) + multiset(Woken(Swept(queue, ptn).released))
    ensures forall p :: p in Swept(queue, ptn).released ==> Cond(p.1, p.0) && p.1 <= ptn
  {
    if queue != [] {
      var w := queue[0];
      assert queue == [w] + queue[1..];
      if !Cond(ptn, w) {
        SweptKeepsAll(queue[1..], ptn);
      } else if Ends(ptn, w) {
        assert Woken([(w, ptn)]) == [w];
      } else {
        SweptKeepsAll(queue[1..], Consumed(ptn, w));
        var r := Swept(queue[1..], Consumed(ptn, w)).released;
        assert Woken([(w, ptn)] + r) == [w] + Woken(r);
      }
    }
  }

  /* ---- The sweep in terms of bits. ---- */

  lemma CondMeans(ptn: set<nat>, w: Waiter)
    ensures w.orw ==> (Cond(ptn, w) <==> exists b :: b in w.waiptn && b in ptn)
    ensures !w.orw ==> (Cond(ptn, w) <==> w.waiptn <= ptn)
  {
    if w.orw {
      if Cond(ptn, w) {
        var b :| b in ptn * w.waiptn;
      } else {
        assert forall b :: b in w.waiptn && b in ptn ==> b in ptn * w.waiptn;
      }
    }
  }

  /** The pattern `start` without the bits that the first `n` released tasks took. */
  ghost predicate BitsLeft(start: set<nat>, released: seq<(Waiter, set<nat>)>, n: nat, ptn: set<nat>)
    requires n <= |released|
  {
    forall b :: b in ptn <==>
      b in start && forall j :: 0 <= j < n && released[j].0.bitclr ==> b !in released[j].0.waiptn
  }

  /** Every released task saw the bits that those before it had left; one that clears all was
      the last, and left none. */
  ghost predicate Patterns(start: set<nat>, released: seq<(Waiter, set<nat>)>, end: set<nat>) {
    && (forall i :: 0 <= i < |released| ==> BitsLeft(start, released, i, released[i].1))
    && (forall i :: 0 <= i < |released| && released[i].0.clr ==> i == |released| - 1 && end == {})
    && ((forall i :: 0 <= i < |released| ==> !released[i].0.clr) ==> BitsLeft(start, released, |released|, end))
  }

  ghost predicate Rising(p: seq<nat>) {
    forall i, k :: 0 <= i < k < |p| ==> p[i] < p[k]
  }

  /** Places `pos` and `rest` part the queue, each in its order. */
  ghost predicate Parted(n: nat, pos: seq<nat>, rest: seq<nat>) {
    && Rising(pos) && Rising(rest) && (forall k :: k in pos || k in rest ==> k < n)
    && forall k: nat :: k < n ==> (k in pos <==> k !in rest)
  }

  /** The pattern when `n` tasks have been released. */
  function PatternAt(released: seq<(Waiter, set<nat>)>, end: set<nat>, n: nat): set<nat> {
    if n < |released| then released[n].1 else end
  }

  /** The first `n` released tasks stood before place `k`, the others behind it. */
  ghost predicate Turn(pos: seq<nat>, k: nat, n: nat) {
    n <= |pos| && (forall j :: 0 <= j < n ==> pos[j] < k) && forall j :: n <= j < |pos| ==> k < pos[j]
  }

  /** The released tasks stood at `pos` and met their condition, the others stand at `rest`. */
  ghost predicate Stood(queue: seq<Waiter>, r: Sweep, pos: seq<nat>, rest: seq<nat>) {
    && |pos| == |r.released| && |rest| == |r.left|
    && (forall i :: 0 <= i < |pos| ==> pos[i] < |queue| && r.released[i].0 == queue[pos[i]])
    && (forall i :: 0 <= i < |rest| ==> rest[i] < |queue| && r.left[i] == queue[rest[i]])
    && (forall i :: 0 <= i < |r.released| ==> Matches(r.released[i].0, r.released[i].1))
  }

  /** Those left had no match in what there was when it was their turn. */
  ghost predicate NoneMissed(queue: seq<Waiter>, r: Sweep, pos: seq<nat>, rest: seq<nat>) {
    forall k: nat, n: nat :: k in rest && k < |queue| && Turn(pos, k, n) ==>
      !Matches(queue[k], PatternAt(r.released, r.ptn, n))
  }

  /** The tasks of the queue come up one after the other. */
  ghost predicate InTurn(queue: seq<Waiter>, start: set<nat>, r: Sweep, pos: seq<nat>, rest: seq<nat>) {
    && Parted(|queue|, pos, rest) && Stood(queue, r, pos, rest)
    && Patterns(start, r.released, r.ptn) && NoneMissed(queue, r, pos, rest)
  }

  /** All bits, or with TWF_ORW some bit, of what `w` waits for. */
  ghost predicate Matches(w: Waiter, ptn: set<nat>) {
    if w.orw then exists b :: b in w.waiptn && b in ptn else w.waiptn <= ptn
  }

  function Shifted(p: seq<nat>): (r: seq<nat>)
    ensures |r| == |p| && forall i :: 0 <= i < |p| ==> r[i] == p[i] + 1
  {
    seq(|p|, i requires 0 <= i < |p| => p[i] + 1)
  }

  lemma ShiftedHas(p: seq<nat>, k: nat)
    ensures k in Shifted(p) <==> k > 0 && k - 1 in p
  {
    if k > 0 && k - 1 in p {
      var i :| 0 <= i < |p| && p[i] == k - 1;
      assert Shifted(p)[i] == k;
    }
  }

  lemma PartedMore(n: nat, pos: seq<nat>, rest: seq<nat>)
    requires Parted(n, pos, rest)
    ensures Parted(n + 1, [0] + Shifted(pos), Shifted(rest)) && Parted(n + 1, Shifted(pos), [0] + Shifted(rest))
  {
    forall k: nat
      ensures (k in Shifted(pos) <==> k > 0 && k - 1 in pos) && (k in Shifted(rest) <==> k > 0 && k - 1 in rest)
    {
      ShiftedHas(pos, k);
      ShiftedHas(rest, k);
    }
  }

  /** The sweep lets the tasks of the queue come up in turn. */
  lemma {:induction false} SweptInTurn(queue: seq<Waiter>, ptn: set<nat>) returns (pos: seq<nat>, rest: seq<nat>)
    requires forall w :: w in queue ==> w.waiptn != {}
    ensures InTurn(queue, ptn, Swept(queue, ptn), pos, rest)
  {
    if queue == [] {
      pos, rest := [], [];
    } else {
      CondMeans(ptn, queue[0]);
      if !Cond(ptn, queue[0]) {
        pos, rest := SweptInTurn(queue[1..], ptn);
        PassedOver(queue, ptn, Swept(queue[1..], ptn), pos, rest);
        pos, rest := Shifted(pos), [0] + Shifted(rest);
      } else if Ends(ptn, queue[0]) {
        pos, rest := [0], seq(|queue| - 1, i requires 0 <= i < |queue| - 1 => i + 1);
        EndedWith(queue, ptn, rest);
      } else {
        pos, rest := SweptInTurn(queue[1..], Consumed(ptn, queue[0]));
        LetGo(queue, ptn, Swept(queue[1..], Consumed(ptn, queue[0])), pos, rest);
        pos, rest := [0] + Shifted(pos), Shifted(rest);
      }
    }
  }

  /** The first task is left. */
  lemma PassedOver(queue: seq<Waiter>, ptn: set<nat>, r: Sweep, pos: seq<nat>, rest: seq<nat>)
    requires queue != [] && InTurn(queue[1..], ptn, r, pos, rest) && !Matches(queue[0], ptn)
    ensures InTurn(queue, ptn, r.(left := [queue[0]] + r.left), Shifted(pos), [0] + Shifted(rest))
  {
    hide Matches, Patterns, Parted, NoneMissed;
    PartedMore(|queue| - 1, pos, rest);
    FirstSees(ptn, r.released, r.ptn);
    FirstPassed(queue, ptn, r, pos, rest);
  }

  lemma FirstPassed(queue: seq<Waiter>, ptn: set<nat>, r: Sweep, pos: seq<nat>, rest: seq<nat>)
    requires queue != [] && NoneMissed(queue[1..], r, pos, rest) && !Matches(queue[0], ptn)
    requires PatternAt(r.released, r.ptn, 0) == ptn
    ensures NoneMissed(queue, r.(left := [queue[0]] + r.left), Shifted(pos), [0] + Shifted(rest))
  {
    hide Matches;
    var pos', rest' := Shifted(pos), [0] + Shifted(rest);
    assert pos' != [] ==> pos'[0] > 0;
    forall k: nat, n: nat | k in rest' && k < |queue| && Turn(pos', k, n)
      ensures !Matches(queue[k], PatternAt(r.released, r.ptn, n))
    {
      if k > 0 {
        ShiftedHas(rest, k);
        assert Turn(pos, k - 1, n);
      }
    }
  }

  lemma FirstSees(start: set<nat>, released: seq<(Waiter, set<nat>)>, end: set<nat>)
    requires Patterns(start, released, end)
    ensures PatternAt(released, end, 0) == start
  {
    assert forall b :: b in PatternAt(released, end, 0) <==> b in start;
  }

  /** The first task is released, and others after it. */
  lemma LetGo(queue: seq<Waiter>, ptn: set<nat>, r: Sweep, pos: seq<nat>, rest: seq<nat>)
    requires queue != [] && InTurn(queue[1..], Consumed(ptn, queue[0]), r, pos, rest)
    requires Matches(queue[0], ptn) && !Ends(ptn, queue[0])
    ensures InTurn(queue, ptn, r.(released := [(queue[0], ptn)] + r.released), [0] + Shifted(pos), Shifted(rest))
  {
    hide Matches, Patterns, Parted, NoneMissed;
    PartedMore(|queue| - 1, pos, rest);
    MorePatterns(ptn, queue[0], r.released, r.ptn);
    OneReleased(queue, (queue[0], ptn), r, pos, rest);
  }

  lemma OneReleased(queue: seq<Waiter>, first: (Waiter, set<nat>), r: Sweep, pos: seq<nat>, rest: seq<nat>)
    requires queue != [] && NoneMissed(queue[1..], r, pos, rest)
    ensures NoneMissed(queue, r.(released := [first] + r.released), [0] + Shifted(pos), Shifted(rest))
  {
    hide Matches;
    var pos', rest', rel := [0] + Shifted(pos), Shifted(rest), [first] + r.released;
    assert pos'[0] == 0;
    forall k: nat, n: nat | k in rest' && k < |queue| && Turn(pos', k, n)
      ensures !Matches(queue[k], PatternAt(rel, r.ptn, n))
    {
      ShiftedHas(rest, k);
      LaterTurn(pos, k, n);
      assert PatternAt(rel, r.ptn, n) == PatternAt(r.released, r.ptn, n - 1);
    }
  }

  lemma LaterTurn(pos: seq<nat>, k: nat, n: nat)
    requires Turn([0] + Shifted(pos), k, n) && n > 0 && k > 0
    ensures Turn(pos, k - 1, n - 1)
  {
    var p := [0] + Shifted(pos);
    assert forall j :: 0 <= j < |pos| ==> p[j + 1] == pos[j] + 1;
  }

  lemma MorePatterns(ptn: set<nat>, w: Waiter, released: seq<(Waiter, set<nat>)>, end: set<nat>)
    requires Patterns(Consumed(ptn, w), released, end) && !Ends(ptn, w)
    ensures Patterns(ptn, [(w, ptn)] + released, end)
  {
    hide BitsLeft;
    var rel := [(w, ptn)] + released;
    forall i | 0 <= i < |rel| ensures BitsLeft(ptn, rel, i, rel[i].1) {
      if i == 0 {
        NoBitsYet(ptn, rel);
      } else {
        MoreBits(ptn, w, released, i - 1, released[i - 1].1);
      }
    }
    if forall i :: 0 <= i < |rel| ==> !rel[i].0.clr {
      assert forall i :: 0 <= i < |released| ==> released[i] == rel[i + 1];
      MoreBits(ptn, w, released, |released|, end);
    }
  }

  lemma NoBitsYet(start: set<nat>, released: seq<(Waiter, set<nat>)>)
    ensures BitsLeft(start, released, 0, start)
  {
  }

  lemma MoreBits(ptn: set<nat>, w: Waiter, released: seq<(Waiter, set<nat>)>, i: nat, p: set<nat>)
    requires i <= |released| && BitsLeft(Consumed(ptn, w), released, i, p) && !w.clr
    ensures BitsLeft(ptn, [(w, ptn)] + released, i + 1, p)
  {
    var rel := [(w, ptn)] + released;
    forall b ensures b in p <==> b in ptn && forall j :: 0 <= j < i + 1 && rel[j].0.bitclr ==> b !in rel[j].0.waiptn {
      if forall j :: 0 <= j < i + 1 && rel[j].0.bitclr ==> b !in rel[j].0.waiptn {
        assert rel[0].0 == w;
        assert forall j :: 0 <= j < i ==> released[j] == rel[j + 1];
      }
    }
  }

  lemma LastPattern(ptn: set<nat>, w: Waiter)
    requires Ends(ptn, w)
    ensures Consumed(ptn, w) == {} && Patterns(ptn, [(w, ptn)], {})
  {
    var rel := [(w, ptn)];
    assert BitsLeft(ptn, rel, 0, ptn);
    if w.clr {
      assert rel[0].0.clr;
    } else {
      forall b | b in ptn ensures exists j :: 0 <= j < 1 && rel[j].0.bitclr && b in rel[j].0.waiptn {
        assert b !in ptn - w.waiptn;
        assert rel[0].0.bitclr && b in rel[0].0.waiptn;
      }
      assert BitsLeft(ptn, rel, 1, {});
    }
  }

  /** The first task ends the search. */
  lemma EndedWith(queue: seq<Waiter>, ptn: set<nat>, rest: seq<nat>)
    requires queue != [] && Matches(queue[0], ptn) && Ends(ptn, queue[0]) && forall w :: w in queue ==> w.waiptn != {}
    requires |rest| == |queue| - 1 && forall i :: 0 <= i < |rest| ==> rest[i] == i + 1
    ensures InTurn(queue, ptn, Sweep(queue[1..], Consumed(ptn, queue[0]), [(queue[0], ptn)]), [0], rest)
  {
    forall k: nat | 0 < k < |queue| ensures k in rest {
      assert rest[k - 1] == k;
    }
    forall k | 0 <= k < |queue| ensures !Matches(queue[k], {}) {
      assert queue[k] in queue;
    }
    var pos: seq<nat> := [0];
    assert pos[0] == 0;
    forall k: nat, n: nat | k in rest && Turn(pos, k, n) ensures n == 1 {
    }
    LastPattern(ptn, queue[0]);
  }

  function Woken(released: seq<(Waiter, set<nat>)>): (r: seq<Waiter>)
    ensures |r| == |released|
  {
    if released == [] then [] else [released[0].0] + Woken(released[1..])
  }

  /** The outcome of the search from place `i` on, after `released`. */
  function Sofar(queue: seq<Waiter>, i: nat, ptn: set<nat>, released: seq<(Waiter, set<nat>)>): Sweep
    requires i <= |queue|
  {
    var r := Swept(queue[i..], ptn);
    Sweep(queue[..i] + r.left, r.ptn, released + r.released)
  }

  /** What is done about the waiter at place `i`. */
  lemma SweptAt(queue: seq<Waiter>, i: nat, ptn: set<nat>, released: seq<(Waiter, set<nat>)>)
    requires i < |queue|
    ensures var w, rest := queue[i], queue[..i] + queue[i + 1..];
            Sofar(queue, i, ptn, released) ==
              if !Cond(ptn, w) then Sofar(queue, i + 1, ptn, released)
              else if Ends(ptn, w) then Sweep(rest, Consumed(ptn, w), released + [(w, ptn)])
              else Sofar(rest, i, Consumed(ptn, w), released + [(w, ptn)])
  {
    var w, rest := queue[i], queue[..i] + queue[i + 1..];
    assert queue[i..][0] == w && queue[i..][1..] == queue[i + 1..];
    assert rest[..i] == queue[..i] && rest[i..] == queue[i + 1..];
    assert queue[..i + 1] == queue[..i] + [w];
    if !Cond(ptn, w) {
      var r := Swept(queue[i + 1..], ptn);
      assert queue[..i] + ([w] + r.left) == queue[..i + 1] + r.left;
    } else if !Ends(ptn, w) {
      var r := Swept(queue[i + 1..], Consumed(ptn, w));
      assert released + ([(w, ptn)] + r.released) == released + [(w, ptn)] + r.released;
    }
  }

  lemma SweptAll(queue: seq<Waiter>, i: nat, ptn: set<nat>, released: seq<(Waiter, set<nat>)>)
    ensures i == |queue| ==> Sofar(queue, i, ptn, released) == Sweep(queue, ptn, released)
  {
    assert queue[..|queue|] == queue && queue[|queue|..] == [];
  }

  ghost predicate SomeTurns(queue: seq<Waiter>, start: set<nat>, r: Sweep) {
    exists pos, rest :: InTurn(queue, start, r, pos, rest)
  }

  /** Each released task found all the bits it waited for, or with TWF_ORW some of them; each
      task that is left misses one, or with TWF_ORW all. */
  ghost predicate BitByBit(r: Sweep) {
    && (forall i :: 0 <= i < |r.released| && !r.released[i].0.orw ==> r.released[i].0.waiptn <= r.released[i].1)
    && (forall i :: 0 <= i < |r.released| && r.released[i].0.orw ==>
          exists b :: b in r.released[i].0.waiptn && b in r.released[i].1)
    && (forall w :: w in r.left && !w.orw ==> exists b :: b in w.waiptn && b !in r.ptn)
    && (forall w :: w in r.left && w.orw ==> w.waiptn !! r.ptn)
  }

  lemma NonEmpty(queue: seq<Waiter>, ptn: set<nat>)
    requires Quiet(queue, ptn)
    ensures forall w :: w in queue ==> w.waiptn != {}
  {
  }

  /** What a sweep leaves and releases. */
  lemma SweptMeans(queue: seq<Waiter>, ptn: set<nat>)
    requires forall w :: w in queue ==> w.waiptn != {}
    ensures var r := Swept(queue, ptn);
            SomeTurns(queue, ptn, r) && Quiet(r.left, r.ptn) && BitByBit(r)
  {
    hide Swept;
    SweptIsQuiet(queue, ptn);
    var pos, rest := SweptInTurn(queue, ptn);
    var r := Swept(queue, ptn);
    forall w | w in r.left ensures if w.orw then w.waiptn !! r.ptn else exists b :: b in w.waiptn && b !in r.ptn {
      CondMeans(r.ptn, w);
    }
    forall i | 0 <= i < |r.released| ensures Matches(r.released[i].0, r.released[i].1) {
    }
  }

  /* ---- The order of the queue. ---- */

  ghost predicate Known(queue: seq<Waiter>, table: seq<nat>) {
    forall i :: 0 <= i < |queue| ==> queue[i].task < |table|
  }

  /** The priorities of the waiting tasks, `table` being those of all tasks. */
  function PrisAt(queue: seq<Waiter>, table: seq<nat>): (p: seq<nat>)
    requires Known(queue, table)
    ensures |p| == |queue| && forall i :: 0 <= i < |p| ==> p[i] == table[queue[i].task]
  {
    seq(|queue|, i requires 0 <= i < |queue| => table[queue[i].task])
  }

  /** No task twice, and the queue of an event flag with TA_TPRI is sorted by priority. */
  ghost predicate Ordered(tpri: bool, queue: seq<Waiter>, table: seq<nat>) {
    && Known(queue, table) && (forall i, k :: 0 <= i < k < |queue| ==> queue[i].task != queue[k].task)
    && (tpri ==> W.Sorted(PrisAt(queue, table)))
  }

  /** `q'` is `q` with `w` last, or where its priority puts it. */
  ghost predicate Joined(tpri: bool, q: seq<Waiter>, q': seq<Waiter>, w: Waiter, table: seq<nat>) {
    && Known(q, table) && w.task < |table|
    && if tpri then exists i :: W.PlaceFor(PrisAt(q, table), table[w.task], i) && q' == InsertAt(q, i, w)
       else q' == q + [w]
  }

  /** `gcb_make_wait`: `QueInsert` or `queue_insert_tpri`. */
  method Join(tpri: bool, q: seq<Waiter>, w: Waiter, table: seq<nat>) returns (r: seq<Waiter>)
    requires Ordered(tpri, q, table) && w.task < |table| && forall i :: 0 <= i < |q| ==> q[i].task != w.task
    ensures Joined(tpri, q, r, w, table) && Ordered(tpri, r, table) && forall x :: x in r <==> x in q || x == w
  {
    hide W.Sorted, W.PlaceFor;
    if tpri {
      var i := W.QueueInsertTpri(PrisAt(q, table), table[w.task]);
      r := InsertAt(q, i, w);
      InsertHas(q, i, w);
      PutOrdered(q, i, w, table);
    } else {
      r := q + [w];
    }
  }

  lemma PutOrdered(q: seq<Waiter>, i: nat, w: Waiter, table: seq<nat>)
    requires Ordered(true, q, table) && w.task < |table| && forall k :: 0 <= k < |q| ==> q[k].task != w.task
    requires W.PlaceFor(PrisAt(q, table), table[w.task], i) && i <= |q|
    ensures Ordered(true, InsertAt(q, i, w), table)
  {
    W.PutSorted(PrisAt(q, table), table[w.task], i);
    assert PrisAt(InsertAt(q, i, w), table) == InsertAt(PrisAt(q, table), i, table[w.task]);
  }

  lemma CutOrdered(tpri: bool, q: seq<Waiter>, i: nat, table: seq<nat>)
    requires Ordered(tpri, q, table) && i < |q|
    ensures Ordered(tpri, RemoveAt(q, i), table)
  {
    assert tpri ==> PrisAt(RemoveAt(q, i), table) == RemoveAt(PrisAt(q, table), i);
  }

  /** Whoever is left keeps the order. */
  lemma {:induction false} SweptOrdered(tpri: bool, queue: seq<Waiter>, ptn: set<nat>, table: seq<nat>)
    requires Ordered(tpri, queue, table)
    ensures Ordered(tpri, Swept(queue, ptn).left, table)
  {
    if queue != [] {
      assert queue[1..] == RemoveAt(queue, 0);
      CutOrdered(tpri, queue, 0, table);
      SweptOrdered(tpri, queue[1..], ptn, table);
      SweptOrdered(tpri, queue[1..], Consumed(ptn, queue[0]), table);
      SweptShrinks(queue[1..], ptn);
      FirstStays(tpri, queue, Swept(queue[1..], ptn).left, table);
    }
  }

  lemma FirstStays(tpri: bool, queue: seq<Waiter>, left: seq<Waiter>, table: seq<nat>)
    requires Ordered(tpri, queue, table) && queue != [] && Ordered(tpri, left, table)
    requires forall w :: w in left ==> w in queue[1..]
    ensures Ordered(tpri, [queue[0]] + left, table)
  {
    var q := [queue[0]] + left;
    forall i, k | 0 <= i < k < |q|
      ensures q[i].task != q[k].task && (tpri ==> table[q[i].task] <= table[q[k].task])
    {
      if i == 0 {
        assert left[k - 1] in queue[1..];
        var n :| 1 <= n < |queue| && queue[n] == left[k - 1];
        assert tpri ==> PrisAt(queue, table)[0] <= PrisAt(queue, table)[n];
      } else {
        assert tpri ==> PrisAt(left, table)[i - 1] <= PrisAt(left, table)[k - 1];
      }
    }
  }

  /** A task that is not in the queue may have any priority. */
  lemma OtherPriority(tpri: bool, q: seq<Waiter>, table: seq<nat>, t: Task, p: nat)
    requires Ordered(tpri, q, table) && t < |table| && forall i :: 0 <= i < |q| ==> q[i].task != t
    ensures Ordered(tpri, q, table[t := p])
  {
    assert PrisAt(q, table[t := p]) == PrisAt(q, table);
  }

  datatype FlgErcd = E_PAR | E_OBJ | E_TMOUT

  datatype FlgResult = GotFlg(flgptn: set<nat>) | FlgWaits | FlgError(ercd: FlgErcd)

  class EventFlag {
    /* The attributes TA_TPRI and TA_WMUL. */
    const tpri: bool
    const wmul: bool
    var flgptn: set<nat>
    var queue: seq<Waiter>
    /** The column of priorities of the task control blocks. */
    var priority: seq<nat>

    ghost predicate Valid()
      reads this
    {
      Quiet(queue, flgptn) && Ordered(tpri, queue, priority)
    }

    constructor (iflgptn: set<nat>, tpri: bool, wmul: bool, priority: seq<nat>)
      ensures Valid() && flgptn == iflgptn && queue == []
      ensures this.tpri == tpri && this.wmul == wmul && this.priority == priority
    {
      flgptn, queue := iflgptn, [];
      this.tpri, this.wmul, this.priority := tpri, wmul, priority;
    }

    /** `_tk_set_flg`. */
    method SetFlg(setptn: set<nat>) returns (released: seq<(Waiter, set<nat>)>)
      requires Valid()
      modifies this`queue, this`flgptn
      ensures Valid()
      ensures Sweep(queue, flgptn, released) == Swept(old(queue), old(flgptn) + setptn)
      ensures SomeTurns(old(queue), old(flgptn) + setptn, Sweep(queue, flgptn, released))
      ensures BitByBit(Sweep(queue, flgptn, released))
    {
      hide Swept, SomeTurns, Ordered, Quiet, BitByBit, Cond;
      NonEmpty(queue, flgptn);
      flgptn := flgptn + setptn;
      released := [];
      ghost var all := Swept(queue, flgptn);
      SweptMeans(queue, flgptn);
      SweptOrdered(tpri, queue, flgptn, priority);
      var i := 0;
      assert queue[0..] == queue;
      while i < |queue|
        invariant i <= |queue| && all == Sofar(queue, i, flgptn, released)
        decreases |queue| - i
      {
        var tcb := queue[i];
        SweptAt(queue, i, flgptn, released);
        if Cond(flgptn, tcb) {
          released := released + [(tcb, flgptn)];
          queue := queue[..i] + queue[i + 1..];
          if tcb.bitclr {
            flgptn := flgptn - tcb.waiptn;
            if flgptn == {} {
              break;
            }
          }
          if tcb.clr {
            flgptn := {};
            break;
          }
        } else {
          i := i + 1;
        }
      }
      SweptAll(queue, i, flgptn, released);
    }

    /** `_tk_clr_flg`. */
    method ClrFlg(clrptn: set<nat>)
      requires Valid()
      modifies this`flgptn
      ensures Valid() && flgptn == old(flgptn) * clrptn
    {
      forall w | w in queue ensures !Cond(flgptn * clrptn, w) {
        FewerBits(flgptn, flgptn * clrptn, w);
      }
      flgptn := flgptn * clrptn;
    }

    /** `_tk_wai_flg`, called by task `w.task`. */
    method WaiFlg(w: Waiter, poll: bool) returns (r: FlgResult)
      requires Valid() && w.task < |priority| && forall i :: 0 <= i < |queue| ==> queue[i].task != w.task
      modifies this`queue, this`flgptn
      ensures Valid()
      ensures r == FlgError(E_PAR) <==> w.waiptn == {}
      ensures r == FlgError(E_OBJ) <==> w.waiptn != {} && !wmul && old(queue) != []
      ensures !(r == FlgError(E_PAR) || r == FlgError(E_OBJ)) && !w.orw ==> (r.GotFlg? <==> w.waiptn <= old(flgptn))
      ensures !(r == FlgError(E_PAR) || r == FlgError(E_OBJ)) && w.orw ==>
                (r.GotFlg? <==> exists b :: b in w.waiptn && b in old(flgptn))
      ensures r.GotFlg? ==> r.flgptn == old(flgptn) && queue == old(queue)
      ensures r.GotFlg? ==> flgptn == if w.clr then {} else if w.bitclr then old(flgptn) - w.waiptn else old(flgptn)
      ensures r.FlgWaits? ==> !poll && flgptn == old(flgptn) && Joined(tpri, old(queue), queue, w, priority)
      ensures r.FlgError? ==> flgptn == old(flgptn) && queue == old(queue)
      ensures r == FlgError(E_TMOUT) ==> poll
    {
      if w.waiptn == {} {
        return FlgError(E_PAR);
      }
      if !wmul && queue != [] {
        return FlgError(E_OBJ);
      }
      CondMeans(flgptn, w);
      if Cond(flgptn, w) {
        r := GotFlg(flgptn);
        forall v | v in queue ensures !Cond(Consumed(flgptn, w), v) {
          FewerBits(flgptn, Consumed(flgptn, w), v);
        }
        if w.bitclr {
          flgptn := flgptn - w.waiptn;
        }
        if w.clr {
          flgptn := {};
        }
      } else if poll {
        r := FlgError(E_TMOUT);
      } else {
        r := FlgWaits;
        queue := Join(tpri, queue, w, priority);
      }
    }

    /** `flg_chg_pri`, after the task at place `i` got priority `p`. */
    method ChgPri(i: nat, p: nat)
      requires Valid() && tpri && i < |queue|
      modifies this`queue, this`priority
      ensures Valid() && priority == old(priority[queue[i].task := p])
      ensures Joined(true, old(RemoveAt(queue, i)), queue, old(queue[i]), priority)
    {
      var tcb := queue[i];
      var q := RemoveAt(queue, i);
      CutOrdered(tpri, queue, i, priority);
      OtherPriority(tpri, q, priority, tcb.task, p);
      priority := priority[tcb.task := p];
      queue := Join(tpri, q, tcb, priority);
    }

    /** A wait ends without the flag: timeout or forced release. */
    method ReleaseWait(i: nat)
      requires Valid() && i < |queue|
      modifies this`queue
      ensures Valid() && queue == old(RemoveAt(queue, i))
    {
      CutOrdered(tpri, queue, i, priority);
      queue := RemoveAt(queue, i);
    }
  }
}
