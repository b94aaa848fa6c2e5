/** `multi_core_assign`: least-degree assignment of the accepted tasks to processors. */
module MultiCore {
  import opened Tasks
  import opened Hall
  import opened Greedy

  /** The working arrays of one assignment round: who may still use what (`top_bit`), how
      many waiting tasks want a processor (`bit_cnt`), and the schedule built so far. */
  datatype Board = Board(masks: seq<set<nat>>, cnt: seq<int>, sch: seq<Option<Task>>)

  function Unsum(cnt: seq<int>, bit: set<nat>): (r: seq<int>)
    ensures |r| == |cnt|
    ensures forall k :: 0 <= k < |cnt| ==> r[k] == if k in bit then cnt[k] - 1 else cnt[k]
  {
    seq(|cnt|, k requires 0 <= k < |cnt| => if k in bit then cnt[k] - 1 else cnt[k])
  }

  /** The board after task slot `i` was given processor `p`. */
  ghost function Given(b: Board, tcb: seq<Option<Task>>, i: nat, p: nat): Board
    requires i < |b.masks| && i < |tcb| && p < |b.sch|
  {
    Board(Without(b.masks, p)[i := {}], Unsum(b.cnt, b.masks[i]), b.sch[p := tcb[i]])
  }

  ghost predicate Edge(b: Board, i: nat, p: nat) {
    i < |b.masks| && p < |b.sch| && p in b.masks[i] && b.sch[p] == None
  }

  /** A pick the loops would make at degree `c`. */
  ghost predicate Candidate(b: Board, c: int, i: nat, p: nat) {
    Edge(b, i, p) && p < |b.cnt| && (b.cnt[p] == c || |b.masks[i]| == c)
  }

  ghost predicate Family(n: nat, m: nat, orig: seq<set<nat>>, tcb: seq<Option<Task>>) {
    && m <= n && |orig| == |tcb| == n
    && (forall i :: 0 <= i < m ==> tcb[i].Some?)
    && (forall i, p :: 0 <= i < n && p in orig[i] ==> p < n)
    && (forall i :: m <= i < n ==> orig[i] == {})
  }

  /** Only processors that the placement uses have a task. */
  ghost predicate Covered(sch: seq<Option<Task>>, pl: map<nat, nat>) {
    forall p :: 0 <= p < |sch| && sch[p].Some? ==> p in pl.Values
  }

  lemma WhoCovers(sch: seq<Option<Task>>, pl: map<nat, nat>, p: nat) returns (k: nat)
    requires Covered(sch, pl) && p < |sch| && sch[p].Some?
    ensures k in pl && pl[k] == p
  {
    k :| k in pl && pl[k] == p;
  }

  /** The schedule holds exactly the tasks that were placed. */
  ghost predicate Scheduled(tcb: seq<Option<Task>>, sch: seq<Option<Task>>, pl: map<nat, nat>) {
    && (forall i :: i in pl ==> i < |tcb| && pl[i] < |sch| && sch[pl[i]] == tcb[i])
    && Covered(sch, pl)
  }

  ghost predicate Remaining(orig: seq<set<nat>>, masks: seq<set<nat>>, pl: map<nat, nat>) {
    && |orig| == |masks|
    && (forall i :: 0 <= i < |orig| ==> masks[i] == if i in pl then {} else orig[i] - pl.Values)
  }

  /** Counts may be stale for processors already given away, never for free ones. */
  ghost predicate Counted(masks: seq<set<nat>>, cnt: seq<int>, pl: map<nat, nat>) {
    forall p :: 0 <= p < |cnt| && p !in pl.Values ==> cnt[p] == |Users(masks, p)|
  }

  /** The board is what is left of the masks `orig` of the first `m` task slots once the
      placement `pl` has been carried out. */
  ghost predicate Progress(n: nat, m: nat, orig: seq<set<nat>>, tcb: seq<Option<Task>>, b: Board, pl: map<nat, nat>) {
    && Family(n, m, orig, tcb) && |b.cnt| == |b.sch| == n
    && pl.Keys <= Upto(m) && Places(orig, pl.Keys, pl)
    && Scheduled(tcb, b.sch, pl)
    && Remaining(orig, b.masks, pl)
    && Counted(b.masks, b.cnt, pl)
  }

  ghost function Rest(m: nat, pl: map<nat, nat>): set<nat> {
    Upto(m) - pl.Keys
  }

  lemma UsersAfter(masks: seq<set<nat>>, t: nat, q: nat, p: nat)
    requires t < |masks| && p != q
    ensures Users(Without(masks, q)[t := {}], p) == Users(masks, p) - {t}
  {
  }

  lemma CountsStay(masks: seq<set<nat>>, cnt: seq<int>, pl: map<nat, nat>, t: nat, q: nat)
    requires Counted(masks, cnt, pl) && t < |masks|
    requires pl[t := q].Values == pl.Values + {q}
    ensures Counted(Without(masks, q)[t := {}], Unsum(cnt, masks[t]), pl[t := q])
  {
    var masks', cnt' := Without(masks, q)[t := {}], Unsum(cnt, masks[t]);
    forall p | 0 <= p < |cnt'| && p !in pl[t := q].Values ensures cnt'[p] == |Users(masks', p)| {
      UsersAfter(masks, t, q, p);
      assert p in masks[t] <==> t in Users(masks, p);
    }
  }

  lemma FreshPair(orig: seq<set<nat>>, pl: map<nat, nat>, t: nat, q: nat)
    requires Places(orig, pl.Keys, pl) && t !in pl && q !in pl.Values
    requires t < |orig| && q in orig[t]
    ensures Places(orig, pl.Keys + {t}, pl[t := q])
    ensures pl[t := q].Values == pl.Values + {q}
    ensures pl[t := q].Keys == pl.Keys + {t}
  {
    var pl' := pl[t := q];
    assert pl'[t] == q;
    forall v | v in pl.Values + {q} ensures v in pl'.Values {
      if v != q {
        var k :| k in pl && pl[k] == v;
        assert pl'[k] == v;
      }
    }
  }

  lemma ScheduleStays(tcb: seq<Option<Task>>, sch: seq<Option<Task>>, pl: map<nat, nat>, t: nat, q: nat)
    requires Scheduled(tcb, sch, pl) && t < |tcb| && q < |sch| && t !in pl && q !in pl.Values
    requires pl[t := q].Values == pl.Values + {q}
    ensures Scheduled(tcb, sch[q := tcb[t]], pl[t := q])
  {
    var pl' := pl[t := q];
    forall i | i in pl' ensures i < |tcb| && pl'[i] < |sch| && sch[q := tcb[t]][pl'[i]] == tcb[i] {
      if i != t {
        assert pl[i] in pl.Values;
      }
    }
  }

  lemma EdgeIsFresh(n: nat, m: nat, orig: seq<set<nat>>, tcb: seq<Option<Task>>, b: Board, pl: map<nat, nat>, t: nat,
                    q: nat)
    requires Progress(n, m, orig, tcb, b, pl) && Edge(b, t, q)
    ensures t in Rest(m, pl) && q < n && q !in pl.Values && q in orig[t] && t < n
  {
  }

  lemma GivenKeepsProgress(n: nat, m: nat, orig: seq<set<nat>>, tcb: seq<Option<Task>>, b: Board, pl: map<nat, nat>,
                           t: nat, q: nat)
    requires Progress(n, m, orig, tcb, b, pl) && Edge(b, t, q)
    ensures t in Rest(m, pl) && t < n && q < n
    ensures Progress(n, m, orig, tcb, Given(b, tcb, t, q), pl[t := q])
  {
    hide Places, Scheduled, Counted, Remaining, Without, Unsum;
    EdgeIsFresh(n, m, orig, tcb, b, pl, t, q);
    FreshPair(orig, pl, t, q);
    CountsStay(b.masks, b.cnt, pl, t, q);
    ScheduleStays(tcb, b.sch, pl, t, q);
    RemainingStays(orig, b.masks, pl, t, q);
  }

  lemma RemainingStays(orig: seq<set<nat>>, masks: seq<set<nat>>, pl: map<nat, nat>, t: nat, q: nat)
    requires Remaining(orig, masks, pl) && t < |masks| && pl[t := q].Values == pl.Values + {q}
    ensures Remaining(orig, Without(masks, q)[t := {}], pl[t := q])
  {
  }

  /** No pick is possible at any degree below `c`. */
  ghost predicate NoneBelow(b: Board, c: int) {
    forall d, i, p :: 1 <= d < c ==> !Candidate(b, d, i, p)
  }

  ghost function Free(n: nat, pl: map<nat, nat>): set<nat> {
    Upto(n) - pl.Values
  }

  lemma WaitsForFree(n: nat, m: nat, orig: seq<set<nat>>, tcb: seq<Option<Task>>, b: Board, pl: map<nat, nat>, i: nat,
                     p: nat)
    requires Progress(n, m, orig, tcb, b, pl) && i < n && p in b.masks[i]
    ensures Edge(b, i, p) && i in Rest(m, pl) && p in Free(n, pl)
  {
  }

  lemma RowDegree(n: nat, m: nat, orig: seq<set<nat>>, tcb: seq<Option<Task>>, b: Board, pl: map<nat, nat>, c: int,
                  i: nat)
    requires Progress(n, m, orig, tcb, b, pl) && HallOn(b.masks, Rest(m, pl))
    requires NoneBelow(b, c) && i in Rest(m, pl)
    ensures |b.masks[i]| >= c
  {
    var mask := b.masks[i];
    assert Reach(b.masks, {i}) == mask;
    assert |{i}| == 1;
    var p :| p in mask;
    WaitsForFree(n, m, orig, tcb, b, pl, i, p);
    if |mask| < c {
      assert Candidate(b, |mask|, i, p);
    }
  }

  lemma ColumnDegree(n: nat, m: nat, orig: seq<set<nat>>, tcb: seq<Option<Task>>, b: Board, pl: map<nat, nat>, c: int,
                     p: nat)
    requires Progress(n, m, orig, tcb, b, pl)
    requires NoneBelow(b, c)
    ensures Users(b.masks, p) == {} || |Users(b.masks, p)| >= c
  {
    if i :| i in Users(b.masks, p) {
      WaitsForFree(n, m, orig, tcb, b, pl, i, p);
      assert b.cnt[p] == |Users(b.masks, p)| >= 1;
      if b.cnt[p] < c {
        assert Candidate(b, b.cnt[p], i, p);
      }
    }
  }

  lemma RestWaits(n: nat, m: nat, orig: seq<set<nat>>, tcb: seq<Option<Task>>, b: Board, pl: map<nat, nat>)
    requires Progress(n, m, orig, tcb, b, pl) && HallOn(b.masks, Rest(m, pl))
    ensures Waiting(b.masks, Rest(m, pl), Free(n, pl))
  {
    forall i, p | 0 <= i < n && p in b.masks[i] ensures i in Rest(m, pl) && p in Free(n, pl) {
      WaitsForFree(n, m, orig, tcb, b, pl, i, p);
    }
  }

  lemma ScanGivesDegrees(n: nat, m: nat, orig: seq<set<nat>>, tcb: seq<Option<Task>>, b: Board, pl: map<nat, nat>,
                         c: int)
    requires Progress(n, m, orig, tcb, b, pl) && HallOn(b.masks, Rest(m, pl))
    requires c >= 1 && NoneBelow(b, c)
    ensures DegreesFrom(b.masks, Rest(m, pl), c)
  {
    forall i | i in Rest(m, pl) ensures |b.masks[i]| >= c {
      RowDegree(n, m, orig, tcb, b, pl, c, i);
    }
    forall p ensures Users(b.masks, p) == {} || |Users(b.masks, p)| >= c {
      ColumnDegree(n, m, orig, tcb, b, pl, c, p);
    }
  }

  lemma CandidateDegree(n: nat, m: nat, orig: seq<set<nat>>, tcb: seq<Option<Task>>, b: Board, pl: map<nat, nat>,
                        c: int, t: nat, q: nat)
    requires Progress(n, m, orig, tcb, b, pl) && Candidate(b, c, t, q)
    ensures |b.masks[t]| == c || |Users(b.masks, q)| == c
  {
    EdgeIsFresh(n, m, orig, tcb, b, pl, t, q);
  }

  /** On up to four processors every pick the loops make leaves the other tasks placeable. */
  lemma PickKeepsHall(n: nat, m: nat, orig: seq<set<nat>>, tcb: seq<Option<Task>>, b: Board, pl: map<nat, nat>,
                      c: int, t: nat, q: nat)
    requires n <= 4 && Progress(n, m, orig, tcb, b, pl) && HallOn(b.masks, Rest(m, pl))
    requires c >= 1 && NoneBelow(b, c) && Candidate(b, c, t, q) && t < n && q < n
    ensures HallOn(Given(b, tcb, t, q).masks, Rest(m, pl[t := q]))
  {
    ghost var masks, R, F := b.masks, Rest(m, pl), Free(n, pl);
    ScanGivesDegrees(n, m, orig, tcb, b, pl, c);
    RestWaits(n, m, orig, tcb, b, pl);
    EdgeIsFresh(n, m, orig, tcb, b, pl, t, q);
    CandidateDegree(n, m, orig, tcb, b, pl, c, t, q);
    SubsetSize(F, Upto(n));
    PickOnMasks(masks, R, F, c, t, q);
    RestAfter(m, pl, t, q);
  }

  lemma RestAfter(m: nat, pl: map<nat, nat>, t: nat, q: nat)
    ensures Rest(m, pl[t := q]) == Rest(m, pl) - {t}
  {
  }

  lemma PickOnMasks(masks: seq<set<nat>>, R: set<nat>, F: set<nat>, c: int, t: nat, q: nat)
    requires Waiting(masks, R, F) && |F| <= 4 && c >= 1 && DegreesFrom(masks, R, c)
    requires t in R && q in masks[t] && (|masks[t]| == c || |Users(masks, q)| == c)
    ensures HallOn(Without(masks, q)[t := {}], R - {t})
  {
    LeastDegreePick(masks, R, F, t, q, c);
    HallIgnores(Without(masks, q), R - {t}, t);
  }

  lemma HallIgnores(masks: seq<set<nat>>, R: set<nat>, t: nat)
    requires HallOn(masks, R) && t !in R && t < |masks|
    ensures HallOn(masks[t := {}], R)
  {
    forall S: set<nat> | S <= R ensures |S| <= |Reach(masks[t := {}], S)| {
      ReachAvoids(masks, t, {}, S);
    }
  }

  /** A scan over all degrees that finds nothing means that everybody has been placed. */
  lemma NothingLeft(n: nat, m: nat, orig: seq<set<nat>>, tcb: seq<Option<Task>>, b: Board, pl: map<nat, nat>)
    requires Progress(n, m, orig, tcb, b, pl) && HallOn(b.masks, Rest(m, pl)) && NoneBelow(b, n + 1)
    ensures pl.Keys == Upto(m)
  {
    forall i | i in Rest(m, pl) ensures false {
      RowDegree(n, m, orig, tcb, b, pl, n + 1, i);
      RestWaits(n, m, orig, tcb, b, pl);
      SubsetSize(b.masks[i], Upto(n));
    }
    NobodyRests(m, pl);
  }

  lemma NobodyRests(m: nat, pl: map<nat, nat>)
    requires pl.Keys <= Upto(m) && forall i :: i !in Rest(m, pl)
    ensures pl.Keys == Upto(m)
  {
    assert forall i :: i in Upto(m) ==> i in Rest(m, pl) || i in pl.Keys;
  }

  ghost function View(topBit: array<set<nat>>, bitCnt: array<int>, sch: array<Option<Task>>): Board
    reads topBit, bitCnt, sch
  {
    Board(topBit[..], bitCnt[..], sch[..])
  }

  method UnsumBits(cnt: array<int>, bit: set<nat>)
    modifies cnt
    ensures cnt[..] == Unsum(old(cnt[..]), bit)
  {
    var k := 0;
    while k < cnt.Length
      invariant 0 <= k <= cnt.Length
      invariant cnt[..k] == Unsum(old(cnt[..]), bit)[..k]
      invariant cnt[k..] == old(cnt[..])[k..]
    {
      if k in bit {
        cnt[k] := cnt[k] - 1;
      }
      k := k + 1;
    }
  }

  method DropBit(bits: array<set<nat>>, no: nat)
    modifies bits
    ensures bits[..] == Without(old(bits[..]), no)
  {
    var k := 0;
    while k < bits.Length
      invariant 0 <= k <= bits.Length
      invariant bits[..k] == Without(old(bits[..]), no)[..k]
      invariant bits[k..] == old(bits[..])[k..]
    {
      bits[k] := bits[k] - {no};
      k := k + 1;
    }
  }

  /** Task slot `i` is what processor `p` is running. */
  ghost predicate SameTask(tcb: seq<Option<Task>>, ctx: seq<Option<Task>>, i: nat, p: nat) {
    i < |tcb| && p < |ctx| && tcb[i] == ctx[p]
  }

  /** Of all picks at degree `c` those that leave a task where it is running come first. */
  ghost predicate RunningFirst(b: Board, tcb: seq<Option<Task>>, ctx: seq<Option<Task>>, c: int, t: nat, q: nat) {
    SameTask(tcb, ctx, t, q) || forall i, p :: Candidate(b, c, i, p) ==> !SameTask(tcb, ctx, i, p)
  }

  /** A pick of the search: at degree `c`, in the pass that leaves running tasks where they are
      or in the other, for column or row `j`, the task slot or processor `i`. */
  datatype Choice = Choice(c: int, same: bool, j: nat, row: bool, i: nat) {
    function Slot(): nat { if row then j else i }

    function Proc(): nat { if row then i else j }
  }

  /** The pick is possible. */
  ghost predicate Fits(b: Board, tcb: seq<Option<Task>>, ctx: seq<Option<Task>>, x: Choice) {
    && Edge(b, x.Slot(), x.Proc()) && x.j < |b.cnt| && x.j < |b.masks|
    && (if x.row then |b.masks[x.j]| else b.cnt[x.j]) == x.c
    && (x.same ==> SameTask(tcb, ctx, x.Slot(), x.Proc()))
  }

  /** The search comes to `x` before it comes to `y`. */
  predicate Sooner(x: Choice, y: Choice) {
    if x.c != y.c then x.c < y.c
    else if x.same != y.same then x.same
    else if x.j != y.j then x.j < y.j
    else if x.row != y.row then y.row
    else x.i < y.i
  }

  /** The first of all possible picks. */
  ghost predicate FirstPick(b: Board, tcb: seq<Option<Task>>, ctx: seq<Option<Task>>, x: Choice) {
    x.c >= 1 && Fits(b, tcb, ctx, x) && forall y: Choice :: y.c >= 1 && Fits(b, tcb, ctx, y) ==> !Sooner(y, x)
  }

  /** It is of the least degree, and leaves a task where it is running if one of that degree does. */
  lemma FirstPickMeans(b: Board, tcb: seq<Option<Task>>, ctx: seq<Option<Task>>, x: Choice)
    requires FirstPick(b, tcb, ctx, x) && |b.cnt| == |b.masks| == |b.sch|
    ensures x.c >= 1 && NoneBelow(b, x.c) && Candidate(b, x.c, x.Slot(), x.Proc())
    ensures RunningFirst(b, tcb, ctx, x.c, x.Slot(), x.Proc())
  {
    forall d, i, p | 1 <= d < x.c ensures !Candidate(b, d, i, p) {
      CandidateFits(b, tcb, ctx, d, i, p);
    }
    if !x.same {
      forall i, p ensures Candidate(b, x.c, i, p) ==> !SameTask(tcb, ctx, i, p) {
        CandidateFits(b, tcb, ctx, x.c, i, p);
      }
    }
  }

  lemma CandidateFits(b: Board, tcb: seq<Option<Task>>, ctx: seq<Option<Task>>, d: int, i: nat, p: nat)
    requires |b.cnt| == |b.masks| == |b.sch|
    ensures Candidate(b, d, i, p) ==>
              var same := SameTask(tcb, ctx, i, p);
              && (exists x: Choice :: x.c == d && x.same == same && Fits(b, tcb, ctx, x))
              && exists x: Choice :: x.c == d && !x.same && Fits(b, tcb, ctx, x)
  {
    if Candidate(b, d, i, p) {
      var same := SameTask(tcb, ctx, i, p);
      if b.cnt[p] == d {
        assert Fits(b, tcb, ctx, Choice(d, same, p, false, i)) && Fits(b, tcb, ctx, Choice(d, false, p, false, i));
      } else {
        assert Fits(b, tcb, ctx, Choice(d, same, i, true, p)) && Fits(b, tcb, ctx, Choice(d, false, i, true, p));
      }
    }
  }

  /** Nothing is possible at the first `n` places of one column or row. */
  ghost predicate NoFit(b: Board, tcb: seq<Option<Task>>, ctx: seq<Option<Task>>, c: int, same: bool, j: nat, row: bool,
                        n: nat) {
    forall k: nat :: k < n ==> !Fits(b, tcb, ctx, Choice(c, same, j, row, k))
  }

  /** Nothing is possible in the first `n` columns and rows of one pass. */
  ghost predicate NoFitIn(b: Board, tcb: seq<Option<Task>>, ctx: seq<Option<Task>>, c: int, same: bool, n: nat) {
    forall x: Choice :: x.c == c && x.same == same && x.j < n ==> !Fits(b, tcb, ctx, x)
  }

  /** Nothing is possible at degrees from 1 to `d`, `d` not included. */
  ghost predicate NoFitBelow(b: Board, tcb: seq<Option<Task>>, ctx: seq<Option<Task>>, d: int) {
    forall x: Choice :: 1 <= x.c < d ==> !Fits(b, tcb, ctx, x)
  }

  ghost predicate Square(b: Board, n: nat) {
    |b.cnt| == |b.masks| == |b.sch| == n
  }

  lemma NoFitNext(b: Board, tcb: seq<Option<Task>>, ctx: seq<Option<Task>>, c: int, same: bool, j: nat)
    requires Square(b, |ctx|) && NoFitIn(b, tcb, ctx, c, same, j)
    requires NoFit(b, tcb, ctx, c, same, j, false, |ctx|) && NoFit(b, tcb, ctx, c, same, j, true, |ctx|)
    ensures NoFitIn(b, tcb, ctx, c, same, j + 1)
  {
    forall x: Choice | x.c == c && x.same == same && x.j < j + 1 ensures !Fits(b, tcb, ctx, x) {
      if x.j == j && x.i < |ctx| {
        assert x == Choice(c, same, j, x.row, x.i);
      }
    }
  }

  lemma NoFitHigher(b: Board, tcb: seq<Option<Task>>, ctx: seq<Option<Task>>, d: int)
    requires Square(b, |ctx|) && NoFitBelow(b, tcb, ctx, d)
    requires NoFitIn(b, tcb, ctx, d, true, |ctx|) && NoFitIn(b, tcb, ctx, d, false, |ctx|)
    ensures NoFitBelow(b, tcb, ctx, d + 1)
  {
  }

  /** The first pick found is the first of all. */
  lemma FoundFirst(b: Board, tcb: seq<Option<Task>>, ctx: seq<Option<Task>>, x: Choice)
    requires Square(b, |ctx|) && x.c >= 1 && Fits(b, tcb, ctx, x) && NoFitBelow(b, tcb, ctx, x.c)
    requires !x.same ==> NoFitIn(b, tcb, ctx, x.c, true, |ctx|)
    requires NoFitIn(b, tcb, ctx, x.c, x.same, x.j)
    requires x.row ==> NoFit(b, tcb, ctx, x.c, x.same, x.j, false, |ctx|)
    requires NoFit(b, tcb, ctx, x.c, x.same, x.j, x.row, x.i)
    ensures FirstPick(b, tcb, ctx, x)
  {
    forall y: Choice | y.c >= 1 && Fits(b, tcb, ctx, y) ensures !Sooner(y, x) {
      assert y == Choice(y.c, y.same, y.j, y.row, y.i) && y.i < |ctx| && y.j < |ctx|;
    }
  }

  lemma NothingFits(b: Board, tcb: seq<Option<Task>>, ctx: seq<Option<Task>>, d: int)
    requires Square(b, |ctx|) && NoFitBelow(b, tcb, ctx, d)
    ensures NoneBelow(b, d)
  {
    forall c, i, p | 1 <= c < d ensures !Candidate(b, c, i, p) {
      CandidateFits(b, tcb, ctx, c, i, p);
    }
  }

  method TryAssign(topBit: array<set<nat>>, topTcb: array<Option<Task>>, sch: array<Option<Task>>, bitCnt: array<int>,
                   idx: nat, pr: nat, cmptcb: Option<Task>) returns (done: bool)
    requires idx < topBit.Length && idx < topTcb.Length && pr < sch.Length && topTcb != sch
    modifies topBit, sch, bitCnt
    ensures done <==> old(Edge(View(topBit, bitCnt, sch), idx, pr)) && cmptcb == topTcb[idx]
    ensures View(topBit, bitCnt, sch) ==
            if done then old(Given(View(topBit, bitCnt, sch), topTcb[..], idx, pr))
            else old(View(topBit, bitCnt, sch))
  {
    if pr in topBit[idx] && sch[pr] == None && cmptcb == topTcb[idx] {
      UnsumBits(bitCnt, topBit[idx]);
      DropBit(topBit, pr);
      sch[pr] := topTcb[idx];
      topBit[idx] := {};
      return true;
    }
    return false;
  }

  ghost predicate Shape(n: nat, topBit: array<set<nat>>, topTcb: array<Option<Task>>, sch: array<Option<Task>>,
                        bitCnt: array<int>, ctx: seq<Option<Task>>) {
    topBit.Length == topTcb.Length == sch.Length == bitCnt.Length == |ctx| == n && topTcb != sch
  }

  /** "try column": processor `j` is wanted by `c` tasks; give it to the first of them, in
      the `same` pass only to the task that processor is running already. */
  method TryColumn(topBit: array<set<nat>>, topTcb: array<Option<Task>>, sch: array<Option<Task>>, bitCnt: array<int>,
                   ctx: seq<Option<Task>>, same: bool, c: int, j: nat) returns (done: bool, ghost i: nat)
    requires Shape(|ctx|, topBit, topTcb, sch, bitCnt, ctx) && j < |ctx|
    modifies topBit, sch, bitCnt
    ensures var b, tcb, x := old(View(topBit, bitCnt, sch)), topTcb[..], Choice(c, same, j, false, i);
            && NoFit(b, tcb, ctx, c, same, j, false, if done then i else |ctx|)
            && if done then Fits(b, tcb, ctx, x) && View(topBit, bitCnt, sch) == Given(b, tcb, i, j)
               else View(topBit, bitCnt, sch) == b
  {
    ghost var b, tcb := View(topBit, bitCnt, sch), topTcb[..];
    i := 0;
    if bitCnt[j] != c {
      return false, i;
    }
    var k := 0;
    while k < |ctx|
      invariant 0 <= k <= |ctx|
      invariant View(topBit, bitCnt, sch) == b
      invariant NoFit(b, tcb, ctx, c, same, j, false, k)
    {
      done := TryAssign(topBit, topTcb, sch, bitCnt, k, j, if same then ctx[j] else topTcb[k]);
      if done {
        return true, k;
      }
      k := k + 1;
    }
    return false, i;
  }

  /** "try row": task slot `j` has `c` processors left; give it the first free one. */
  method TryRow(topBit: array<set<nat>>, topTcb: array<Option<Task>>, sch: array<Option<Task>>, bitCnt: array<int>,
                ctx: seq<Option<Task>>, same: bool, c: int, j: nat) returns (done: bool, ghost i: nat)
    requires Shape(|ctx|, topBit, topTcb, sch, bitCnt, ctx) && j < |ctx|
    modifies topBit, sch, bitCnt
    ensures var b, tcb, x := old(View(topBit, bitCnt, sch)), topTcb[..], Choice(c, same, j, true, i);
            && NoFit(b, tcb, ctx, c, same, j, true, if done then i else |ctx|)
            && if done then Fits(b, tcb, ctx, x) && View(topBit, bitCnt, sch) == Given(b, tcb, j, i)
               else View(topBit, bitCnt, sch) == b
  {
    ghost var b, tcb := View(topBit, bitCnt, sch), topTcb[..];
    i := 0;
    if |topBit[j]| != c {
      return false, i;
    }
    var k := 0;
    while k < |ctx|
      invariant 0 <= k <= |ctx|
      invariant View(topBit, bitCnt, sch) == b
      invariant NoFit(b, tcb, ctx, c, same, j, true, k)
    {
      done := TryAssign(topBit, topTcb, sch, bitCnt, j, k, if same then ctx[k] else topTcb[j]);
      if done {
        return true, k;
      }
      k := k + 1;
    }
    return false, i;
  }

  /** One pass over all columns and rows at degree `c`. */
  method Pass(topBit: array<set<nat>>, topTcb: array<Option<Task>>, sch: array<Option<Task>>, bitCnt: array<int>,
              ctx: seq<Option<Task>>, same: bool, c: int) returns (done: bool, ghost x: Choice)
    requires Shape(|ctx|, topBit, topTcb, sch, bitCnt, ctx)
    modifies topBit, sch, bitCnt
    ensures var b, tcb := old(View(topBit, bitCnt, sch)), topTcb[..];
            if done then
              && x.c == c && x.same == same && NoFitIn(b, tcb, ctx, c, same, x.j)
              && (x.row ==> NoFit(b, tcb, ctx, c, same, x.j, false, |ctx|))
              && NoFit(b, tcb, ctx, c, same, x.j, x.row, x.i)
              && Fits(b, tcb, ctx, x) && View(topBit, bitCnt, sch) == Given(b, tcb, x.Slot(), x.Proc())
            else
              NoFitIn(b, tcb, ctx, c, same, |ctx|) && View(topBit, bitCnt, sch) == b
  {
    hide Fits, NoFit, NoFitIn, Given;
    ghost var b, tcb := View(topBit, bitCnt, sch), topTcb[..];
    x := Choice(c, same, 0, false, 0);
    NoColumns(b, tcb, ctx, c, same);
    var j := 0;
    ghost var i;
    while j < |ctx|
      invariant 0 <= j <= |ctx|
      invariant View(topBit, bitCnt, sch) == b && NoFitIn(b, tcb, ctx, c, same, j)
    {
      done, i := TryColumn(topBit, topTcb, sch, bitCnt, ctx, same, c, j);
      if done {
        return true, Choice(c, same, j, false, i);
      }
      done, i := TryRow(topBit, topTcb, sch, bitCnt, ctx, same, c, j);
      if done {
        return true, Choice(c, same, j, true, i);
      }
      NoFitNext(b, tcb, ctx, c, same, j);
      j := j + 1;
    }
    return false, x;
  }

  lemma NoColumns(b: Board, tcb: seq<Option<Task>>, ctx: seq<Option<Task>>, c: int, same: bool)
    ensures NoFitIn(b, tcb, ctx, c, same, 0)
  {
  }

  lemma FitsInside(b: Board, tcb: seq<Option<Task>>, ctx: seq<Option<Task>>, x: Choice)
    requires Fits(b, tcb, ctx, x)
    ensures x.Slot() < |b.masks| && x.Proc() < |b.sch|
  {
  }

  /** One search from degree 1 upwards, running tasks first at every degree. */
  method Search(topBit: array<set<nat>>, topTcb: array<Option<Task>>, sch: array<Option<Task>>, bitCnt: array<int>,
                ctx: seq<Option<Task>>) returns (done: bool, ghost x: Choice)
    requires Shape(|ctx|, topBit, topTcb, sch, bitCnt, ctx)
    modifies topBit, sch, bitCnt
    ensures var b, tcb := old(View(topBit, bitCnt, sch)), topTcb[..];
            if done then
              && x.Slot() < |ctx| && x.Proc() < |ctx| && FirstPick(b, tcb, ctx, x)
              && View(topBit, bitCnt, sch) == Given(b, tcb, x.Slot(), x.Proc())
            else
              NoneBelow(b, |ctx| + 1) && View(topBit, bitCnt, sch) == b
  {
    hide Fits, NoFit, NoFitIn, NoFitBelow, Given, FirstPick, NoneBelow;
    ghost var b, tcb := View(topBit, bitCnt, sch), topTcb[..];
    x := Choice(0, false, 0, false, 0);
    NoDegrees(b, tcb, ctx);
    var d := 1;
    while d <= |ctx|
      invariant 1 <= d <= |ctx| + 1
      invariant View(topBit, bitCnt, sch) == b && NoFitBelow(b, tcb, ctx, d)
    {
      done, x := Pass(topBit, topTcb, sch, bitCnt, ctx, true, d);
      if done {
        FitsInside(b, tcb, ctx, x);
        FoundFirst(b, tcb, ctx, x);
        return;
      }
      done, x := Pass(topBit, topTcb, sch, bitCnt, ctx, false, d);
      if done {
        FitsInside(b, tcb, ctx, x);
        FoundFirst(b, tcb, ctx, x);
        return;
      }
      NoFitHigher(b, tcb, ctx, d);
      d := d + 1;
    }
    NothingFits(b, tcb, ctx, d);
    return false, x;
  }

  lemma NoDegrees(b: Board, tcb: seq<Option<Task>>, ctx: seq<Option<Task>>)
    ensures NoFitBelow(b, tcb, ctx, 1)
  {
  }

  /** Everything the schedule promises about the first `m` task slots: no task and no
      processor twice, masks respected, and nothing else in the schedule. */
  ghost predicate Assignment(orig: seq<set<nat>>, tcb: seq<Option<Task>>, m: nat, sch: seq<Option<Task>>,
                             pl: map<nat, nat>) {
    pl.Keys <= Upto(m) && Places(orig, pl.Keys, pl) && Scheduled(tcb, sch, pl)
  }

  /** What holds between two picks: the board is what is left, `left` tasks wait and, when
      `hall` is claimed, they can all still be placed. */
  ghost predicate Round(n: nat, m: nat, orig: seq<set<nat>>, tcb: seq<Option<Task>>, b: Board, pl: map<nat, nat>,
                        left: int, hall: bool) {
    && Progress(n, m, orig, tcb, b, pl)
    && left == |Rest(m, pl)|
    && (hall ==> n <= 4 && HallOn(b.masks, Rest(m, pl)))
  }

  lemma FirstRound(n: nat, m: nat, orig: seq<set<nat>>, tcb: seq<Option<Task>>, b: Board, hall: bool)
    requires Family(n, m, orig, tcb) && b.masks == orig && |b.cnt| == |b.sch| == n
    requires forall p :: 0 <= p < n ==> b.sch[p] == None && b.cnt[p] == |Users(orig, p)|
    requires hall ==> n <= 4 && HallOn(orig, Upto(m))
    ensures Round(n, m, orig, tcb, b, map[], m, hall)
  {
    var pl: map<nat, nat> := map[];
    assert pl.Values == {};
    assert Rest(m, pl) == Upto(m);
  }

  lemma NextRound(n: nat, m: nat, orig: seq<set<nat>>, tcb: seq<Option<Task>>, b: Board, pl: map<nat, nat>,
                  left: int, hall: bool, c: int, t: nat, q: nat)
    requires Round(n, m, orig, tcb, b, pl, left, hall)
    requires c >= 1 && NoneBelow(b, c) && Candidate(b, c, t, q) && t < n && q < n
    ensures Round(n, m, orig, tcb, Given(b, tcb, t, q), pl[t := q], left - 1, hall)
  {
    if hall {
      PickKeepsHall(n, m, orig, tcb, b, pl, c, t, q);
    }
    GivenKeepsProgress(n, m, orig, tcb, b, pl, t, q);
    RestAfter(m, pl, t, q);
  }

  lemma LastRound(n: nat, m: nat, orig: seq<set<nat>>, tcb: seq<Option<Task>>, b: Board, pl: map<nat, nat>,
                  left: int, hall: bool)
    requires Round(n, m, orig, tcb, b, pl, left, hall)
    requires left == 0 || NoneBelow(b, n + 1)
    ensures Assignment(orig, tcb, m, b.sch, pl) && (hall ==> pl.Keys == Upto(m))
  {
    if left == 0 {
      NobodyRests(m, pl);
    } else if hall {
      NothingLeft(n, m, orig, tcb, b, pl);
    }
  }

  /** Slot `j` has one processor, and no other slot has that one. */
  ghost predicate Alone(orig: seq<set<nat>>, j: nat, p: nat) {
    j < |orig| && orig[j] == {p} && forall k :: 0 <= k < |orig| && k != j ==> p !in orig[k]
  }

  ghost predicate AlonePlaced(orig: seq<set<nat>>, m: nat, pl: map<nat, nat>) {
    forall j: nat, p: nat :: Alone(orig, j, p) && j < m ==> j in pl
  }

  /** Such a slot is at no time left without its processor, however many there are. */
  lemma AloneIsCandidate(n: nat, m: nat, orig: seq<set<nat>>, tcb: seq<Option<Task>>, b: Board, pl: map<nat, nat>,
                         j: nat, p: nat)
    requires Progress(n, m, orig, tcb, b, pl) && Alone(orig, j, p) && j < m && j !in pl
    ensures Candidate(b, 1, j, p)
  {
    hide Counted;
    assert p !in pl.Values;
    assert b.masks[j] == {p};
  }

  lemma AloneAreServed(n: nat, m: nat, orig: seq<set<nat>>, tcb: seq<Option<Task>>, b: Board, pl: map<nat, nat>,
                       left: int, hall: bool)
    requires Round(n, m, orig, tcb, b, pl, left, hall)
    requires left == 0 || NoneBelow(b, n + 1)
    ensures AlonePlaced(orig, m, pl)
  {
    hide Progress, Candidate, Alone;
    forall j: nat, p: nat | Alone(orig, j, p) && j < m ensures j in pl {
      if j !in pl {
        AloneIsCandidate(n, m, orig, tcb, b, pl, j, p);
        assert j in Rest(m, pl);
        MoreThanNone(n, m, orig, tcb, b, pl);
      }
    }
  }

  lemma MoreThanNone(n: nat, m: nat, orig: seq<set<nat>>, tcb: seq<Option<Task>>, b: Board, pl: map<nat, nat>)
    requires Progress(n, m, orig, tcb, b, pl) && Rest(m, pl) != {}
    ensures n >= 1 && |Rest(m, pl)| > 0
  {
  }

  /* ---- The rounds. ---- */

  /** From board to board the first pick is made. */
  ghost predicate Played(bs: seq<Board>, xs: seq<Choice>, tcb: seq<Option<Task>>, ctx: seq<Option<Task>>) {
    && |bs| == |xs| + 1
    && forall k :: 0 <= k < |xs| ==> MadePick(bs[k], bs[k + 1], tcb, ctx, xs[k])
  }

  ghost predicate MadePick(b: Board, b': Board, tcb: seq<Option<Task>>, ctx: seq<Option<Task>>, x: Choice) {
    && x.Slot() < |b.masks| && x.Slot() < |tcb| && x.Proc() < |b.sch|
    && FirstPick(b, tcb, ctx, x) && b' == Given(b, tcb, x.Slot(), x.Proc())
  }

  /** The rounds lead from board `b` to schedule `sch`; in the end `m` picks have been made, or no
      more is possible. */
  ghost predicate PlayedOut(bs: seq<Board>, xs: seq<Choice>, tcb: seq<Option<Task>>, ctx: seq<Option<Task>>, m: nat,
                            b: Board, sch: seq<Option<Task>>) {
    && Played(bs, xs, tcb, ctx) && bs[0] == b && bs[|xs|].sch == sch
    && (|xs| == m || NoneBelow(bs[|xs|], |ctx| + 1))
  }

  lemma PlayedOn(bs: seq<Board>, xs: seq<Choice>, tcb: seq<Option<Task>>, ctx: seq<Option<Task>>, b': Board, x: Choice)
    requires Played(bs, xs, tcb, ctx) && MadePick(bs[|xs|], b', tcb, ctx, x)
    ensures Played(bs + [b'], xs + [x], tcb, ctx)
  {
    hide MadePick;
  }

  /** Each of the first `m` tasks is running where it may, and all processors open to them run
      one of them. */
  ghost predicate SettledSlots(orig: seq<set<nat>>, tcb: seq<Option<Task>>, ctx: seq<Option<Task>>, m: nat) {
    && m <= |orig| && m <= |tcb|
    && (forall i :: 0 <= i < m ==> HasOwn(orig[i], tcb, ctx, i))
    && (forall i, p :: 0 <= i < m && p in orig[i] ==> exists u :: 0 <= u < m && SameTask(tcb, ctx, u, p))
    && (forall i, k :: 0 <= i < k < m ==> tcb[i] != tcb[k])
    && (forall p, q :: 0 <= p < q < |ctx| && ctx[p].Some? ==> ctx[p] != ctx[q])
  }

  /** The task of slot `i` is running on a processor of `mask`. */
  ghost predicate HasOwn(mask: set<nat>, tcb: seq<Option<Task>>, ctx: seq<Option<Task>>, i: nat) {
    exists p :: p in mask && SameTask(tcb, ctx, i, p)
  }

  /** Every placed task is placed where it is running. */
  ghost predicate OwnPlaces(tcb: seq<Option<Task>>, ctx: seq<Option<Task>>, pl: map<nat, nat>) {
    forall i :: i in pl ==> SameTask(tcb, ctx, i, pl[i])
  }

  /** A task that waits could stay where it is running. */
  lemma OwnIsOpen(n: nat, m: nat, orig: seq<set<nat>>, tcb: seq<Option<Task>>, ctx: seq<Option<Task>>, b: Board,
                  pl: map<nat, nat>, t: nat) returns (p: nat)
    requires Progress(n, m, orig, tcb, b, pl) && SettledSlots(orig, tcb, ctx, m) && OwnPlaces(tcb, ctx, pl)
    requires t < m && t !in pl
    ensures SameTask(tcb, ctx, t, p) && p in orig[t] && Edge(b, t, p) && p < n
  {
    hide Counted, Places;
    assert HasOwn(orig[t], tcb, ctx, t);
    p :| p in orig[t] && SameTask(tcb, ctx, t, p);
    forall k | k in pl ensures pl[k] != p {
      assert SameTask(tcb, ctx, k, pl[k]);
      assert pl[k] == p ==> SameTask(tcb, ctx, k, p);
    }
    assert p !in pl.Values;
  }

  /** As long as nobody has moved, the next pick moves nobody. */
  lemma SettledPick(n: nat, m: nat, orig: seq<set<nat>>, tcb: seq<Option<Task>>, ctx: seq<Option<Task>>, b: Board,
                    pl: map<nat, nat>, c: int, t: nat, q: nat)
    requires Progress(n, m, orig, tcb, b, pl) && SettledSlots(orig, tcb, ctx, m) && OwnPlaces(tcb, ctx, pl)
    requires Candidate(b, c, t, q) && RunningFirst(b, tcb, ctx, c, t, q)
    ensures SameTask(tcb, ctx, t, q)
  {
    EdgeIsFresh(n, m, orig, tcb, b, pl, t, q);
    hide Progress, RunningFirst;
    if !SameTask(tcb, ctx, t, q) {
      var p := OwnIsOpen(n, m, orig, tcb, ctx, b, pl, t);
      var u :| 0 <= u < m && SameTask(tcb, ctx, u, q);
      if u in pl {
        assert SameTask(tcb, ctx, u, pl[u]);
        SameProcessor(n, m, orig, tcb, ctx, b, pl, u, q, pl[u]);
      }
      var p' := OwnIsOpen(n, m, orig, tcb, ctx, b, pl, u);
      SameProcessor(n, m, orig, tcb, ctx, b, pl, u, q, p');
      StrictlyRunningFirst(b, tcb, ctx, c, t, q, t, p);
      StrictlyRunningFirst(b, tcb, ctx, c, t, q, u, q);
      CountsFit(n, m, orig, tcb, b, pl, p);
    }
  }

  lemma StrictlyRunningFirst(b: Board, tcb: seq<Option<Task>>, ctx: seq<Option<Task>>, c: int, t: nat, q: nat, i: nat,
                             p: nat)
    requires RunningFirst(b, tcb, ctx, c, t, q) && !SameTask(tcb, ctx, t, q) && SameTask(tcb, ctx, i, p)
    ensures !Candidate(b, c, i, p)
  {
    hide Candidate;
  }

  lemma CountsFit(n: nat, m: nat, orig: seq<set<nat>>, tcb: seq<Option<Task>>, b: Board, pl: map<nat, nat>, p: nat)
    requires Progress(n, m, orig, tcb, b, pl) && p < n
    ensures p < |b.cnt|
  {
  }

  lemma SameProcessor(n: nat, m: nat, orig: seq<set<nat>>, tcb: seq<Option<Task>>, ctx: seq<Option<Task>>, b: Board,
                      pl: map<nat, nat>, t: nat, p: nat, q: nat)
    requires Progress(n, m, orig, tcb, b, pl) && SettledSlots(orig, tcb, ctx, m)
    requires t < m && SameTask(tcb, ctx, t, p) && SameTask(tcb, ctx, t, q)
    ensures p == q
  {
    hide Counted, Places, Scheduled, Remaining;
    assert tcb[t].Some?;
  }

  /** In the end all have been placed. */
  lemma SettledAreServed(n: nat, m: nat, orig: seq<set<nat>>, tcb: seq<Option<Task>>, ctx: seq<Option<Task>>, b: Board,
                         pl: map<nat, nat>, left: int, hall: bool)
    requires Round(n, m, orig, tcb, b, pl, left, hall) && SettledSlots(orig, tcb, ctx, m) && OwnPlaces(tcb, ctx, pl)
    requires left == 0 || NoneBelow(b, n + 1)
    ensures pl.Keys == Upto(m)
  {
    hide Progress, SettledSlots, OwnPlaces, HallOn, Candidate;
    if i :| i in Rest(m, pl) {
      MoreThanNone(n, m, orig, tcb, b, pl);
      var p := OwnIsOpen(n, m, orig, tcb, ctx, b, pl, i);
      MasksInRange(n, m, orig, tcb, b, pl, i);
      SubsetSize(b.masks[i], Upto(n));
      CountsFit(n, m, orig, tcb, b, pl, p);
      RowCandidate(b, i, p);
    } else {
      KeysInside(n, m, orig, tcb, b, pl);
      NobodyRests(m, pl);
    }
  }

  lemma RowCandidate(b: Board, i: nat, p: nat)
    requires Edge(b, i, p) && p < |b.cnt|
    ensures |b.masks[i]| >= 1 && Candidate(b, |b.masks[i]|, i, p)
  {
    SubsetSize({p}, b.masks[i]);
  }

  lemma KeysInside(n: nat, m: nat, orig: seq<set<nat>>, tcb: seq<Option<Task>>, b: Board, pl: map<nat, nat>)
    requires Progress(n, m, orig, tcb, b, pl)
    ensures pl.Keys <= Upto(m)
  {
  }

  lemma MasksInRange(n: nat, m: nat, orig: seq<set<nat>>, tcb: seq<Option<Task>>, b: Board, pl: map<nat, nat>, i: nat)
    requires Progress(n, m, orig, tcb, b, pl) && i < m
    ensures i < |b.masks| && b.masks[i] <= Upto(n)
  {
    hide Counted, Places, Scheduled;
  }

  method CopyOut(tcb: array<Option<Task>>, sch: array<Option<Task>>)
    requires tcb.Length == sch.Length && tcb != sch
    modifies tcb
    ensures tcb[..] == sch[..]
  {
    var i := 0;
    while i < sch.Length
      invariant 0 <= i <= sch.Length
      invariant tcb[..i] == sch[..i]
    {
      tcb[i] := sch[i];
      i := i + 1;
    }
  }

  /** Terminates for any number of processors and never places a task twice or against its
      mask; a task that alone has its one processor is always placed; on up to four processors
      it places every task whenever that is possible. */
  method MultiCoreAssign(tcb: array<Option<Task>>, topTcb: array<Option<Task>>, topBit: array<set<nat>>,
                         bitCnt: array<int>, ctx: seq<Option<Task>>, assignNum: nat)
    requires Shape(|ctx|, topBit, topTcb, tcb, bitCnt, ctx) && assignNum > 0
    requires Family(|ctx|, assignNum, topBit[..], topTcb[..])
    requires forall p :: 0 <= p < |ctx| ==> bitCnt[p] == |Users(topBit[..], p)|
    modifies tcb, topBit, bitCnt
    ensures exists pl :: Assignment(old(topBit[..]), topTcb[..], assignNum, tcb[..], pl)
              && AlonePlaced(old(topBit[..]), assignNum, pl)
              && (|ctx| <= 4 && HallOn(old(topBit[..]), Upto(assignNum)) ==> pl.Keys == Upto(assignNum))
              && (SettledSlots(old(topBit[..]), topTcb[..], ctx, assignNum) ==>
                    pl.Keys == Upto(assignNum) && OwnPlaces(topTcb[..], ctx, pl))
    ensures exists bs, xs ::
              PlayedOut(bs, xs, topTcb[..], ctx, assignNum, FirstBoard(old(topBit[..]), old(bitCnt[..])), tcb[..])
  {
    hide Round, NoneBelow, Candidate, Assignment, Given, HallOn, Family, Users, AlonePlaced, SettledSlots, OwnPlaces,
      FirstPick, RunningFirst, Played;
    ghost var n, orig, tasks := |ctx|, topBit[..], topTcb[..];
    ghost var hall := n <= 4 && HallOn(orig, Upto(assignNum));
    ghost var settled := SettledSlots(orig, tasks, ctx, assignNum);
    var sch := new Option<Task>[|ctx|](_ => None);
    ghost var pl: map<nat, nat> := map[];
    FirstRound(n, assignNum, orig, tasks, View(topBit, bitCnt, sch), hall);
    NobodyMoved(tasks, ctx);
    ghost var bs, xs: seq<Choice> := [View(topBit, bitCnt, sch)], [];
    NothingPlayed(bs[0], tasks, ctx);
    var left: int := assignNum;
    while left > 0
      invariant topTcb[..] == tasks && left >= 0
      invariant Round(n, assignNum, orig, tasks, View(topBit, bitCnt, sch), pl, left, hall)
      invariant settled ==> OwnPlaces(tasks, ctx, pl)
      invariant Played(bs, xs, tasks, ctx) && |bs| == |xs| + 1 && |xs| + left == assignNum
      invariant bs[|xs|] == View(topBit, bitCnt, sch) && bs[0] == FirstBoard(orig, old(bitCnt[..]))
    {
      ghost var b := View(topBit, bitCnt, sch);
      var done, x := Search(topBit, topTcb, sch, bitCnt, ctx);
      if !done {
        break;
      }
      FirstPickMeans(b, tasks, ctx, x);
      PlayedOn(bs, xs, tasks, ctx, View(topBit, bitCnt, sch), x);
      NextRound(n, assignNum, orig, tasks, b, pl, left, hall, x.c, x.Slot(), x.Proc());
      if settled {
        StillOwn(n, assignNum, orig, tasks, ctx, b, pl, left, hall, x.c, x.Slot(), x.Proc());
      }
      pl := pl[x.Slot() := x.Proc()];
      bs, xs := bs + [View(topBit, bitCnt, sch)], xs + [x];
      left := left - 1;
    }
    ghost var b := View(topBit, bitCnt, sch);
    LastRound(n, assignNum, orig, tasks, b, pl, left, hall);
    AloneAreServed(n, assignNum, orig, tasks, b, pl, left, hall);
    if settled {
      SettledAreServed(n, assignNum, orig, tasks, ctx, b, pl, left, hall);
    }
    CopyOut(tcb, sch);
    assert PlayedOut(bs, xs, tasks, ctx, assignNum, FirstBoard(orig, old(bitCnt[..])), tcb[..]);
  }

  /** Nothing assigned yet. */
  function FirstBoard(masks: seq<set<nat>>, cnt: seq<int>): (b: Board)
    ensures |b.sch| == |cnt| && forall p :: 0 <= p < |cnt| ==> b.sch[p] == None
  {
    Board(masks, cnt, seq(|cnt|, _ => None))
  }

  lemma NobodyMoved(tcb: seq<Option<Task>>, ctx: seq<Option<Task>>)
    ensures OwnPlaces(tcb, ctx, map[])
  {
  }

  lemma NothingPlayed(b: Board, tcb: seq<Option<Task>>, ctx: seq<Option<Task>>)
    ensures Played([b], [], tcb, ctx)
  {
  }

  lemma StillOwn(n: nat, m: nat, orig: seq<set<nat>>, tcb: seq<Option<Task>>, ctx: seq<Option<Task>>, b: Board,
                 pl: map<nat, nat>, left: int, hall: bool, c: int, t: nat, q: nat)
    requires Round(n, m, orig, tcb, b, pl, left, hall) && SettledSlots(orig, tcb, ctx, m) && OwnPlaces(tcb, ctx, pl)
    requires Candidate(b, c, t, q) && RunningFirst(b, tcb, ctx, c, t, q)
    ensures OwnPlaces(tcb, ctx, pl[t := q])
  {
    SettledPick(n, m, orig, tcb, ctx, b, pl, c, t, q);
    hide Candidate, RunningFirst, SettledSlots, Progress;
  }

  /* ---- Four is the limit. ---- */

  /** Five tasks for five processors, nothing assigned yet. */
  ghost function FiveBoard(): Board {
    Board(FiveTasks(), [3, 2, 2, 2, 2], [None, None, None, None, None])
  }

  /** No task and no processor has a single choice, and the third task could stay. */
  lemma FiveFirstPick()
    ensures forall p :: 0 <= p < 5 ==> FiveBoard().cnt[p] == |Users(FiveTasks(), p)|
    ensures NoneBelow(FiveBoard(), 2) && Candidate(FiveBoard(), 2, 2, 0)
  {
    var b := FiveBoard();
    forall p | 0 <= p < 5 ensures b.cnt[p] == |Users(FiveTasks(), p)| {
      FiveCounts(p);
    }
    assert |b.masks[0]| == |b.masks[1]| == |b.masks[2]| == |b.masks[4]| == 2 && |b.masks[3]| == 3;
  }

  /** These five tasks can all be placed.  When of them only the third is running, on processor
      0, the search gives it that processor, and this strands one of the first two. */
  lemma FiveProcessorsCanStrand(tcb: seq<Option<Task>>, ctx: seq<Option<Task>>, c: int, t: nat, q: nat)
    requires |tcb| == |ctx| == 5 && forall i, p :: SameTask(tcb, ctx, i, p) <==> i == 2 && p == 0
    requires c >= 1 && NoneBelow(FiveBoard(), c) && Candidate(FiveBoard(), c, t, q)
    requires RunningFirst(FiveBoard(), tcb, ctx, c, t, q)
    ensures t == 2 && q == 0 && HallOn(FiveBoard().masks, Upto(5))
    ensures !HallOn(Given(FiveBoard(), tcb, t, q).masks, Upto(5) - {t})
  {
    var b := FiveBoard();
    FiveFirstPick();
    hide Candidate, HallOn;
    assert c == 2;
    assert SameTask(tcb, ctx, 2, 0);
    FiveArePlaceable();
    FiveStrand();
    StrandedStays(Without(b.masks, 0), Upto(5) - {2}, 2);
  }

  lemma StrandedStays(masks: seq<set<nat>>, R: set<nat>, t: nat)
    requires !HallOn(masks, R) && t < |masks| && t !in R
    ensures !HallOn(masks[t := {}], R)
  {
    var S :| S <= R && |S| > |Reach(masks, S)|;
    ReachAvoids(masks, t, {}, S);
  }
}
