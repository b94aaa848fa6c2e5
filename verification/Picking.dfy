/** The selection as the loop sees it: the accepted tasks side by side in an array, not
    scattered over the ready order. */
module Picking {
  import opened Hall
  import opened Selection
  import opened History

  /** The family of the members at places `pos` of `ms`. */
  ghost function Compact(ms: seq<set<nat>>, pos: seq<nat>): (cm: seq<set<nat>>)
    ensures |cm| == |pos|
    ensures forall j :: 0 <= j < |pos| && pos[j] < |ms| ==> cm[j] == ms[pos[j]]
  {
    seq(|pos|, j requires 0 <= j < |pos| => if pos[j] < |ms| then ms[pos[j]] else {})
  }

  ghost predicate Ascending(pos: seq<nat>, x: nat) {
    && (forall j :: 0 <= j < |pos| ==> pos[j] < x)
    && (forall i, j :: 0 <= i < j < |pos| ==> pos[i] < pos[j])
  }

  ghost function Places1(pos: seq<nat>): (s: set<nat>)
    ensures forall i :: i in s <==> i in pos
  {
    set i | i in pos
  }

  /** The members of `pos` with indices in `S`. */
  ghost function Pick(pos: seq<nat>, S: set<nat>): (r: set<nat>)
    ensures forall v :: v in r <==> exists j :: j in S && 0 <= j < |pos| && pos[j] == v
  {
    set j | j in S && 0 <= j < |pos| :: pos[j]
  }

  lemma {:induction false} PickSize(pos: seq<nat>, x: nat, S: set<nat>)
    requires Ascending(pos, x) && forall j :: j in S ==> j < |pos|
    ensures |Pick(pos, S)| == |S|
    decreases |S|
  {
    if S != {} {
      var j :| j in S;
      PickSize(pos, x, S - {j});
      assert Pick(pos, S) == Pick(pos, S - {j}) + {pos[j]};
      assert pos[j] !in Pick(pos, S - {j});
    }
  }

  lemma PickReach(ms: seq<set<nat>>, pos: seq<nat>, S: set<nat>)
    requires (forall j :: 0 <= j < |pos| ==> pos[j] < |ms|) && forall j :: j in S ==> j < |pos|
    ensures Reach(Compact(ms, pos), S) == Reach(ms, Pick(pos, S))
  {
    var cm := Compact(ms, pos);
    forall p ensures p in Reach(cm, S) <==> p in Reach(ms, Pick(pos, S)) {
      if p in Reach(cm, S) {
        var j :| j in S && j < |cm| && p in cm[j];
        assert pos[j] in Pick(pos, S);
      }
      if p in Reach(ms, Pick(pos, S)) {
        var i :| i in Pick(pos, S) && i < |ms| && p in ms[i];
        var j :| j in S && 0 <= j < |pos| && pos[j] == i;
        assert p in cm[j];
      }
    }
  }

  /** Side by side or scattered, Hall's condition is the same. */
  lemma CompactHall(ms: seq<set<nat>>, pos: seq<nat>)
    requires Ascending(pos, |ms|)
    ensures HallOn(Compact(ms, pos), Upto(|pos|)) <==> HallOn(ms, Places1(pos))
  {
    var cm := Compact(ms, pos);
    if HallOn(ms, Places1(pos)) {
      forall S: set<nat> | S <= Upto(|pos|) ensures |S| <= |Reach(cm, S)| {
        PickSize(pos, |ms|, S);
        PickReach(ms, pos, S);
        assert Pick(pos, S) <= Places1(pos);
      }
    }
    if HallOn(cm, Upto(|pos|)) {
      forall T: set<nat> | T <= Places1(pos) ensures |T| <= |Reach(ms, T)| {
        var S := set j: nat | j < |pos| && pos[j] in T;
        PickSize(pos, |ms|, S);
        PickReach(ms, pos, S);
        assert Pick(pos, S) == T;
        assert S <= Upto(|pos|);
      }
    }
  }

  /** After looking at the first `x` ready tasks the tasks at places `pos` are accepted. */
  ghost predicate Picked(ms: seq<set<nat>>, x: nat, pos: seq<nat>) {
    x <= |ms| && Ascending(pos, x) && Places1(pos) == Chosen(ms[..x])
  }

  lemma PickedHall(ms: seq<set<nat>>, x: nat, pos: seq<nat>)
    requires Picked(ms, x, pos)
    ensures HallOn(Compact(ms, pos), Upto(|pos|))
  {
    ChosenHall(ms[..x]);
    HallOfPrefix(ms, x, Places1(pos));
    CompactHall(ms, pos);
  }

  lemma OneMore(ms: seq<set<nat>>, x: nat, pos: seq<nat>)
    requires Ascending(pos, x) && x < |ms|
    ensures Ascending(pos + [x], x + 1)
    ensures Places1(pos + [x]) == Places1(pos) + {x}
    ensures Compact(ms, pos + [x]) == Compact(ms, pos) + [ms[x]]
  {
  }

  lemma NextChosen(ms: seq<set<nat>>, x: nat)
    requires x < |ms|
    ensures var c := Chosen(ms[..x]); Chosen(ms[..x + 1]) == if HallOn(ms, c + {x}) then c + {x} else c
  {
    var c := Chosen(ms[..x]);
    assert ms[..x + 1][..x] == ms[..x];
    HallOfPrefix(ms, x + 1, c + {x});
    HallTheorem(ms[..x + 1], c + {x});
  }

  /** The decision about the next ready task, made by Hall's condition on the accepted
      tasks and the newcomer, is the one the specification makes. */
  lemma Decide(ms: seq<set<nat>>, x: nat, pos: seq<nat>)
    requires Picked(ms, x, pos) && x < |ms|
    ensures HallOn(Compact(ms, pos) + [ms[x]], Upto(|pos| + 1)) ==> Picked(ms, x + 1, pos + [x])
    ensures !HallOn(Compact(ms, pos) + [ms[x]], Upto(|pos| + 1)) ==> Picked(ms, x + 1, pos)
    ensures Compact(ms, pos + [x]) == Compact(ms, pos) + [ms[x]]
  {
    OneMore(ms, x, pos);
    NextChosen(ms, x);
    assert Ascending(pos + [x], |ms|);
    hide HallOn, Chosen, Compact, Places1;
    CompactHall(ms, pos + [x]);
  }

  lemma {:induction false} PosSize(pos: seq<nat>, x: nat)
    requires Ascending(pos, x)
    ensures |Places1(pos)| == |pos|
  {
    PickSize(pos, x, Upto(|pos|));
    assert Pick(pos, Upto(|pos|)) == Places1(pos) by {
      forall v | v in pos ensures v in Pick(pos, Upto(|pos|)) {
        var j :| 0 <= j < |pos| && pos[j] == v;
      }
    }
  }

  /** Once every processor has a task, looking further changes nothing. */
  lemma FullIsFinal(ms: seq<set<nat>>, x: nat, pos: seq<nat>, all: set<nat>)
    requires Picked(ms, x, pos) && |pos| == |all| && forall i :: 0 <= i < |ms| ==> ms[i] <= all
    ensures Picked(ms, |ms|, pos)
  {
    ChosenOfPrefix(ms, x);
    ChosenHall(ms);
    PosSize(pos, x);
    var c := Chosen(ms);
    assert c <= c;
    assert Reach(ms, c) <= all;
    SubsetSize(Reach(ms, c), all);
    SubsetSize(Places1(pos), c);
    assert ms[..|ms|] == ms;
  }

  /** The table never outgrows its array of 2^(n-1) entries: before the last round there is
      room for the old groups, the joined groups and the newcomer. */
  lemma RoomInTable(cm: seq<set<nat>>, all: set<nat>, n: nat)
    requires |cm| + 1 < n
    ensures 2 * |HistOf(cm, all)| + 1 < Pow2(n - 1)
  {
    HistSize(cm, all);
    SubsetSize(Narrow(cm, all), Upto(|cm|));
    Pow2Monotone(|Narrow(cm, all)|, n - 2);
    assert Pow2(n - 1) == 2 * Pow2(n - 2);
  }
}
