/** Why the least-degree picks of `multi_core_assign` never strand a task.

    A pick gives processor `q` to task `t`; all other tasks lose `q`.  When the pick is made
    at the smallest degree present and at most four processors are in play, whatever could
    be placed before can still be placed afterwards. */
module Greedy {
  import opened Hall

  /** The tasks that may use processor `p`. */
  ghost function Users(masks: seq<set<nat>>, p: nat): (s: set<nat>)
    ensures forall i :: i in s <==> 0 <= i < |masks| && p in masks[i]
  {
    set i: nat | i < |masks| && p in masks[i]
  }

  /** Nothing is left at a degree below `c`: every waiting task has at least `c` processors
      and every processor anybody waits for is wanted by at least `c` tasks. */
  ghost predicate DegreesFrom(masks: seq<set<nat>>, R: set<nat>, c: nat) {
    && (forall i :: i in R && i < |masks| ==> |masks[i]| >= c)
    && (forall p :: Users(masks, p) == {} || |Users(masks, p)| >= c)
  }

  /** `R` waits for the processors `F`; nobody else does. */
  ghost predicate Waiting(masks: seq<set<nat>>, R: set<nat>, F: set<nat>) {
    && HallOn(masks, R)
    && (forall i :: i in R ==> i < |masks|)
    && (forall i :: 0 <= i < |masks| ==> masks[i] <= F)
    && (forall i :: 0 <= i < |masks| && i !in R ==> masks[i] == {})
  }

  /** A task whose processor nobody else wants can take it. */
  lemma DegreeOneColumn(masks: seq<set<nat>>, R: set<nat>, t: nat, q: nat)
    requires HallOn(masks, R) && Users(masks, q) == {t}
    ensures HallOn(Without(masks, q), R - {t})
  {
    forall S: set<nat> | S <= R - {t} ensures |S| <= |Reach(Without(masks, q), S)| {
      ReachWithout(masks, q, S);
      assert forall i :: i in S && i < |masks| ==> i !in Users(masks, q);
      assert q !in Reach(masks, S);
      assert Reach(masks, S) - {q} == Reach(masks, S);
    }
  }

  /** A group that loses its last spare processor was tight and could use `q`. */
  lemma SqueezedGroup(masks: seq<set<nat>>, R: set<nat>, t: nat, q: nat, S: set<nat>)
    requires HallOn(masks, R) && S <= R - {t} && |S| > |Reach(Without(masks, q), S)|
    ensures q in Reach(masks, S) && |Reach(masks, S)| == |S|
  {
    ReachWithout(masks, q, S);
    assert S <= R;
    assert q !in Reach(masks, S) ==> Reach(masks, S) - {q} == Reach(masks, S);
  }

  /** Everybody waits for everything: a processor that a group of all but one task cannot
      reach is wanted by the last task alone. */
  lemma LonelyProcessor(masks: seq<set<nat>>, R: set<nat>, F: set<nat>, S: set<nat>, u: nat) returns (z: nat)
    requires Waiting(masks, R, F) && |R| == |F| && u in R && u !in S && R == S + {u}
    requires |Reach(masks, S)| == |S|
    ensures Users(masks, z) == {u} && |Users(masks, z)| == 1
  {
    assert Reach(masks, R) <= F;
    SubsetSize(Reach(masks, R), F);
    assert R <= R && Reach(masks, R) == F;
    assert |F| == |S| + 1;
    assert Reach(masks, S) <= Reach(masks, R);
    var left := Reach(masks, R) - Reach(masks, S);
    assert Reach(masks, R) == Reach(masks, S) + left;
    assert left != {};
    z :| z in left;
    assert forall i :: i in S ==> z !in masks[i];
    assert Users(masks, z) <= {u};
    assert u in Users(masks, z);
  }

  /** With four processors, a tight group of three would leave one processor to a single
      task. */
  lemma NoTightTriple(masks: seq<set<nat>>, R: set<nat>, F: set<nat>, S: set<nat>, t: nat)
    requires Waiting(masks, R, F) && |F| <= 4 && DegreesFrom(masks, R, 2)
    requires t in R && S <= R - {t} && |S| == 3
    ensures |Reach(masks, S)| != |S|
  {
    if |Reach(masks, S)| == |S| {
      BoundedByProcessors(masks, R, F);
      SubsetSize(S + {t}, R);
      assert |S + {t}| == 4;
      var z := LonelyProcessor(masks, R, F, S, t);
    }
  }

  lemma BoundedByProcessors(masks: seq<set<nat>>, R: set<nat>, F: set<nat>)
    requires Waiting(masks, R, F)
    ensures |R| <= |F|
  {
    assert R <= R;
    assert Reach(masks, R) <= F;
    SubsetSize(Reach(masks, R), F);
  }

  /** With four processors, a tight pair that shares `q` with a task of degree two would
      again leave one processor to a single task. */
  lemma NoTightPair(masks: seq<set<nat>>, R: set<nat>, F: set<nat>, S: set<nat>, t: nat, q: nat)
    requires Waiting(masks, R, F) && |F| <= 4 && DegreesFrom(masks, R, 2)
    requires t in R && S <= R - {t} && |S| == 2
    requires q in masks[t] && |masks[t]| == 2 && q in Reach(masks, S)
    ensures |Reach(masks, S)| != |S|
  {
    if |Reach(masks, S)| == |S| {
      var y := SecondProcessor(masks, R, S, t, q);
      var u := AnotherUser(masks, R, S, t, y);
      BoundedByProcessors(masks, R, F);
      SubsetSize(S + {t, u}, R);
      assert |S + {t, u}| == 4;
      var S' := S + {t};
      assert Reach(masks, S') == Reach(masks, S) + {y};
      assert R == S' + {u};
      var z := LonelyProcessor(masks, R, F, S', u);
    }
  }

  lemma SecondProcessor(masks: seq<set<nat>>, R: set<nat>, S: set<nat>, t: nat, q: nat) returns (y: nat)
    requires HallOn(masks, R) && t in R && t < |masks| && S <= R - {t}
    requires |Reach(masks, S)| == |S|
    requires q in masks[t] && |masks[t]| == 2 && q in Reach(masks, S)
    ensures y !in Reach(masks, S) && masks[t] == {q, y}
  {
    var rest := masks[t] - {q};
    assert |rest| == 1;
    y :| y in rest;
    assert |rest - {y}| == 0;
    assert masks[t] == {q, y};
    assert S + {t} <= R;
    assert Reach(masks, S + {t}) == Reach(masks, S) + {y};
    assert y in Reach(masks, S) ==> Reach(masks, S) + {y} == Reach(masks, S);
  }

  lemma AnotherUser(masks: seq<set<nat>>, R: set<nat>, S: set<nat>, t: nat, y: nat) returns (u: nat)
    requires DegreesFrom(masks, R, 2) && t in Users(masks, y) && y !in Reach(masks, S)
    requires forall i :: 0 <= i < |masks| && i !in R ==> masks[i] == {}
    ensures u in R && u !in S && u != t && u < |masks| && y in masks[u]
  {
    var others := Users(masks, y) - {t};
    assert |others| >= 1;
    u :| u in others;
  }

  lemma PairIsUniform(masks: seq<set<nat>>, R: set<nat>, S: set<nat>, c: nat, i: nat)
    requires DegreesFrom(masks, R, c) && S <= R && i in S && i < |masks|
    ensures masks[i] <= Reach(masks, S) && c <= |Reach(masks, S)|
    ensures |Reach(masks, S)| <= c ==> masks[i] == Reach(masks, S)
  {
    SubsetSize(masks[i], Reach(masks, S));
  }

  /** A tight pair at degree two shares both its processors, so `q` has a third user and
      the pick was made because its task has degree two. */
  lemma TightPairMeansRowPick(masks: seq<set<nat>>, R: set<nat>, S: set<nat>, t: nat, q: nat, c: nat)
    requires DegreesFrom(masks, R, c) && c >= 2 && S <= R - {t} && |S| == 2
    requires forall i :: i in R ==> i < |masks|
    requires |Reach(masks, S)| == |S| && q in Reach(masks, S) && t < |masks| && q in masks[t]
    ensures c == 2 && |Users(masks, q)| > c
  {
    var i :| i in S;
    PairIsUniform(masks, R, S, c, i);
    forall k | k in S + {t} ensures k in Users(masks, q) {
      if k != t {
        PairIsUniform(masks, R, S, c, k);
      }
    }
    SubsetSize(S + {t}, Users(masks, q));
    assert |S + {t}| == 3;
  }

  /** The heart of `multi_core_assign`: on up to four processors, a pick at the smallest
      degree present keeps everybody else placeable. */
  lemma LeastDegreePick(masks: seq<set<nat>>, R: set<nat>, F: set<nat>, t: nat, q: nat, c: nat)
    requires Waiting(masks, R, F) && |F| <= 4
    requires c >= 1 && DegreesFrom(masks, R, c)
    requires t in R && q in masks[t] && (|masks[t]| == c || |Users(masks, q)| == c)
    ensures HallOn(Without(masks, q), R - {t})
  {
    if c == 1 {
      DegreeOnePick(masks, R, t, q);
    } else if !HallOn(Without(masks, q), R - {t}) {
      var S: set<nat> :| S <= R - {t} && |S| > |Reach(Without(masks, q), S)|;
      SqueezedGroup(masks, R, t, q, S);
      SqueezedSizes(masks, R, F, S, t, q, c);
      if |S| == 2 {
        TightPairMeansRowPick(masks, R, S, t, q, c);
        NoTightPair(masks, R, F, S, t, q);
      } else {
        NoTightTriple(masks, R, F, S, t);
      }
    }
  }

  lemma SqueezedSizes(masks: seq<set<nat>>, R: set<nat>, F: set<nat>, S: set<nat>, t: nat, q: nat, c: nat)
    requires Waiting(masks, R, F) && |F| <= 4 && c >= 2 && DegreesFrom(masks, R, c)
    requires t in R && S <= R - {t} && q in Reach(masks, S) && |Reach(masks, S)| == |S|
    ensures |S| == 2 || |S| == 3
    ensures DegreesFrom(masks, R, 2)
  {
    var i :| i in S && i < |masks|;
    PairIsUniform(masks, R, S, c, i);
    BoundedByProcessors(masks, R, F);
    SubsetSize(S + {t}, R);
  }

  lemma DegreeOnePick(masks: seq<set<nat>>, R: set<nat>, t: nat, q: nat)
    requires HallOn(masks, R) && t in R && t < |masks| && q in masks[t]
    requires |masks[t]| == 1 || |Users(masks, q)| == 1
    ensures HallOn(Without(masks, q), R - {t})
  {
    if |masks[t]| == 1 {
      OnlyElement(masks[t], q);
      DegreeOneRow(masks, R, t, q);
    } else {
      OnlyElement(Users(masks, q), t);
      DegreeOneColumn(masks, R, t, q);
    }
  }

  lemma OnlyElement<T>(s: set<T>, x: T)
    requires |s| == 1 && x in s
    ensures s == {x}
  {
    assert |s - {x}| == 0;
  }

  /** Five tasks on five processors, for the limit of the method. */
  ghost function FiveTasks(): (masks: seq<set<nat>>)
    ensures |masks| == 5
  {
    [{0, 1}, {0, 1}, {0, 2}, {2, 3, 4}, {3, 4}]
  }

  lemma FiveArePlaceable()
    ensures HallOn(FiveTasks(), Upto(5))
  {
    var pl: map<nat, nat> := map i | i in Upto(5) :: i;
    assert forall i :: i in Upto(5) ==> i in FiveTasks()[i];
    PlacementGivesHall(FiveTasks(), Upto(5), pl);
  }

  lemma FiveCounts(p: nat)
    requires p < 5
    ensures |Users(FiveTasks(), p)| == if p == 0 then 3 else 2
  {
    var u: set<nat> := if p == 0 then {0, 1, 2} else if p == 1 then {0, 1} else if p == 2 then {2, 3} else {3, 4};
    assert |u| == if p == 0 then 3 else 2;
    assert Users(FiveTasks(), p) == u;
  }

  lemma FiveStrand()
    ensures !HallOn(Without(FiveTasks(), 0), Upto(5) - {2})
  {
    var S: set<nat> := {0, 1};
    var w := Without(FiveTasks(), 0);
    assert w[0] == {1} == w[1];
    assert Reach(w, S) == {1};
    assert S <= Upto(5) - {2} && |S| == 2;
  }
}
