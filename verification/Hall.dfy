/** Hall's marriage condition over processor masks.

    A family of masks is a sequence of sets of processor numbers; a set of indices
    into the family names some of its members.  The family can be placed one-to-one
    exactly when every set of k members can use at least k processors between them. */
module Hall {

  /** The processors some member of `S` may use. */
  ghost function Reach(masks: seq<set<nat>>, S: set<nat>): set<nat> {
    set i, p | i in S && i < |masks| && p in masks[i] :: p
  }

  ghost predicate HallOn(masks: seq<set<nat>>, R: set<nat>) {
    forall S: set<nat> {:trigger Reach(masks, S)} :: S <= R ==> |S| <= |Reach(masks, S)|
  }

  /** `pl` gives every member of `R` a processor of its own that its mask allows. */
  ghost predicate Places(masks: seq<set<nat>>, R: set<nat>, pl: map<nat, nat>) {
    && pl.Keys == R
    && (forall i :: i in pl ==> i < |masks| && pl[i] in masks[i])
    && (forall i, k :: i in pl && k in pl && i != k ==> pl[i] != pl[k])
  }

  ghost predicate Placeable(masks: seq<set<nat>>, R: set<nat>) {
    exists pl :: Places(masks, R, pl)
  }

  /** The numbers below `n`. */
  function Upto(n: nat): (s: set<nat>)
    ensures |s| == n
    ensures forall i :: i in s <==> 0 <= i < n
  {
    if n == 0 then {} else Upto(n - 1) + {n - 1}
  }

  lemma SubsetSize<T>(A: set<T>, B: set<T>)
    requires A <= B
    ensures |A| <= |B|
    ensures |A| == |B| ==> A == B
  {
    assert B == A + (B - A);
  }

  lemma UnionMeet<T>(A: set<T>, B: set<T>)
    ensures |A + B| + |A * B| == |A| + |B|
  {
  }

  /** The processors used by the members `S` of a placement. */
  ghost function Image(pl: map<nat, nat>, S: set<nat>): set<nat> {
    set i | i in S && i in pl :: pl[i]
  }

  lemma {:induction false} ImageSize(masks: seq<set<nat>>, R: set<nat>, pl: map<nat, nat>, S: set<nat>)
    requires Places(masks, R, pl) && S <= R
    ensures |Image(pl, S)| == |S|
    ensures Image(pl, S) <= Reach(masks, S)
  {
    if S != {} {
      var x :| x in S;
      ImageSize(masks, R, pl, S - {x});
      assert Image(pl, S) == Image(pl, S - {x}) + {pl[x]};
    }
  }

  lemma PlacementGivesHall(masks: seq<set<nat>>, R: set<nat>, pl: map<nat, nat>)
    requires Places(masks, R, pl)
    ensures HallOn(masks, R)
  {
    forall S: set<nat> | S <= R ensures |S| <= |Reach(masks, S)| {
      ImageSize(masks, R, pl, S);
      SubsetSize(Image(pl, S), Reach(masks, S));
    }
  }

  /** The family after giving processor `q` away: nobody else may use it. */
  function Without(masks: seq<set<nat>>, q: nat): (r: seq<set<nat>>)
    ensures |r| == |masks|
    ensures forall i :: 0 <= i < |masks| ==> r[i] == masks[i] - {q}
  {
    seq(|masks|, i requires 0 <= i < |masks| => masks[i] - {q})
  }

  lemma ReachWithout(masks: seq<set<nat>>, q: nat, S: set<nat>)
    ensures Reach(Without(masks, q), S) == Reach(masks, S) - {q}
  {
    var w := Without(masks, q);
    forall p ensures p in Reach(w, S) <==> p in Reach(masks, S) - {q} {
      if p in Reach(masks, S) - {q} {
        var i :| i in S && i < |masks| && p in masks[i];
        assert p in w[i];
      }
    }
  }

  /** Giving a member with a single processor left that processor keeps the condition
      for everyone else. */
  lemma DegreeOneRow(masks: seq<set<nat>>, R: set<nat>, t: nat, q: nat)
    requires HallOn(masks, R)
    requires t in R && t < |masks| && masks[t] == {q}
    ensures HallOn(Without(masks, q), R - {t})
  {
    forall S: set<nat> | S <= R - {t} ensures |S| <= |Reach(Without(masks, q), S)| {
      ReachWithout(masks, q, S);
      assert S + {t} <= R;
      assert Reach(masks, S + {t}) == (Reach(masks, S) - {q}) + {q};
    }
  }

  /** Taking one of two processors away from a member leaves Hall's condition intact for
      at least one of the two choices. */
  lemma DropOneOfTwo(masks: seq<set<nat>>, R: set<nat>, i: nat, x: nat, y: nat)
    requires HallOn(masks, R)
    requires i in R && i < |masks| && x in masks[i] && y in masks[i] && x != y
    ensures HallOn(masks[i := masks[i] - {x}], R) || HallOn(masks[i := masks[i] - {y}], R)
  {
    var mx, my := masks[i := masks[i] - {x}], masks[i := masks[i] - {y}];
    if !HallOn(mx, R) && !HallOn(my, R) {
      var P: set<nat> :| P <= R && |P| > |Reach(mx, P)|;
      var Q: set<nat> :| Q <= R && |Q| > |Reach(my, Q)|;
      ViolationUsesMember(masks, R, i, x, P);
      ViolationUsesMember(masks, R, i, y, Q);
      var X, Y := Reach(mx, P), Reach(my, Q);
      UnionMeet(X, Y);
      UnionMeet(P, Q);
      assert X + Y == Reach(masks, P + Q) by {
        forall p | p in Reach(masks, P + Q) ensures p in X + Y {
          var k :| k in P + Q && k < |masks| && p in masks[k];
          if k == i {
            assert p in mx[i] || p in my[i];
          } else {
            assert mx[k] == masks[k] == my[k];
          }
        }
      }
      assert P + Q <= R;
      var D := (P * Q) - {i};
      assert P * Q == D + {i};
      assert Reach(masks, D) <= X * Y by {
        forall p | p in Reach(masks, D) ensures p in X * Y {
          var k :| k in D && k < |masks| && p in masks[k];
          assert p in mx[k] && p in my[k];
        }
      }
      assert D <= R;
      SubsetSize(Reach(masks, D), X * Y);
    }
  }

  lemma ViolationUsesMember(masks: seq<set<nat>>, R: set<nat>, i: nat, x: nat, P: set<nat>)
    requires HallOn(masks, R) && i < |masks|
    requires P <= R && |P| > |Reach(masks[i := masks[i] - {x}], P)|
    ensures i in P
  {
    ReachAvoids(masks, i, masks[i] - {x}, P);
  }

  lemma ReachAvoids(masks: seq<set<nat>>, i: nat, mask: set<nat>, P: set<nat>)
    requires i < |masks|
    ensures i !in P ==> Reach(masks[i := mask], P) == Reach(masks, P)
  {
    if i !in P {
      var m := masks[i := mask];
      assert forall k :: k in P && k < |masks| ==> m[k] == masks[k];
      assert Reach(m, P) == Reach(masks, P);
    }
  }

  /** Some processor of member `i` can be made its only one. */
  lemma {:induction false} Pin(masks: seq<set<nat>>, R: set<nat>, i: nat) returns (q: nat)
    requires HallOn(masks, R) && i in R && i < |masks|
    ensures q in masks[i] && HallOn(masks[i := {q}], R)
    decreases |masks[i]|
  {
    assert {i} <= R;
    assert Reach(masks, {i}) == masks[i];
    assert |{i}| == 1;
    var x :| x in masks[i];
    if masks[i] == {x} {
      q := x;
      assert masks[i := {x}] == masks;
    } else {
      assert masks[i] - {x} != {};
      var y :| y in masks[i] - {x};
      DropOneOfTwo(masks, R, i, x, y);
      var z := if HallOn(masks[i := masks[i] - {x}], R) then x else y;
      var smaller := masks[i := masks[i] - {z}];
      q := Pin(smaller, R, i);
      assert smaller[i := {q}] == masks[i := {q}];
    }
  }

  /** Hall's theorem, the hard direction. */
  lemma {:induction false} HallGivesPlacement(masks: seq<set<nat>>, R: set<nat>) returns (pl: map<nat, nat>)
    requires HallOn(masks, R) && (forall i :: i in R ==> i < |masks|)
    ensures Places(masks, R, pl)
    decreases |R|
  {
    if R == {} {
      pl := map[];
    } else {
      var i :| i in R;
      var q := Pin(masks, R, i);
      var pinned := masks[i := {q}];
      DegreeOneRow(pinned, R, i, q);
      var rest := HallGivesPlacement(Without(pinned, q), R - {i});
      assert forall k :: k in rest ==> rest[k] in masks[k] && rest[k] != q;
      pl := rest[i := q];
    }
  }

  /** Hall's theorem: a one-to-one placement exists exactly when no group of members is
      squeezed onto fewer processors than it has members. */
  lemma HallTheorem(masks: seq<set<nat>>, R: set<nat>)
    requires forall i :: i in R ==> i < |masks|
    ensures Placeable(masks, R) <==> HallOn(masks, R)
  {
    if Placeable(masks, R) {
      var pl :| Places(masks, R, pl);
      PlacementGivesHall(masks, R, pl);
    }
    if HallOn(masks, R) {
      var pl := HallGivesPlacement(masks, R);
    }
  }
}
