/** Which ready tasks are taken: the specification of the selection loop of
    `ready_queue_top`, and what that selection guarantees. */
module Selection {
  import opened Hall

  /** The positions taken when the family is walked in order and a position is taken
      whenever everything taken so far, together with it, can still be placed. */
  ghost function Chosen(ms: seq<set<nat>>): (c: set<nat>)
    ensures forall i :: i in c ==> i < |ms|
  {
    if ms == [] then {} else
    var c := Chosen(ms[..|ms| - 1]);
    if Placeable(ms, c + {|ms| - 1}) then c + {|ms| - 1} else c
  }

  lemma ReachOfPrefix(ms: seq<set<nat>>, k: nat, S: set<nat>)
    requires k <= |ms| && forall i :: i in S ==> i < k
    ensures Reach(ms[..k], S) == Reach(ms, S)
  {
    assert forall i :: 0 <= i < k ==> ms[..k][i] == ms[i];
    forall p ensures p in Reach(ms[..k], S) <==> p in Reach(ms, S) {
      if p in Reach(ms, S) {
        var i :| i in S && i < |ms| && p in ms[i];
        assert p in ms[..k][i];
      }
    }
  }

  lemma HallOfPrefix(ms: seq<set<nat>>, k: nat, R: set<nat>)
    requires k <= |ms| && forall i :: i in R ==> i < k
    ensures HallOn(ms[..k], R) <==> HallOn(ms, R)
  {
    forall S: set<nat> | S <= R ensures Reach(ms[..k], S) == Reach(ms, S) {
      ReachOfPrefix(ms, k, S);
    }
  }

  lemma {:induction false} ChosenHall(ms: seq<set<nat>>)
    ensures HallOn(ms, Chosen(ms))
  {
    if ms != [] {
      var k := |ms| - 1;
      var c := Chosen(ms[..k]);
      ChosenHall(ms[..k]);
      HallOfPrefix(ms, k, c);
      HallTheorem(ms, c + {k});
    }
  }

  /** What was decided for a prefix of the ready order is never reconsidered. */
  lemma {:induction false} ChosenOfPrefix(ms: seq<set<nat>>, k: nat)
    requires k <= |ms|
    ensures Chosen(ms[..k]) == set i | i in Chosen(ms) && i < k
  {
    if k == |ms| {
      assert ms[..k] == ms;
    } else {
      var last := |ms| - 1;
      assert ms[..last][..k] == ms[..k];
      ChosenOfPrefix(ms[..last], k);
    }
  }

  ghost predicate Tight(ms: seq<set<nat>>, T: set<nat>) {
    |Reach(ms, T)| == |T|
  }

  lemma TightUnion(ms: seq<set<nat>>, R: set<nat>, A: set<nat>, B: set<nat>)
    requires HallOn(ms, R) && A <= R && B <= R && Tight(ms, A) && Tight(ms, B)
    ensures Tight(ms, A + B)
    ensures Reach(ms, A) <= Reach(ms, A + B) && Reach(ms, B) <= Reach(ms, A + B)
  {
    var X, Y := Reach(ms, A), Reach(ms, B);
    assert Reach(ms, A + B) == X + Y;
    UnionMeet(X, Y);
    UnionMeet(A, B);
    assert Reach(ms, A * B) <= X * Y;
    SubsetSize(Reach(ms, A * B), X * Y);
    assert A * B <= R && A + B <= R;
  }

  /** A position is refused only because of a group of taken positions that already
      needs every processor it can reach, the refused one's included. */
  lemma RefusalIsTight(ms: seq<set<nat>>, c: set<nat>, k: nat) returns (T: set<nat>)
    requires HallOn(ms, c) && k !in c && k < |ms| && !HallOn(ms, c + {k})
    ensures T <= c && Tight(ms, T) && ms[k] <= Reach(ms, T)
  {
    var S: set<nat> :| S <= c + {k} && |S| > |Reach(ms, S)|;
    assert k !in S ==> S <= c;
    T := S - {k};
    assert S == T + {k};
    assert Reach(ms, S) == Reach(ms, T) + ms[k];
    SubsetSize(Reach(ms, T), Reach(ms, S));
  }

  /** One group of taken positions accounts for every refusal. */
  lemma {:induction false} RefusalsShareATightGroup(ms: seq<set<nat>>) returns (T: set<nat>)
    ensures T <= Chosen(ms) && Tight(ms, T)
    ensures forall i :: 0 <= i < |ms| && i !in Chosen(ms) ==> ms[i] <= Reach(ms, T)
  {
    if ms == [] {
      T := {};
      assert Reach(ms, T) == {};
    } else {
      var k := |ms| - 1;
      var init := ms[..k];
      T := RefusalsShareATightGroup(init);
      ReachOfPrefix(ms, k, T);
      ChosenHall(ms);
      if k !in Chosen(ms) {
        var c := Chosen(init);
        HallTheorem(ms, c + {k});
        var B := RefusalIsTight(ms, c, k);
        TightUnion(ms, c, T, B);
        assert forall i :: 0 <= i < k && i !in c ==> init[i] == ms[i];
        T := T + B;
      } else {
        assert forall i :: 0 <= i < k ==> init[i] == ms[i];
      }
    }
  }

  lemma ImageFills(ms: seq<set<nat>>, R: set<nat>, pl: map<nat, nat>, T: set<nat>)
    requires Places(ms, R, pl) && T <= R && Tight(ms, T)
    ensures Image(pl, T) == Reach(ms, T)
  {
    ImageSize(ms, R, pl, T);
    SubsetSize(Image(pl, T), Reach(ms, T));
  }

  /** However the taken positions are placed, every processor a refused position could
      use is given to a position that comes earlier in the ready order. */
  lemma RefusedIsOvertakenByEarlier(ms: seq<set<nat>>, pl: map<nat, nat>, k: nat, p: nat) returns (i: nat)
    requires Places(ms, Chosen(ms), pl)
    requires k < |ms| && k !in Chosen(ms) && p in ms[k]
    ensures i in pl && i < k && pl[i] == p
  {
    var prefix := ms[..k + 1];
    ChosenOfPrefix(ms, k + 1);
    var T := RefusalsShareATightGroup(prefix);
    ReachOfPrefix(ms, k + 1, T);
    assert prefix[k] == ms[k];
    ImageFills(ms, Chosen(ms), pl, T);
    assert p in Image(pl, T);
    i :| i in T && i in pl && pl[i] == p;
    assert i in Chosen(prefix);
  }

  lemma ConfinedAreFew(ms: seq<set<nat>>, X: set<nat>, inside: set<nat>, T: set<nat>)
    requires HallOn(ms, X) && inside <= X && Tight(ms, T)
    requires forall i :: i in inside ==> i < |ms| && ms[i] <= Reach(ms, T)
    ensures |inside| <= |T|
  {
    assert Reach(ms, inside) <= Reach(ms, T);
    SubsetSize(Reach(ms, inside), Reach(ms, T));
  }

  lemma MemberIsReached(ms: seq<set<nat>>, T: set<nat>, i: nat)
    requires i in T && i < |ms|
    ensures ms[i] <= Reach(ms, T)
  {
  }

  lemma NoLargerPlacement(ms: seq<set<nat>>, X: set<nat>)
    requires HallOn(ms, X) && forall i :: i in X ==> i < |ms|
    ensures |X| <= |Chosen(ms)|
  {
    var c := Chosen(ms);
    var T := RefusalsShareATightGroup(ms);
    var reach := Reach(ms, T);
    var inside := set i | i in X && ms[i] <= reach;
    ConfinedAreFew(ms, X, inside, T);
    forall i | i in X - inside ensures i in c - T {
      if i in T {
        MemberIsReached(ms, T, i);
      }
    }
    SubsetSize(X - inside, c - T);
    assert X == inside + (X - inside);
    assert c == T + (c - T);
  }

  /** No other choice among the first `k` ready positions could run more of them. */
  lemma SelectionIsMaximum(ms: seq<set<nat>>, k: nat, X: set<nat>)
    requires k <= |ms| && (forall i :: i in X ==> i < k) && Placeable(ms, X)
    ensures |X| <= |set i | i in Chosen(ms) && i < k|
  {
    ChosenOfPrefix(ms, k);
    HallTheorem(ms, X);
    HallOfPrefix(ms, k, X);
    NoLargerPlacement(ms[..k], X);
  }
}
