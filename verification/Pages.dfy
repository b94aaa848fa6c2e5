/** The pages of an allocator one after the other, and the way through all their areas. */
module Pages {
  import opened Tasks
  import opened Sequences
  import opened Areas

  /** Page `i` goes from `first[i]` to `last[i]`; the pages follow each other in this order,
      lie apart, and have all areas between them. */
  ghost predicate InPages(next: map<Addr, Addr>, tops: set<Addr>, ends: set<Addr>, first: seq<Addr>, last: seq<Addr>) {
    && |first| == |last| && Edged(tops, ends, first, last)
    && Ordered(next, first, last) && Disjoint(first, last) && Inside(next, first, last)
  }

  ghost predicate Edged(tops: set<Addr>, ends: set<Addr>, first: seq<Addr>, last: seq<Addr>) {
    && (forall t :: t in tops <==> t in first) && (forall e :: e in ends <==> e in last)
  }

  /** The top of page `i`, or the head behind the last one. */
  function TopAt(first: seq<Addr>, i: nat): Addr {
    if i < |first| then first[i] else HEAD
  }

  ghost predicate Ordered(next: map<Addr, Addr>, first: seq<Addr>, last: seq<Addr>)
    requires |first| == |last|
  {
    && HEAD in next && next[HEAD] == TopAt(first, 0)
    && forall i :: 0 <= i < |last| ==> last[i] in next && first[i] in next && next[last[i]] == TopAt(first, i + 1)
  }

  ghost predicate Disjoint(first: seq<Addr>, last: seq<Addr>)
    requires |first| == |last|
  {
    && (forall i :: 0 <= i < |first| ==> HEAD < first[i] < last[i])
    && (forall i, k :: 0 <= i < |first| && 0 <= k < |first| && i != k ==>
          last[i] + QUEUESZ <= first[k] || last[k] + QUEUESZ <= first[i])
  }

  /** Area `a` lies in page `i`. */
  predicate Within(first: seq<Addr>, last: seq<Addr>, i: nat, a: Addr) {
    i < |first| == |last| && first[i] <= a <= last[i]
  }

  ghost predicate Inside(next: map<Addr, Addr>, first: seq<Addr>, last: seq<Addr>) {
    forall a :: a in next && a != HEAD ==> exists i :: Within(first, last, i, a)
  }

  lemma PageOf(next: map<Addr, Addr>, first: seq<Addr>, last: seq<Addr>, a: Addr) returns (i: nat)
    requires Inside(next, first, last) && a in next && a != HEAD
    ensures Within(first, last, i, a)
  {
    i :| Within(first, last, i, a);
  }

  lemma EdgesIn(next: map<Addr, Addr>, tops: set<Addr>, ends: set<Addr>, first: seq<Addr>, last: seq<Addr>, i: nat)
    requires InPages(next, tops, ends, first, last) && i < |first|
    ensures first[i] in next && last[i] in next && first[i] in tops && last[i] in ends && HEAD < first[i] < last[i]
    ensures next[last[i]] == TopAt(first, i + 1)
  {
    hide Inside;
  }

  /** The only end in a page is its last area. */
  lemma OneEnd(tops: set<Addr>, ends: set<Addr>, first: seq<Addr>, last: seq<Addr>, i: nat, a: Addr)
    requires |first| == |last| && Edged(tops, ends, first, last) && Disjoint(first, last) && Within(first, last, i, a)
    ensures a in ends <==> a == last[i]
    ensures a in tops <==> a == first[i]
  {
    if a in ends {
      var k :| 0 <= k < |last| && last[k] == a;
      assert k == i;
    }
    if a in tops {
      var k :| 0 <= k < |first| && first[k] == a;
      assert k == i;
    }
  }

  /** From an area other than the last of its page the way stays in the page. */
  lemma NextWithin(next: map<Addr, Addr>, tops: set<Addr>, ends: set<Addr>, first: seq<Addr>, last: seq<Addr>, i: nat,
                   a: Addr)
    requires InPages(next, tops, ends, first, last) && Apart(next, ends) && Within(first, last, i, a)
    requires a in next && a != last[i]
    ensures a !in ends && a != HEAD && next[a] <= last[i]
  {
    hide Edged, Ordered, Disjoint, Inside, Apart;
    EdgesIn(next, tops, ends, first, last, i);
    OneEnd(tops, ends, first, last, i, a);
    Gap(next, ends, a, last[i]);
  }

  /** Cutting an area. */
  lemma InsertKeepsPages(next: map<Addr, Addr>, tops: set<Addr>, ends: set<Addr>, first: seq<Addr>, last: seq<Addr>,
                         que: Addr, ent: Addr)
    requires InPages(next, tops, ends, first, last) && Apart(next, ends) && que in next && que != HEAD && que !in ends
    requires que < ent < next[que] && ent !in next
    ensures InPages(InsertedNext(next, que, ent), tops, ends, first, last)
  {
    hide Edged, Ordered, Disjoint, Inside, Apart;
    var i := PageOf(next, first, last, que);
    OneEnd(tops, ends, first, last, i, que);
    if que == last[i] {
      EdgesIn(next, tops, ends, first, last, i);
    }
    NextWithin(next, tops, ends, first, last, i, que);
    InsertKeepsInside(next, first, last, que, ent, i);
    InsertKeepsOrdered(next, tops, ends, first, last, que, ent);
  }

  lemma InsertKeepsInside(next: map<Addr, Addr>, first: seq<Addr>, last: seq<Addr>, que: Addr, ent: Addr, i: nat)
    requires Inside(next, first, last) && que in next && Within(first, last, i, ent)
    ensures Inside(InsertedNext(next, que, ent), first, last)
  {
  }

  lemma InsertKeepsOrdered(next: map<Addr, Addr>, tops: set<Addr>, ends: set<Addr>, first: seq<Addr>, last: seq<Addr>,
                           que: Addr, ent: Addr)
    requires |first| == |last| && Ordered(next, first, last) && Edged(tops, ends, first, last)
    requires que in next && que != HEAD && que !in ends && ent !in next
    ensures Ordered(InsertedNext(next, que, ent), first, last)
  {
    forall i | 0 <= i < |last| ensures last[i] != que && last[i] != ent {
      assert last[i] in last;
    }
    hide Edged;
  }

  /** Joining two areas. */
  lemma RemoveKeepsPages(next: map<Addr, Addr>, prev: map<Addr, Addr>, tops: set<Addr>, ends: set<Addr>,
                         first: seq<Addr>, last: seq<Addr>, x: Addr)
    requires InPages(next, tops, ends, first, last) && x in next && x in prev && x !in tops && x !in ends && x != HEAD
    requires prev[x] in next && prev[x] != HEAD && prev[x] !in ends
    ensures InPages(RemovedNext(next, prev, x), tops, ends, first, last)
  {
    hide Edged, Ordered, Disjoint, Inside;
    RemoveKeepsInside(next, prev, first, last, x);
    RemoveKeepsOrdered(next, prev, tops, ends, first, last, x);
  }

  lemma RemoveKeepsInside(next: map<Addr, Addr>, prev: map<Addr, Addr>, first: seq<Addr>, last: seq<Addr>, x: Addr)
    requires Inside(next, first, last) && x in next && x in prev && prev[x] in next
    ensures Inside(RemovedNext(next, prev, x), first, last)
  {
  }

  lemma RemoveKeepsOrdered(next: map<Addr, Addr>, prev: map<Addr, Addr>, tops: set<Addr>, ends: set<Addr>,
                           first: seq<Addr>, last: seq<Addr>, x: Addr)
    requires |first| == |last| && Ordered(next, first, last) && Edged(tops, ends, first, last)
    requires x in next && x in prev && x !in tops && x !in ends && x != HEAD && prev[x] in next
    requires prev[x] != HEAD && prev[x] !in ends
    ensures Ordered(RemovedNext(next, prev, x), first, last)
  {
    forall i | 0 <= i < |last| ensures last[i] != x && last[i] != prev[x] && first[i] != x {
      assert last[i] in last && first[i] in first;
    }
    hide Edged;
  }

  /** Every area leads to an area, and inside a page to a higher one. */
  ghost predicate Leads(next: map<Addr, Addr>, ends: set<Addr>) {
    forall b :: b in next ==> next[b] in next && (b != HEAD && b !in ends ==> b < next[b])
  }

  lemma LeadsAt(next: map<Addr, Addr>, ends: set<Addr>, b: Addr)
    requires Leads(next, ends) && b in next
    ensures next[b] in next && (b != HEAD && b !in ends ==> b < next[b])
  {
  }

  /** A page that reaches below `t` ends below it, if no area reaches into the page from `t`. */
  lemma EndsBelow(next: map<Addr, Addr>, tops: set<Addr>, ends: set<Addr>, first: seq<Addr>, last: seq<Addr>, i: nat,
                  a: Addr, t: Addr, e: Addr)
    requires Within(first, last, i, a) && a in next && a < t && a != HEAD && Leads(next, ends)
    requires FreshPage(next, ends, t, e) && Apart(next, ends) && InPages(next, tops, ends, first, last)
    ensures last[i] < t
    decreases last[i] - a
  {
    hide InPages, Apart, FreshPage, Leads;
    FreshPageFacts(next, ends, t, e);
    if a != last[i] {
      NextWithin(next, tops, ends, first, last, i, a);
      LeadsAt(next, ends, a);
      FreshAt(next, ends, t, e, a);
      FreshAt(next, ends, t, e, next[a]);
      EndsBelow(next, tops, ends, first, last, i, next[a], t, e);
    }
  }

  /** A new page is the first. */
  lemma AddKeepsPages(next: map<Addr, Addr>, tops: set<Addr>, ends: set<Addr>, first: seq<Addr>, last: seq<Addr>,
                      t: Addr, e: Addr)
    requires t !in next && e !in next && HEAD < t < e && HEAD in next && Leads(next, ends)
    requires FreshPage(next, ends, t, e) && Apart(next, ends) && InPages(next, tops, ends, first, last)
    ensures InPages(PagedNext(next, t, e), tops + {t}, ends + {e}, [t] + first, [e] + last)
  {
    hide Edged, Ordered, Disjoint, Inside, Apart, FreshPage, Leads, PagedNext;
    forall i | 0 <= i < |first| ensures last[i] + QUEUESZ <= t || e + QUEUESZ <= first[i] {
      EdgesIn(next, tops, ends, first, last, i);
      FreshAt(next, ends, t, e, first[i]);
      if first[i] < t {
        EndsBelow(next, tops, ends, first, last, i, first[i], t, e);
        FreshAt(next, ends, t, e, last[i]);
        FreshPageFacts(next, ends, t, e);
      }
    }
    AddKeepsDisjoint(first, last, t, e);
    AddKeepsInside(next, first, last, t, e);
    AddKeepsOrdered(next, first, last, t, e);
    AddKeepsEdged(tops, ends, first, last, t, e);
  }

  lemma AddKeepsDisjoint(first: seq<Addr>, last: seq<Addr>, t: Addr, e: Addr)
    requires |first| == |last| && Disjoint(first, last) && HEAD < t < e
    requires forall i :: 0 <= i < |first| ==> last[i] + QUEUESZ <= t || e + QUEUESZ <= first[i]
    ensures Disjoint([t] + first, [e] + last)
  {
  }

  lemma AddKeepsInside(next: map<Addr, Addr>, first: seq<Addr>, last: seq<Addr>, t: Addr, e: Addr)
    requires Inside(next, first, last) && |first| == |last| && HEAD in next && HEAD < t < e
    ensures Inside(PagedNext(next, t, e), [t] + first, [e] + last)
  {
    hide PagedNext;
    PagedIs(next, t, e);
    var f, l := [t] + first, [e] + last;
    forall a | a in PagedNext(next, t, e) && a != HEAD ensures exists k :: Within(f, l, k, a) {
      if a in next {
        var k := PageOf(next, first, last, a);
        assert Within(f, l, k + 1, a);
      } else {
        assert Within(f, l, 0, a);
      }
    }
  }

  lemma AddKeepsOrdered(next: map<Addr, Addr>, first: seq<Addr>, last: seq<Addr>, t: Addr, e: Addr)
    requires |first| == |last| && Ordered(next, first, last) && Disjoint(first, last) && t !in next
    requires e !in next && HEAD < t < e
    ensures HEAD in next && Ordered(PagedNext(next, t, e), [t] + first, [e] + last)
  {
    hide PagedNext;
    PagedIs(next, t, e);
    var f, l, n' := [t] + first, [e] + last, PagedNext(next, t, e);
    forall i | 0 <= i < |l| ensures l[i] in n' && f[i] in n' && n'[l[i]] == TopAt(f, i + 1) {
      if i > 0 {
        assert l[i] == last[i - 1] && f[i] == first[i - 1];
      }
    }
  }

  lemma AddKeepsEdged(tops: set<Addr>, ends: set<Addr>, first: seq<Addr>, last: seq<Addr>, t: Addr, e: Addr)
    requires Edged(tops, ends, first, last)
    ensures Edged(tops + {t}, ends + {e}, [t] + first, [e] + last)
  {
  }

  /** The page of `t` goes, when it has no area but the first and the last. */
  lemma DropKeepsPages(next: map<Addr, Addr>, prev: map<Addr, Addr>, tops: set<Addr>, ends: set<Addr>,
                       first: seq<Addr>, last: seq<Addr>, i: nat)
    requires i < |first| && Linked(next, prev) && first[i] in next && CanUnpage(next, prev, first[i])
    requires Apart(next, ends) && Leads(next, ends) && InPages(next, tops, ends, first, last)
    requires next[first[i]] == last[i]
    ensures InPages(UnpagedNext(next, prev, first[i]), tops - {first[i]}, ends - {last[i]}, RemoveAt(first, i),
              RemoveAt(last, i))
  {
    hide Edged, Ordered, Disjoint, Inside, Apart, Leads, UnpagedNext, Linked;
    EdgesIn(next, tops, ends, first, last, i);
    LinkedAt(next, prev, first[i]);
    UnpagedIs(next, prev, first[i]);
    DropKeepsDisjoint(first, last, i);
    forall a | a in next && Within(first, last, i, a) ensures a == first[i] || a == last[i] {
      if a != first[i] {
        OneEnd(tops, ends, first, last, i, first[i]);
        Gap(next, ends, first[i], a);
      }
    }
    DropKeepsInside(next, prev, first, last, i);
    DropKeepsOrdered(next, prev, first, last, i);
    DropKeepsEdged(tops, ends, first, last, i);
  }

  lemma DropKeepsDisjoint(first: seq<Addr>, last: seq<Addr>, i: nat)
    requires |first| == |last| && Disjoint(first, last) && i < |first|
    ensures Disjoint(RemoveAt(first, i), RemoveAt(last, i))
  {
    var f, l := RemoveAt(first, i), RemoveAt(last, i);
    assert forall k :: 0 <= k < |f| ==>
             f[k] == first[if k < i then k else k + 1] && l[k] == last[if k < i then k else k + 1];
  }

  lemma DropKeepsEdged(tops: set<Addr>, ends: set<Addr>, first: seq<Addr>, last: seq<Addr>, i: nat)
    requires Edged(tops, ends, first, last) && |first| == |last| && Disjoint(first, last) && i < |first|
    ensures Edged(tops - {first[i]}, ends - {last[i]}, RemoveAt(first, i), RemoveAt(last, i))
  {
    forall k | 0 <= k < |first| && k != i ensures first[k] != first[i] && last[k] != last[i] {
    }
    hide Disjoint;
    InRemoved(first, i);
    InRemoved(last, i);
  }

  lemma InRemoved(s: seq<Addr>, i: nat)
    requires i < |s| && forall k :: 0 <= k < |s| && k != i ==> s[k] != s[i]
    ensures forall x :: x in RemoveAt(s, i) <==> x in s && x != s[i]
  {
    var d := RemoveAt(s, i);
    forall x | x in s && x != s[i] ensures x in d {
      var k :| 0 <= k < |s| && s[k] == x;
      assert d[if k < i then k else k - 1] == x;
    }
    forall x | x in d ensures x in s && x != s[i] {
      var k :| 0 <= k < |d| && d[k] == x;
      assert s[if k < i then k else k + 1] == x;
    }
  }

  /** An area of another page is within that page still. */
  lemma DropKeepsInside(next: map<Addr, Addr>, prev: map<Addr, Addr>, first: seq<Addr>, last: seq<Addr>, i: nat)
    requires i < |first| == |last| && Inside(next, first, last) && Linked(next, prev) && CanUnpage(next, prev, first[i])
    requires prev[next[first[i]]] == first[i] && next[first[i]] == last[i] != first[i]
    requires forall a :: a in next && Within(first, last, i, a) ==> a == first[i] || a == last[i]
    ensures Inside(UnpagedNext(next, prev, first[i]), RemoveAt(first, i), RemoveAt(last, i))
  {
    hide UnpagedNext, Linked, CanUnpage;
    UnpagedIs(next, prev, first[i]);
    var f, l := RemoveAt(first, i), RemoveAt(last, i);
    forall a | a in UnpagedNext(next, prev, first[i]) && a != HEAD ensures exists k :: Within(f, l, k, a) {
      var k := PageOf(next, first, last, a);
      assert k != i;
      assert Within(f, l, if k < i then k else k - 1, a);
    }
  }

  lemma DropKeepsOrdered(next: map<Addr, Addr>, prev: map<Addr, Addr>, first: seq<Addr>, last: seq<Addr>, i: nat)
    requires i < |first| == |last| && Ordered(next, first, last) && Disjoint(first, last)
    requires Linked(next, prev) && CanUnpage(next, prev, first[i]) && prev[next[first[i]]] == first[i]
    requires next[first[i]] == last[i]
    ensures Ordered(UnpagedNext(next, prev, first[i]), RemoveAt(first, i), RemoveAt(last, i))
  {
    hide UnpagedNext, CanUnpage, Linked;
    UnpagedIs(next, prev, first[i]);
    var f, l, n' := RemoveAt(first, i), RemoveAt(last, i), UnpagedNext(next, prev, first[i]);
    var before := if i == 0 then HEAD else last[i - 1];
    assert before in next && next[before] == first[i];
    LinkedAt(next, prev, before);
    forall k | 0 <= k < |l| ensures l[k] in n' && f[k] in n' && n'[l[k]] == TopAt(f, k + 1) {
      DropKeepsOneOrdered(next, first, last, i, k, n', before);
    }
    assert n'[HEAD] == TopAt(f, 0) && HEAD in n' by {
      if i > 0 {
        assert HEAD < first[0] < last[0] && HEAD < last[i - 1];
      }
    }
  }

  lemma DropKeepsOneOrdered(next: map<Addr, Addr>, first: seq<Addr>, last: seq<Addr>, i: nat, k: nat,
                            n': map<Addr, Addr>, before: Addr)
    requires i < |first| == |last| && k < |last| - 1 && Ordered(next, first, last) && Disjoint(first, last)
    requires before == if i == 0 then HEAD else last[i - 1]
    requires n'.Keys == next.Keys - {first[i], last[i]}
    requires forall a :: a in n' ==> n'[a] == if a == before then next[last[i]] else next[a]
    ensures var f, l := RemoveAt(first, i), RemoveAt(last, i); l[k] in n' && f[k] in n' && n'[l[k]] == TopAt(f, k + 1)
  {
    hide Ordered, Disjoint;
    var k0 := if k < i then k else k + 1;
    var f, l := RemoveAt(first, i), RemoveAt(last, i);
    assert l[k] == last[k0] && f[k] == first[k0] && k0 != i;
    OrderedAt(next, first, last, k0);
    OrderedAt(next, first, last, i);
    DisjointAt(first, last, i, k0);
    if i > 0 {
      DisjointAt(first, last, i - 1, k0);
    }
    if k + 1 < |f| {
      assert f[k + 1] == first[if k + 1 < i then k + 1 else k + 2];
    }
  }

  lemma OrderedAt(next: map<Addr, Addr>, first: seq<Addr>, last: seq<Addr>, k: nat)
    requires |first| == |last| && Ordered(next, first, last) && k < |last|
    ensures last[k] in next && first[k] in next && next[last[k]] == TopAt(first, k + 1)
  {
  }

  lemma DisjointAt(first: seq<Addr>, last: seq<Addr>, i: nat, k: nat)
    requires |first| == |last| && Disjoint(first, last) && i < |first| && k < |first|
    ensures HEAD < first[i] < last[i] && HEAD < first[k] < last[k]
    ensures i != k ==> last[i] + QUEUESZ <= first[k] || last[k] + QUEUESZ <= first[i]
  {
  }
}
