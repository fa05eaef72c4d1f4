/** Lists without repetition, and sublists. */
module Lists {
  ghost predicate NoneTwice<T(!new)>(items: seq<T>) {
    forall i, j :: 0 <= i < j < |items| ==> items[i] != items[j]
  }

  /** The first of each, in order. */
  function Distinct<T(==, !new)>(items: seq<T>): (distinct: seq<T>)
    ensures forall x :: x in distinct <==> x in items
    ensures distinct == [] <==> items == []
    ensures NoneTwice(distinct)
  {
    if items == [] then []
    else
      var last := |items| - 1;
      var before := Distinct(items[..last]);
      assert items == items[..last] + [items[last]];
      if items[last] in before then before else before + [items[last]]
  }

  /** What is kept of the first n items comes first: so each item stands where it was first met. */
  lemma {:induction false} DistinctOfPrefix<T(!new)>(items: seq<T>, n: nat)
    requires n <= |items|
    ensures Distinct(items[..n]) <= Distinct(items)
  {
    if n == |items| {
      assert items[..n] == items;
    } else {
      var last := |items| - 1;
      DistinctOfPrefix(items[..last], n);
      assert items[..last][..n] == items[..n];
    }
  }

  /** `part` can be had from `whole` by leaving items out. */
  predicate Sublist<T(==)>(part: seq<T>, whole: seq<T>)
    decreases |whole|
  {
    if part == [] then true
    else if whole == [] then false
    else
      var m, n := |part| - 1, |whole| - 1;
      (part[m] == whole[n] && Sublist(part[..m], whole[..n])) || Sublist(part, whole[..n])
  }

  lemma SublistGrows<T>(part: seq<T>, whole: seq<T>, n: nat, keep: bool)
    requires n < |whole| && Sublist(part, whole[..n])
    ensures Sublist(part + if keep then [whole[n]] else [], whole[..n + 1])
  {
    assert whole[..n + 1][..n] == whole[..n];
    if keep {
      assert (part + [whole[n]])[..|part|] == part;
    } else {
      assert part + [] == part;
    }
  }

  lemma {:induction false} DistinctIsSublist<T(!new)>(items: seq<T>)
    ensures Sublist(Distinct(items), items)
  {
    if items != [] {
      var last := |items| - 1;
      DistinctIsSublist(items[..last]);
      SublistGrows(Distinct(items[..last]), items, last, items[last] !in Distinct(items[..last]));
      assert items[..last + 1] == items;
    }
  }

  /** The items that satisfy the predicate, in their order. */
  function Where<T>(items: seq<T>, p: T -> bool): seq<T> {
    if items == [] then []
    else
      var last := |items| - 1;
      Where(items[..last], p) + if p(items[last]) then [items[last]] else []
  }

  /** The k-th item is the only one that satisfies the predicate. */
  predicate OnlyAt<T>(items: seq<T>, p: T -> bool, k: int) {
    0 <= k < |items| && forall j :: 0 <= j < |items| ==> (p(items[j]) <==> j == k)
  }

  lemma {:induction false} WhereAll<T>(items: seq<T>, p: T -> bool)
    requires forall j :: 0 <= j < |items| ==> p(items[j])
    ensures Where(items, p) == items
  {
    if items != [] {
      WhereAll(items[..|items| - 1], p);
    }
  }

  lemma OneMoreWhere<T>(items: seq<T>, x: T, p: T -> bool)
    ensures Where(items + [x], p) == Where(items, p) + if p(x) then [x] else []
  {
    assert (items + [x])[..|items|] == items;
  }

  /** Looking twice is looking for both. */
  lemma {:induction false} WhereOfWhere<T>(items: seq<T>, p: T -> bool, q: T -> bool, both: T -> bool)
    requires forall x :: both(x) <==> p(x) && q(x)
    ensures Where(Where(items, p), q) == Where(items, both)
  {
    if items != [] {
      var last := |items| - 1;
      var before := Where(items[..last], p);
      WhereOfWhere(items[..last], p, q, both);
      if p(items[last]) {
        OneMoreWhere(before, items[last], q);
      } else {
        assert Where(items, p) == before;
      }
    }
  }

  lemma {:induction false} WhereNone<T>(items: seq<T>, p: T -> bool)
    requires forall j :: 0 <= j < |items| ==> !p(items[j])
    ensures Where(items, p) == []
  {
    if items != [] {
      WhereNone(items[..|items| - 1], p);
    }
  }

  lemma {:induction false} WhereOnly<T>(items: seq<T>, p: T -> bool, k: int)
    requires OnlyAt(items, p, k)
    ensures Where(items, p) == [items[k]]
  {
    var last := |items| - 1;
    assert p(items[last]) <==> last == k;
    if k == last {
      WhereNone(items[..last], p);
    } else {
      WhereOnly(items[..last], p, k);
    }
  }

  lemma {:induction false} WhereSome<T>(items: seq<T>, p: T -> bool, i: int)
    requires 0 <= i < |items| && p(items[i])
    ensures |Where(items, p)| >= 1
  {
    if i < |items| - 1 {
      WhereSome(items[..|items| - 1], p, i);
    }
  }

  lemma {:induction false} WhereTwo<T>(items: seq<T>, p: T -> bool, i: int, j: int)
    requires 0 <= i < j < |items| && p(items[i]) && p(items[j])
    ensures |Where(items, p)| >= 2
  {
    if j < |items| - 1 {
      WhereTwo(items[..|items| - 1], p, i, j);
    } else {
      WhereSome(items[..|items| - 1], p, i);
    }
  }

  /** One item is found exactly if there is only one, and then that one. */
  lemma WhereOne<T>(items: seq<T>, p: T -> bool)
    ensures |Where(items, p)| == 1 <==> exists k :: OnlyAt(items, p, k)
    ensures forall k :: OnlyAt(items, p, k) ==> Where(items, p) == [items[k]]
  {
    forall k | OnlyAt(items, p, k) ensures Where(items, p) == [items[k]] {
      WhereOnly(items, p, k);
    }
    if forall j :: 0 <= j < |items| ==> !p(items[j]) {
      WhereNone(items, p);
    } else {
      var k :| 0 <= k < |items| && p(items[k]);
      if j :| 0 <= j < |items| && j != k && p(items[j]) {
        WhereTwo(items, p, if j < k then j else k, if j < k then k else j);
      } else {
        assert OnlyAt(items, p, k);
      }
    }
  }

  function NonEmpty(items: seq<string>): (rest: seq<string>)
    ensures forall item :: item in rest <==> item in items && item != ""
  {
    if items == [] then []
    else
      var last := |items| - 1;
      assert items == items[..last] + [items[last]];
      if items[last] == "" then NonEmpty(items[..last]) else NonEmpty(items[..last]) + [items[last]]
  }
}
