/**
 * The bag-size catalog and its read-only views (BagSizeRepository).
 * Every view is a pure function of a snapshot of the stored rows; the query
 * builder's `active()` scope is `Active`, and each `orderBy` / `sortBy` is
 * `SortBy` with the matching ordering.
 */
module Catalog {
  import opened Wrappers

  /** One row of the bag_sizes table. Weight is in kg, price in pounds; both decimal(8,2). */
  datatype Bag = Bag(name: string, weight: real, price: real, isActive: bool, sortOrder: int)

  /** The orderings the repository asks for. */
  datatype Ordering =
    | WeightDescending        // heaviest first
    | WeightAscending         // lightest first
    | PricePerKgAscending     // cheapest per kilogram first
    | SortOrderThenWeight     // by sort order, then lightest first

  ghost predicate PositiveWeights(s: seq<Bag>) {
    forall b :: b in s ==> b.weight > 0.0
  }

  ghost predicate UniqueNames(s: seq<Bag>) {
    forall i, j :: 0 <= i < j < |s| ==> s[i].name != s[j].name
  }

  /** What the optimizer relies on: active bags have positive weights and distinct names. */
  ghost predicate WellFormed(catalog: seq<Bag>) {
    PositiveWeights(Active(catalog)) && UniqueNames(Active(catalog))
  }

  /** The `active()` scope: keeps the rows with is_active set, in their stored order. */
  function Active(catalog: seq<Bag>): (r: seq<Bag>)
    ensures forall b :: multiset(r)[b] == if b.isActive then multiset(catalog)[b] else 0
  {
    if catalog == [] then []
    else
      assert catalog == [catalog[0]] + catalog[1..];
      (if catalog[0].isActive then [catalog[0]] else []) + Active(catalog[1..])
  }

  /** price / weight, the key of the price-per-kg ordering. */
  function PricePerKg(b: Bag): real
    requires b.weight > 0.0
  {
    b.price / b.weight
  }

  /**
   * a may precede b under ordering o. The price-per-kg comparison divides by
   * the weights, so it only holds between bags of positive weight.
   */
  predicate Precedes(o: Ordering, a: Bag, b: Bag) {
    match o
    case WeightDescending => a.weight >= b.weight
    case WeightAscending => a.weight <= b.weight
    case PricePerKgAscending => a.weight > 0.0 && b.weight > 0.0 && PricePerKg(a) <= PricePerKg(b)
    case SortOrderThenWeight =>
      a.sortOrder < b.sortOrder || (a.sortOrder == b.sortOrder && a.weight <= b.weight)
  }

  /** The bags o may compare: every bag, except that price-per-kg needs positive weights. */
  ghost predicate Comparable(o: Ordering, s: seq<Bag>) {
    o.PricePerKgAscending? ==> PositiveWeights(s)
  }

  ghost predicate Sorted(o: Ordering, s: seq<Bag>) {
    forall i, j :: 0 <= i < j < |s| ==> Precedes(o, s[i], s[j])
  }

  lemma PrecedesTotal(o: Ordering, a: Bag, b: Bag)
    requires o.PricePerKgAscending? ==> a.weight > 0.0 && b.weight > 0.0
    ensures Precedes(o, a, b) || Precedes(o, b, a)
  {}

  lemma PrecedesTransitive(o: Ordering, a: Bag, b: Bag, c: Bag)
    requires Precedes(o, a, b) && Precedes(o, b, c)
    ensures Precedes(o, a, c)
  {}

  /** Places x in front of the first element it may precede. */
  function Insert(o: Ordering, x: Bag, s: seq<Bag>): (r: seq<Bag>)
    ensures multiset(r) == multiset(s) + multiset{x}
  {
    if s == [] then [x]
    else if Precedes(o, x, s[0]) then [x] + s
    else
      assert s == [s[0]] + s[1..];
      [s[0]] + Insert(o, x, s[1..])
  }

  lemma InsertMembers(o: Ordering, x: Bag, s: seq<Bag>)
    ensures forall y :: y in Insert(o, x, s) ==> y == x || y in s
  {
    forall y | y in Insert(o, x, s) ensures y == x || y in s {
      assert y in multiset(Insert(o, x, s));
    }
  }

  lemma {:induction false} InsertSorted(o: Ordering, x: Bag, s: seq<Bag>)
    requires Comparable(o, [x] + s)
    requires Sorted(o, s)
    ensures Sorted(o, Insert(o, x, s))
  {
    if s == [] {
    } else if Precedes(o, x, s[0]) {
      forall j | 0 < j < |s| ensures Precedes(o, x, s[j]) {
        PrecedesTransitive(o, x, s[0], s[j]);
      }
    } else {
      assert s[0] in [x] + s && x in [x] + s;
      PrecedesTotal(o, x, s[0]);
      assert Comparable(o, [x] + s[1..]) by {
        forall y | y in [x] + s[1..] ensures y in [x] + s {}
      }
      InsertSorted(o, x, s[1..]);
      var rest := Insert(o, x, s[1..]);
      InsertMembers(o, x, s[1..]);
      forall y | y in rest ensures Precedes(o, s[0], y) {
        if y != x {
          var k :| 0 <= k < |s[1..]| && s[1..][k] == y;
          assert s[k + 1] == y;
        }
      }
      assert Insert(o, x, s) == [s[0]] + rest;
    }
  }

  lemma {:induction false} InsertUnique(o: Ordering, x: Bag, s: seq<Bag>)
    requires UniqueNames(s)
    requires forall y :: y in s ==> y.name != x.name
    ensures UniqueNames(Insert(o, x, s))
  {
    if s != [] && !Precedes(o, x, s[0]) {
      InsertUnique(o, x, s[1..]);
      var rest := Insert(o, x, s[1..]);
      InsertMembers(o, x, s[1..]);
      forall y | y in rest ensures y.name != s[0].name {
        if y != x {
          var k :| 0 <= k < |s[1..]| && s[1..][k] == y;
          assert s[k + 1] == y;
        }
      }
      assert Insert(o, x, s) == [s[0]] + rest;
    }
  }

  /** Insertion sort: a permutation of s, sorted under o. Equal keys keep their input order. */
  function SortBy(o: Ordering, s: seq<Bag>): (r: seq<Bag>)
    requires Comparable(o, s)
    ensures multiset(r) == multiset(s)
    ensures Sorted(o, r)
    ensures UniqueNames(s) ==> UniqueNames(r)
  {
    if s == [] then []
    else
      assert s == [s[0]] + s[1..];
      var rest := SortBy(o, s[1..]);
      SortByHelper(o, s, rest);
      Insert(o, s[0], rest)
  }

  /** The step of SortBy: inserting the head into the sorted tail keeps order and distinct names. */
  lemma SortByHelper(o: Ordering, s: seq<Bag>, rest: seq<Bag>)
    requires s != [] && Comparable(o, s)
    requires multiset(rest) == multiset(s[1..]) && Sorted(o, rest)
    requires UniqueNames(s[1..]) ==> UniqueNames(rest)
    ensures Sorted(o, Insert(o, s[0], rest))
    ensures UniqueNames(s) ==> UniqueNames(Insert(o, s[0], rest))
  {
    assert s == [s[0]] + s[1..];
    forall y | y in rest ensures y in s[1..] && y in s { assert y in multiset(rest); }
    assert Comparable(o, [s[0]] + rest) by {
      forall y | y in [s[0]] + rest ensures y in s {}
    }
    InsertSorted(o, s[0], rest);
    if UniqueNames(s) {
      forall y | y in rest ensures y.name != s[0].name {
        var k :| 0 <= k < |s[1..]| && s[1..][k] == y;
        assert s[k + 1] == y;
      }
      InsertUnique(o, s[0], rest);
    }
  }

  /** Sequences with the same multiset have the same length and the same members. */
  lemma SameElements(a: seq<Bag>, b: seq<Bag>)
    requires multiset(a) == multiset(b)
    ensures |a| == |b|
    ensures forall x :: x in a <==> x in b
  {
    assert |multiset(a)| == |multiset(b)|;
    forall x ensures x in a <==> x in b {
      assert x in a <==> x in multiset(a);
      assert x in b <==> x in multiset(b);
    }
  }

  /** The first of a list sorted by ascending weight is a lightest one. */
  lemma FirstIsLightest(s: seq<Bag>)
    requires s != [] && Sorted(WeightAscending, s)
    ensures forall b :: b in s ==> s[0].weight <= b.weight
  {
    forall b | b in s ensures s[0].weight <= b.weight {
      var k :| 0 <= k < |s| && s[k] == b;
      if k > 0 {
        assert Precedes(WeightAscending, s[0], s[k]);
      }
    }
  }

  /** getActiveBags: the active bags by sort_order, then by weight. */
  function GetActiveBags(catalog: seq<Bag>): (r: seq<Bag>)
    ensures multiset(r) == multiset(Active(catalog))
    ensures forall b :: b in r ==> b.isActive
    ensures forall i, j :: 0 <= i < j < |r| ==>
      r[i].sortOrder < r[j].sortOrder || (r[i].sortOrder == r[j].sortOrder && r[i].weight <= r[j].weight)
  {
    var r := SortBy(SortOrderThenWeight, Active(catalog));
    SameElements(r, Active(catalog));
    assert forall b :: b in Active(catalog) ==> b.isActive by {
      forall b | b in Active(catalog) ensures b.isActive { assert b in multiset(Active(catalog)); }
    }
    r
  }

  /** getBagsSortedByWeight: the active bags, heaviest first. */
  function GetBagsSortedByWeight(catalog: seq<Bag>): (r: seq<Bag>)
    ensures multiset(r) == multiset(Active(catalog))
    ensures forall i, j :: 0 <= i < j < |r| ==> r[i].weight >= r[j].weight
    ensures UniqueNames(Active(catalog)) ==> UniqueNames(r)
  {
    SortBy(WeightDescending, Active(catalog))
  }

  /** The last of the active bags by descending weight is a lightest active bag. */
  lemma LastByWeightIsLightest(catalog: seq<Bag>)
    requires Active(catalog) != []
    ensures GetBagsSortedByWeight(catalog) != []
    ensures var r := GetBagsSortedByWeight(catalog);
      forall b :: b in Active(catalog) ==> r[|r| - 1].weight <= b.weight
  {
    var r := GetBagsSortedByWeight(catalog);
    SameElements(r, Active(catalog));
    LastIsLightest(r);
  }

  /** The last of a list sorted by descending weight is a lightest one. */
  lemma LastIsLightest(s: seq<Bag>)
    requires s != [] && forall i, j :: 0 <= i < j < |s| ==> s[i].weight >= s[j].weight
    ensures forall b :: b in s ==> s[|s| - 1].weight <= b.weight
  {
    forall b | b in s ensures s[|s| - 1].weight <= b.weight {
      var k :| 0 <= k < |s| && s[k] == b;
      if k < |s| - 1 {
        assert s[k].weight >= s[|s| - 1].weight;
      }
    }
  }

  /** getBagsSortedByPricePerKg: the active bags, cheapest per kg first, reindexed from 0. */
  function GetBagsSortedByPricePerKg(catalog: seq<Bag>): (r: seq<Bag>)
    requires PositiveWeights(Active(catalog))
    ensures multiset(r) == multiset(Active(catalog))
    ensures forall b :: b in r ==> b.weight > 0.0
    ensures forall i, j :: 0 <= i < j < |r| ==> PricePerKg(r[i]) <= PricePerKg(r[j])
    ensures UniqueNames(Active(catalog)) ==> UniqueNames(r)
  {
    var r := SortBy(PricePerKgAscending, Active(catalog));
    SameElements(r, Active(catalog));
    r
  }

  /**
   * getSmallestBag: the first active bag by ascending weight, or None when no
   * bag is active. Of equal lightest bags the query names no particular one;
   * this model takes the first in stored order.
   */
  function GetSmallestBag(catalog: seq<Bag>): (r: Option<Bag>)
    ensures r.None? <==> Active(catalog) == []
    ensures r.Some? ==> r.value in Active(catalog)
    ensures r.Some? ==> forall b :: b in Active(catalog) ==> r.value.weight <= b.weight
  {
    var ordered := SortBy(WeightAscending, Active(catalog));
    SameElements(ordered, Active(catalog));
    if ordered == [] then None
    else
      FirstIsLightest(ordered);
      Some(ordered[0])
  }
}
