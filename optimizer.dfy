/**
 * The bag-combination optimizer (BagOptimizationService).
 *
 * `GetSimpleCombination` is the source's greedy covering loop, written as a
 * method over an insertion-ordered map of counts. It is proved equal to
 * `Combine`, an index-based reference definition of the same greedy choice,
 * and the properties the service promises are lemmas about `Combine`.
 */
module Optimizer {
  import opened Wrappers
  import opened Numbers
  import opened Catalog

  /** One element of the result's 'bags' list. */
  datatype Entry = Entry(count: int, weight: real, price: real, name: string)

  /** The array the service returns. */
  datatype Combination = Combination(
    bags: seq<Entry>,
    totalWeight: real,
    totalCost: real,
    wastagePercentage: real,
    wastageKg: real)

  /** The RuntimeException('No bag sizes available') of the fallback. */
  datatype OptimizerError = NoBagSizesAvailable

  function EntryFor(b: Bag, count: int): Entry {
    Entry(count, b.weight, b.price, b.name)
  }

  /** The entry carries the name, weight and price of the bag found for it. */
  predicate Matches(e: Entry, found: Option<Bag>) {
    found.Some? && found.value.name == e.name && found.value.weight == e.weight && found.value.price == e.price
  }

  // ---------------------------------------------------------------------------
  // Name lookup: the first bag in the list whose name matches

  /** Position of the first bag called name, or -1. */
  function IndexOf(bags: seq<Bag>, name: string): (k: int)
    ensures -1 <= k < |bags|
    ensures 0 <= k ==> bags[k].name == name && forall j :: 0 <= j < k ==> bags[j].name != name
    ensures k < 0 ==> forall j :: 0 <= j < |bags| ==> bags[j].name != name
  {
    if bags == [] then -1
    else if bags[0].name == name then 0
    else
      var k := IndexOf(bags[1..], name);
      if k < 0 then -1 else k + 1
  }

  function FirstWhere(bags: seq<Bag>, name: string): (r: Option<Bag>)
    ensures r.Some? ==> r.value in bags && r.value.name == name
    ensures r.Some? ==> exists k :: 0 <= k < |bags| && bags[k] == r.value && forall j :: 0 <= j < k ==> bags[j].name != name
    ensures r.None? ==> forall b :: b in bags ==> b.name != name
  {
    var k := IndexOf(bags, name);
    if k < 0 then None else Some(bags[k])
  }

  /** With distinct names, looking a bag's name up finds that very bag. */
  lemma FirstWhereFindsBag(bags: seq<Bag>, k: int)
    requires UniqueNames(bags) && 0 <= k < |bags|
    ensures FirstWhere(bags, bags[k].name) == Some(bags[k])
  {
    var j := IndexOf(bags, bags[k].name);
    assert 0 <= j && bags[j].name == bags[k].name;
  }

  // ---------------------------------------------------------------------------
  // Reference definition of the greedy covering

  /** floor(remaining / weight): whole units of a bag that fit in what is left. */
  function Units(remaining: real, weight: real): int
    requires weight > 0.0
  {
    Floor(remaining / weight)
  }

  /** What is left after taking Units(remaining, weight) of a bag. */
  function Remainder(remaining: real, weight: real): real
    requires weight > 0.0
  {
    remaining - Times(Units(remaining, weight), weight)
  }

  /** Taking whole units leaves less than one unit and never more than there was. */
  lemma RemainderBounds(remaining: real, weight: real)
    requires weight > 0.0 && remaining > 0.0
    ensures Units(remaining, weight) >= 0
    ensures 0.0 <= Remainder(remaining, weight) < weight
    ensures Remainder(remaining, weight) <= remaining
  {
    FloorDivision(remaining, weight);
  }

  /**
   * How many units of each bag the greedy loop takes when `remaining` kg are
   * still to be covered: floor(remaining / weight) of each bag in turn, and
   * nothing once the requirement is covered.
   */
  function Takes(bags: seq<Bag>, remaining: real): (t: seq<int>)
    requires PositiveWeights(bags)
    ensures |t| == |bags|
    ensures forall k :: 0 <= k < |t| ==> t[k] >= 0
  {
    if bags == [] then []
    else
      assert bags[0] in bags;
      if remaining <= 0.0 then [0] + Takes(bags[1..], remaining)
      else
        RemainderBounds(remaining, bags[0].weight);
        [Units(remaining, bags[0].weight)] + Takes(bags[1..], Remainder(remaining, bags[0].weight))
  }

  /** What is still uncovered when the greedy loop ends. */
  function Leftover(bags: seq<Bag>, remaining: real): real
    requires PositiveWeights(bags)
  {
    if bags == [] || remaining <= 0.0 then remaining
    else
      assert bags[0] in bags;
      Leftover(bags[1..], Remainder(remaining, bags[0].weight))
  }

  /** The counts with one more unit of the last bag. */
  function Bump(t: seq<int>): (u: seq<int>)
    requires t != []
    ensures |u| == |t|
  {
    t[|t| - 1 := t[|t| - 1] + 1]
  }

  /** The greedy counts, plus one unit of the last bag when mass is still uncovered. */
  function Counts(bags: seq<Bag>, required: real): (c: seq<int>)
    requires PositiveWeights(bags)
    ensures |c| == |bags|
  {
    var t := Takes(bags, required);
    if bags != [] && Leftover(bags, required) > 0.0 then Bump(t) else t
  }

  /** One entry per bag with a positive count, in the order of the bag list. */
  function Entries(bags: seq<Bag>, counts: seq<int>): (es: seq<Entry>)
    requires |counts| == |bags|
  {
    if bags == [] then []
    else (if counts[0] > 0 then [EntryFor(bags[0], counts[0])] else []) + Entries(bags[1..], counts[1..])
  }

  /** Sum of count × weight. */
  function SumWeight(es: seq<Entry>): real {
    if es == [] then 0.0 else Times(es[0].count, es[0].weight) + SumWeight(es[1..])
  }

  /** Sum of count × price. */
  function SumCost(es: seq<Entry>): real {
    if es == [] then 0.0 else Times(es[0].count, es[0].price) + SumCost(es[1..])
  }

  /** The excess of a total over the requirement, in percent of the requirement. */
  function ExcessPercent(total: real, required: real): real
    requires required != 0.0
  {
    (total - required) / required * 100.0
  }

  /** The combination the greedy service returns for bags already in iteration order. */
  function Combine(bags: seq<Bag>, required: real): Combination
    requires PositiveWeights(bags) && required != 0.0
  {
    var es := Entries(bags, Counts(bags, required));
    var total := SumWeight(es);
    Combination(es, total, SumCost(es),
      Round(ExcessPercent(total, required), 1),
      Round(total - required, 2))
  }

  /**
   * The figures of a combination agree with its entries: the totals are the
   * sums of count × weight and count × price, and the wastage is the excess
   * over the requirement, in kg to two decimals and in percent to one.
   */
  predicate Consistent(c: Combination, required: real)
    requires required != 0.0
  {
    && c.totalWeight == SumWeight(c.bags)
    && c.totalCost == SumCost(c.bags)
    && c.wastageKg == Round(c.totalWeight - required, 2)
    && c.wastagePercentage == Round(ExcessPercent(c.totalWeight, required), 1)
  }

  // ---------------------------------------------------------------------------
  // Lemmas about the reference definition

  lemma SumSingleton(e: Entry)
    ensures SumWeight([e]) == Times(e.count, e.weight)
    ensures SumCost([e]) == Times(e.count, e.price)
  {
    assert [e][1..] == [];
    assert [e][0] == e;
  }

  lemma {:induction false} SumAppend(xs: seq<Entry>, ys: seq<Entry>)
    ensures SumWeight(xs + ys) == SumWeight(xs) + SumWeight(ys)
    ensures SumCost(xs + ys) == SumCost(xs) + SumCost(ys)
  {
    if xs == [] {
      assert xs + ys == ys;
    } else {
      assert (xs + ys)[0] == xs[0];
      assert (xs + ys)[1..] == xs[1..] + ys;
      SumAppend(xs[1..], ys);
    }
  }

  lemma {:induction false} EntriesAppend(b1: seq<Bag>, c1: seq<int>, b2: seq<Bag>, c2: seq<int>)
    requires |b1| == |c1| && |b2| == |c2|
    ensures Entries(b1 + b2, c1 + c2) == Entries(b1, c1) + Entries(b2, c2)
  {
    if b1 == [] {
      assert b1 + b2 == b2 && c1 + c2 == c2;
    } else {
      assert (b1 + b2)[0] == b1[0] && (c1 + c2)[0] == c1[0];
      assert (b1 + b2)[1..] == b1[1..] + b2;
      assert (c1 + c2)[1..] == c1[1..] + c2;
      EntriesAppend(b1[1..], c1[1..], b2, c2);
    }
  }

  /** Every entry has a positive count; none is called `name` if no bag is. */
  lemma {:induction false} EntriesAvoidName(bags: seq<Bag>, counts: seq<int>, name: string)
    requires |counts| == |bags|
    requires forall k :: 0 <= k < |bags| ==> bags[k].name != name
    ensures forall e :: e in Entries(bags, counts) ==> e.name != name && e.count > 0
  {
    if bags != [] {
      EntriesAvoidName(bags[1..], counts[1..], name);
    }
  }

  /** Once the requirement is covered the loop takes nothing more. */
  lemma {:induction false} NothingTakenOnceCovered(bags: seq<Bag>, remaining: real)
    requires PositiveWeights(bags) && remaining <= 0.0
    ensures Entries(bags, Takes(bags, remaining)) == []
  {
    if bags != [] {
      NothingTakenOnceCovered(bags[1..], remaining);
    }
  }

  /**
   * The greedy loop never overshoots: what it leaves uncovered is the
   * requirement minus what it took, it is never negative, and it is less
   * than the weight of the last bag.
   */
  lemma {:induction false} GreedyNeverOvershoots(bags: seq<Bag>, remaining: real)
    requires PositiveWeights(bags) && remaining >= 0.0
    ensures Leftover(bags, remaining) == remaining - SumWeight(Entries(bags, Takes(bags, remaining)))
    ensures 0.0 <= Leftover(bags, remaining) <= remaining
    ensures bags != [] ==> Leftover(bags, remaining) < bags[|bags| - 1].weight
  {
    if bags == [] {
    } else if remaining <= 0.0 {
      NothingTakenOnceCovered(bags, remaining);
      assert bags[|bags| - 1] in bags;
    } else {
      var rest := GreedyStep(bags, remaining);
      GreedyNeverOvershoots(bags[1..], rest);
      assert |bags| > 1 ==> bags[1..][|bags[1..]| - 1] == bags[|bags| - 1];
    }
  }

  /** Whatever the requirement, what the loop leaves is the requirement less the weight it took. */
  lemma LeftoverIsUncovered(bags: seq<Bag>, required: real)
    requires PositiveWeights(bags)
    ensures Leftover(bags, required) == required - SumWeight(Entries(bags, Takes(bags, required)))
  {
    if required >= 0.0 {
      GreedyNeverOvershoots(bags, required);
    } else {
      NothingTakenOnceCovered(bags, required);
      assert Leftover(bags, required) == required;
    }
  }

  /**
   * One pass of the loop body: floor(remaining / w) units of the first bag
   * are taken; what is left is less than w and not negative.
   */
  lemma GreedyStep(bags: seq<Bag>, remaining: real) returns (rest: real)
    requires PositiveWeights(bags) && bags != [] && remaining > 0.0
    ensures 0.0 <= rest < bags[0].weight && rest <= remaining
    ensures Takes(bags, remaining)[1..] == Takes(bags[1..], rest)
    ensures Leftover(bags, remaining) == Leftover(bags[1..], rest)
    ensures SumWeight(Entries(bags, Takes(bags, remaining)))
      == (remaining - rest) + SumWeight(Entries(bags[1..], Takes(bags[1..], rest)))
  {
    TakesUnfold(bags, remaining);
    rest := Remainder(remaining, bags[0].weight);
    RemainderBounds(remaining, bags[0].weight);
    HeadSums(bags, Takes(bags, remaining));
  }

  /** The sums over the entries split into the first bag's part and the rest. */
  lemma HeadSums(bags: seq<Bag>, t: seq<int>)
    requires |t| == |bags| > 0 && t[0] >= 0
    ensures SumWeight(Entries(bags, t)) == Times(t[0], bags[0].weight) + SumWeight(Entries(bags[1..], t[1..]))
    ensures SumCost(Entries(bags, t)) == Times(t[0], bags[0].price) + SumCost(Entries(bags[1..], t[1..]))
  {
    EntriesHead(bags, t);
    var e := EntryFor(bags[0], t[0]);
    var x := Times(t[0], bags[0].weight);
    var y := Times(t[0], bags[0].price);
    if t[0] > 0 {
      assert StepEntry(bags[0], t[0]) == [e];
      SumSingleton(e);
      assert SumWeight(StepEntry(bags[0], t[0])) == x;
      assert SumCost(StepEntry(bags[0], t[0])) == y;
    } else {
      assert StepEntry(bags[0], t[0]) == [];
      assert t[0] == 0;
      TimesNext(0, bags[0].weight);
      TimesNext(0, bags[0].price);
      assert SumWeight(StepEntry(bags[0], t[0])) == x;
      assert SumCost(StepEntry(bags[0], t[0])) == y;
    }
  }

  lemma TakesUnfold(bags: seq<Bag>, remaining: real)
    requires PositiveWeights(bags) && bags != [] && remaining > 0.0
    ensures bags[0].weight > 0.0
    ensures Takes(bags, remaining)[0] == Units(remaining, bags[0].weight)
    ensures Takes(bags, remaining)[1..] == Takes(bags[1..], Remainder(remaining, bags[0].weight))
    ensures Leftover(bags, remaining) == Leftover(bags[1..], Remainder(remaining, bags[0].weight))
  {
    assert bags[0] in bags;
    var tail := Takes(bags[1..], Remainder(remaining, bags[0].weight));
    assert Takes(bags, remaining) == [Units(remaining, bags[0].weight)] + tail;
  }

  /** The entry for `count` units of a bag, or none when the count is not positive. */
  function StepEntry(bag: Bag, count: int): seq<Entry> {
    if count > 0 then [EntryFor(bag, count)] else []
  }

  lemma EntriesHead(bags: seq<Bag>, t: seq<int>)
    requires |t| == |bags| > 0
    ensures Entries(bags, t) == StepEntry(bags[0], t[0]) + Entries(bags[1..], t[1..])
    ensures SumWeight(Entries(bags, t)) == SumWeight(StepEntry(bags[0], t[0])) + SumWeight(Entries(bags[1..], t[1..]))
    ensures SumCost(Entries(bags, t)) == SumCost(StepEntry(bags[0], t[0])) + SumCost(Entries(bags[1..], t[1..]))
  {
    SumAppend(StepEntry(bags[0], t[0]), Entries(bags[1..], t[1..]));
  }

  /** Raising the last count by one adds one unit of the last bag to both sums. */
  lemma {:induction false} TopUpAddsLastBag(bags: seq<Bag>, t: seq<int>)
    requires |t| == |bags| > 0 && forall k :: 0 <= k < |t| ==> t[k] >= 0
    ensures SumWeight(Entries(bags, Bump(t)))
      == SumWeight(Entries(bags, t)) + bags[|bags| - 1].weight
    ensures SumCost(Entries(bags, Bump(t)))
      == SumCost(Entries(bags, t)) + bags[|bags| - 1].price
  {
    var u := Bump(t);
    if |bags| > 1 {
      var rest := t[1..];
      assert forall k :: 0 <= k < |rest| ==> rest[k] >= 0 by {
        forall k | 0 <= k < |rest| ensures rest[k] >= 0 { assert rest[k] == t[k + 1]; }
      }
      assert u[0] == t[0] && u[1..] == Bump(rest);
      TopUpAddsLastBag(bags[1..], rest);
      HeadSums(bags, t);
      HeadSums(bags, u);
    } else {
      assert Entries(bags[1..], t[1..]) == [] && Entries(bags[1..], u[1..]) == [];
      assert u[0] == t[0] + 1;
      HeadSums(bags, t);
      HeadSums(bags, u);
      TimesNext(t[0], bags[0].weight);
      TimesNext(t[0], bags[0].price);
    }
  }

  /** The total weight of the greedy counts, topped up. */
  function CoverWeight(bags: seq<Bag>, required: real): real
    requires PositiveWeights(bags) && required > 0.0
  {
    SumWeight(Entries(bags, Counts(bags, required)))
  }

  /**
   * The counts never under-fill: with a non-empty bag list they weigh at
   * least the requirement and exceed it by less than the last bag's weight;
   * any excess comes from the top-up alone. With no bags there is nothing.
   */
  lemma CountsCover(bags: seq<Bag>, required: real)
    requires PositiveWeights(bags) && required > 0.0
    ensures bags != [] ==> required <= CoverWeight(bags, required) < required + bags[|bags| - 1].weight
    ensures CoverWeight(bags, required) > required <==> bags != [] && Leftover(bags, required) > 0.0
    ensures bags == [] ==> Entries(bags, Counts(bags, required)) == [] && CoverWeight(bags, required) == 0.0
  {
    GreedyNeverOvershoots(bags, required);
    if bags != [] && Leftover(bags, required) > 0.0 {
      TopUpAddsLastBag(bags, Takes(bags, required));
    }
  }

  lemma CombineUnfold(bags: seq<Bag>, required: real)
    requires PositiveWeights(bags) && required != 0.0
    ensures var es := Entries(bags, Counts(bags, required));
      Combine(bags, required) == Combination(es, SumWeight(es), SumCost(es),
        Round(ExcessPercent(SumWeight(es), required), 1), Round(SumWeight(es) - required, 2))
  {
  }

  /**
   * The combination never under-fills: with a non-empty bag list its total
   * weight is at least the requirement and exceeds it by less than the last
   * bag's weight; any excess comes from the top-up alone. With no bags the
   * combination is empty.
   */
  lemma CombineCovers(bags: seq<Bag>, required: real)
    requires PositiveWeights(bags) && required > 0.0
    ensures bags != [] ==> required <= Combine(bags, required).totalWeight < required + bags[|bags| - 1].weight
    ensures Combine(bags, required).totalWeight > required <==> bags != [] && Leftover(bags, required) > 0.0
    ensures bags == [] ==>
      && Combine(bags, required).bags == []
      && Combine(bags, required).totalWeight == 0.0
      && Combine(bags, required).totalCost == 0.0
  {
    CountsCover(bags, required);
    assert Combine(bags, required).totalWeight == CoverWeight(bags, required);
    assert Combine(bags, required).bags == Entries(bags, Counts(bags, required));
  }

  /** A negative requirement is covered before the loop starts: nothing is bought and nothing topped up. */
  lemma NothingRequired(bags: seq<Bag>, required: real)
    requires PositiveWeights(bags) && required < 0.0
    ensures Combine(bags, required).bags == []
    ensures Combine(bags, required).totalWeight == 0.0 && Combine(bags, required).totalCost == 0.0
  {
    NothingTakenOnceCovered(bags, required);
    assert Leftover(bags, required) == required;
    assert Counts(bags, required) == Takes(bags, required);
  }

  /**
   * The entries of the combination: each has a count of at least one,
   * carries the name, weight and price of the bag its name finds, and they
   * follow the order of the bag list, so no name appears twice.
   */
  lemma CombineEntries(bags: seq<Bag>, required: real)
    requires PositiveWeights(bags) && UniqueNames(bags) && required != 0.0
    ensures forall e :: e in Combine(bags, required).bags ==> e.count >= 1 && Matches(e, FirstWhere(bags, e.name))
    ensures InBagOrder(bags, Combine(bags, required).bags)
  {
    var es := Entries(bags, Counts(bags, required));
    assert Combine(bags, required).bags == es;
    EntriesFound(bags, Counts(bags, required));
    EntriesFromBags(bags, Counts(bags, required));
    EntriesFollowBagOrder(bags, Counts(bags, required));
  }

  /** Each entry is a bag of the list, found again by its name when names are distinct. */
  lemma {:induction false} EntriesFound(bags: seq<Bag>, counts: seq<int>)
    requires |counts| == |bags| && UniqueNames(bags)
    ensures forall e :: e in Entries(bags, counts) ==> Matches(e, FirstWhere(bags, e.name))
  {
    if bags != [] {
      EntriesFound(bags[1..], counts[1..]);
      EntriesAvoidName(bags[1..], counts[1..], bags[0].name);
      FirstWhereFindsBag(bags, 0);
      forall e | e in Entries(bags[1..], counts[1..])
        ensures FirstWhere(bags, e.name) == FirstWhere(bags[1..], e.name)
      {
        assert IndexOf(bags, e.name) == (var k := IndexOf(bags[1..], e.name); if k < 0 then -1 else k + 1);
      }
    }
  }

  /** Every entry has a count of at least one and names a bag of the list. */
  lemma {:induction false} EntriesFromBags(bags: seq<Bag>, counts: seq<int>)
    requires |counts| == |bags|
    ensures forall e :: e in Entries(bags, counts) ==> e.count >= 1 && 0 <= IndexOf(bags, e.name)
  {
    if bags != [] {
      EntriesFromBags(bags[1..], counts[1..]);
      forall e | e in Entries(bags, counts)
        ensures e.count >= 1 && 0 <= IndexOf(bags, e.name)
      {
        if e !in Entries(bags[1..], counts[1..]) {
          assert e == EntryFor(bags[0], counts[0]);
        }
      }
    }
  }

  /**
   * Entries appear in the order of the bag list, which is the insertion
   * order of the accumulation map; hence no name appears twice.
   */
  lemma {:induction false} EntriesFollowBagOrder(bags: seq<Bag>, counts: seq<int>)
    requires |counts| == |bags| && UniqueNames(bags)
    ensures InBagOrder(bags, Entries(bags, counts))
  {
    if bags != [] {
      var tail := Entries(bags[1..], counts[1..]);
      EntriesFollowBagOrder(bags[1..], counts[1..]);
      EntriesFromBags(bags[1..], counts[1..]);
      EntriesAvoidName(bags[1..], counts[1..], bags[0].name);
      ShiftOrder(bags, tail);
      if counts[0] > 0 {
        PrependOrder(bags, EntryFor(bags[0], counts[0]), tail);
      }
    }
  }

  /** Entry names appear in strictly increasing position in the bag list. */
  ghost predicate InBagOrder(bags: seq<Bag>, es: seq<Entry>) {
    forall i, j :: 0 <= i < j < |es| ==> IndexOf(bags, es[i].name) < IndexOf(bags, es[j].name)
  }

  /** Entries ordered along bags[1..] stay ordered along bags, after the first position. */
  lemma ShiftOrder(bags: seq<Bag>, tail: seq<Entry>)
    requires bags != [] && InBagOrder(bags[1..], tail)
    requires forall e :: e in tail ==> e.name != bags[0].name && 0 <= IndexOf(bags[1..], e.name)
    ensures InBagOrder(bags, tail)
    ensures forall e :: e in tail ==> 1 <= IndexOf(bags, e.name)
  {
    forall e | e in tail ensures IndexOf(bags, e.name) == IndexOf(bags[1..], e.name) + 1 {
      IndexOfTail(bags, e.name);
    }
    forall i, j | 0 <= i < j < |tail| ensures IndexOf(bags, tail[i].name) < IndexOf(bags, tail[j].name) {
      assert tail[i] in tail && tail[j] in tail;
    }
  }

  /** The first bag's entry goes before entries of later bags. */
  lemma PrependOrder(bags: seq<Bag>, first: Entry, tail: seq<Entry>)
    requires bags != [] && first.name == bags[0].name && InBagOrder(bags, tail)
    requires forall e :: e in tail ==> 1 <= IndexOf(bags, e.name)
    ensures InBagOrder(bags, [first] + tail)
  {
    var es := [first] + tail;
    assert IndexOf(bags, first.name) == 0;
    forall i, j | 0 <= i < j < |es| ensures IndexOf(bags, es[i].name) < IndexOf(bags, es[j].name) {
      assert es[j] == tail[j - 1] && tail[j - 1] in tail;
      if i == 0 {
        assert es[i] == first;
      } else {
        assert es[i] == tail[i - 1];
      }
    }
  }

  /** Past the first bag, positions shift by one. */
  lemma IndexOfTail(bags: seq<Bag>, name: string)
    requires bags != [] && bags[0].name != name
    ensures IndexOf(bags, name) == if IndexOf(bags[1..], name) < 0 then -1 else IndexOf(bags[1..], name) + 1
  {
  }

  // ---------------------------------------------------------------------------
  // The service

  /** The count recorded under a key of the accumulation map, or 0 when the key is absent. */
  function CountOf(counts: map<string, int>, key: string): int {
    if key in counts then counts[key] else 0
  }

  /** The accumulation map, which remembers insertion order: its keys in that order, and the count under each key. */
  ghost predicate Tallies(order: seq<string>, counts: map<string, int>, es: seq<Entry>) {
    && |order| == |es|
    && (forall j :: 0 <= j < |es| ==> order[j] == es[j].name && order[j] in counts && counts[order[j]] == es[j].count)
    && (forall n :: n in counts ==> n in order)
  }

  /** getSortedBags: price-per-kg order for 'cost', weight order for anything else. */
  function GetSortedBags(catalog: seq<Bag>, optimizeBy: string): (bags: seq<Bag>)
    requires PositiveWeights(Active(catalog))
    ensures multiset(bags) == multiset(Active(catalog))
    ensures forall b :: b in bags ==> b.weight > 0.0
    ensures UniqueNames(Active(catalog)) ==> UniqueNames(bags)
    ensures optimizeBy == "cost" ==> forall i, j :: 0 <= i < j < |bags| ==> PricePerKg(bags[i]) <= PricePerKg(bags[j])
    ensures optimizeBy != "cost" ==> forall i, j :: 0 <= i < j < |bags| ==> bags[i].weight >= bags[j].weight
  {
    var bags := if optimizeBy == "cost" then GetBagsSortedByPricePerKg(catalog) else GetBagsSortedByWeight(catalog);
    assert forall b :: b in bags ==> b.weight > 0.0 by {
      forall b | b in bags ensures b.weight > 0.0 { assert b in multiset(bags); }
    }
    bags
  }

  /**
   * Under the weight ordering the bag the top-up adds (the last one visited)
   * is a lightest active bag.
   */
  lemma TopUpBagIsLightest(catalog: seq<Bag>, optimizeBy: string)
    requires PositiveWeights(Active(catalog)) && Active(catalog) != [] && optimizeBy != "cost"
    ensures GetSortedBags(catalog, optimizeBy) != []
    ensures var bags := GetSortedBags(catalog, optimizeBy);
      forall b :: b in Active(catalog) ==> bags[|bags| - 1].weight <= b.weight
  {
    assert GetSortedBags(catalog, optimizeBy) == GetBagsSortedByWeight(catalog);
    LastByWeightIsLightest(catalog);
  }

  /** findOptimalCombination: sort the active bags for the objective, then run the greedy covering. */
  method FindOptimalCombination(catalog: seq<Bag>, requiredKg: real, optimizeBy: string) returns (r: Combination)
    requires WellFormed(catalog)
    requires requiredKg != 0.0
    ensures r == Combine(GetSortedBags(catalog, optimizeBy), requiredKg)
    ensures Consistent(r, requiredKg)
    ensures requiredKg > 0.0 && Active(catalog) != [] ==> requiredKg <= r.totalWeight
    ensures requiredKg < 0.0 || Active(catalog) == [] ==> r.bags == [] && r.totalWeight == 0.0 && r.totalCost == 0.0
  {
    var bags := GetSortedBags(catalog, optimizeBy);
    assert |bags| == |Active(catalog)| by {
      assert |multiset(bags)| == |multiset(Active(catalog))|;
    }
    r := GetSimpleCombination(bags, requiredKg, optimizeBy);
    if requiredKg > 0.0 {
      CombineCovers(bags, requiredKg);
    } else {
      NothingRequired(bags, requiredKg);
    }
  }

  /**
   * One pass of the greedy loop at index i, stated on the suffix the loop
   * has not yet visited: it takes `count` units of bags[i] and leaves `next`.
   */
  lemma LoopStep(bags: seq<Bag>, i: int, remaining: real, count: int, next: real, done: seq<Entry>)
    requires PositiveWeights(bags) && 0 <= i < |bags| && remaining > 0.0
    requires bags[i].weight > 0.0 && count == Units(remaining, bags[i].weight)
    requires next == if count > 0 then remaining - Times(count, bags[i].weight) else remaining
    ensures Leftover(bags[i + 1..], next) == Leftover(bags[i..], remaining)
    ensures done + Entries(bags[i..], Takes(bags[i..], remaining))
      == (done + StepEntry(bags[i], count)) + Entries(bags[i + 1..], Takes(bags[i + 1..], next))
  {
    var rest := bags[i..];
    assert rest[0] == bags[i] && rest[1..] == bags[i + 1..];
    var t := Takes(rest, remaining);
    TakesUnfold(rest, remaining);
    RemainderBounds(remaining, bags[i].weight);
    TimesNext(0, bags[i].weight);
    EntriesHead(rest, t);
  }

  /** Recording a new key in the accumulation map appends it to the key order. */
  lemma TallyAppend(order: seq<string>, counts: map<string, int>, done: seq<Entry>, e: Entry)
    requires Tallies(order, counts, done)
    requires forall d :: d in done ==> d.name != e.name
    ensures e.name !in counts
    ensures Tallies(order + [e.name], counts[e.name := e.count], done + [e])
  {
    forall j | 0 <= j < |order| ensures order[j] != e.name {
      assert done[j] in done;
    }
  }

  /** Names taken up to index i differ from the names of the bags after it. */
  lemma NamesStayAhead(bags: seq<Bag>, i: int, done: seq<Entry>)
    requires UniqueNames(bags) && 0 <= i < |bags| && done != []
    requires done[|done| - 1].name == bags[i].name
    requires forall e :: e in done[..|done| - 1] ==> forall k :: i <= k < |bags| ==> e.name != bags[k].name
    ensures forall e :: e in done ==> forall k :: i + 1 <= k < |bags| ==> e.name != bags[k].name
  {
    forall e | e in done ensures forall k :: i + 1 <= k < |bags| ==> e.name != bags[k].name {
      if e !in done[..|done| - 1] {
        assert done == done[..|done| - 1] + [done[|done| - 1]];
        assert e == done[|done| - 1];
      }
    }
  }

  /**
   * getSimpleCombination: greedy covering over bags in the given order,
   * a one-unit top-up of the last bag, then the result assembled from the
   * accumulation map. `optimizeBy` is accepted and unused, as in the source.
   */
  method GetSimpleCombination(bags: seq<Bag>, requiredKg: real, optimizeBy: string) returns (r: Combination)
    requires PositiveWeights(bags) && UniqueNames(bags)
    requires requiredKg != 0.0
    ensures r == Combine(bags, requiredKg)
    ensures Consistent(r, requiredKg)
  {
    var order, counts, remaining, totalCost := Accumulate(bags, requiredKg);
    order, counts, remaining, totalCost := TopUp(bags, requiredKg, order, counts, remaining, totalCost);
    ghost var es := Entries(bags, Counts(bags, requiredKg));
    EntriesFound(bags, Counts(bags, requiredKg));
    var combination := Assemble(bags, order, counts, es);
    var totalWeight := SumWeight(combination);
    var wastage := ExcessPercent(totalWeight, requiredKg);
    r := Combination(combination, totalWeight, totalCost, Round(wastage, 1), Round(totalWeight - requiredKg, 2));
    assert r == Combine(bags, requiredKg) by {
      CombineUnfold(bags, requiredKg);
    }
  }

  /**
   * The greedy loop of getSimpleCombination: floor(remaining / weight) units
   * of each bag in turn, until the requirement is covered. The accumulation
   * map it builds tallies the entries of `Takes`, and what it leaves
   * uncovered is `Leftover`.
   */
  method Accumulate(bags: seq<Bag>, requiredKg: real)
    returns (order: seq<string>, counts: map<string, int>, remaining: real, totalCost: real)
    requires PositiveWeights(bags) && UniqueNames(bags)
    requires requiredKg != 0.0
    ensures Tallies(order, counts, Entries(bags, Takes(bags, requiredKg)))
    ensures remaining == Leftover(bags, requiredKg)
    ensures remaining == requiredKg - SumWeight(Entries(bags, Takes(bags, requiredKg)))
    ensures totalCost == SumCost(Entries(bags, Takes(bags, requiredKg)))
  {
    order := [];
    counts := map[];
    remaining := requiredKg;
    totalCost := 0.0;
    ghost var done: seq<Entry> := [];
    assert bags[0..] == bags;

    var i := 0;
    while i < |bags|
      invariant 0 <= i <= |bags|
      invariant done + Entries(bags[i..], Takes(bags[i..], remaining)) == Entries(bags, Takes(bags, requiredKg))
      invariant Leftover(bags[i..], remaining) == Leftover(bags, requiredKg)
      invariant totalCost == SumCost(done)
      invariant Tallies(order, counts, done)
      invariant forall e :: e in done ==> forall k :: i <= k < |bags| ==> e.name != bags[k].name
    {
      if remaining <= 0.0 {
        break;
      }
      var bag := bags[i];
      assert bag in bags;
      var count := Units(remaining, bag.weight);
      ghost var previous := remaining;
      ghost var before := done;
      if count > 0 {
        var key := bag.name;
        TallyAppend(order, counts, done, EntryFor(bag, count));
        if key !in counts {
          order := order + [key];
        }
        counts := counts[key := CountOf(counts, key) + count];
        remaining := remaining - Times(count, bag.weight);
        totalCost := totalCost + Times(count, bag.price);
        SumAppend(done, [EntryFor(bag, count)]);
        SumSingleton(EntryFor(bag, count));
        done := done + [EntryFor(bag, count)];
        assert done[..|done| - 1] == before;
        NamesStayAhead(bags, i, done);
      } else {
        assert done == before + StepEntry(bag, count);
      }
      LoopStep(bags, i, previous, count, remaining, before);
      i := i + 1;
    }
    if i < |bags| {
      NothingTakenOnceCovered(bags[i..], remaining);
    }
    assert done == Entries(bags, Takes(bags, requiredKg));
    LeftoverIsUncovered(bags, requiredKg);
  }

  /**
   * The top-up of getSimpleCombination: while mass is still uncovered, one
   * more unit of the last bag, which turns the tally of `Takes` into the
   * tally of `Counts`.
   */
  method TopUp(bags: seq<Bag>, requiredKg: real, order: seq<string>, counts: map<string, int>, remaining: real, totalCost: real)
    returns (order': seq<string>, counts': map<string, int>, remaining': real, totalCost': real)
    requires PositiveWeights(bags) && UniqueNames(bags)
    requires requiredKg != 0.0
    requires Tallies(order, counts, Entries(bags, Takes(bags, requiredKg)))
    requires remaining == Leftover(bags, requiredKg)
    requires remaining == requiredKg - SumWeight(Entries(bags, Takes(bags, requiredKg)))
    requires totalCost == SumCost(Entries(bags, Takes(bags, requiredKg)))
    ensures Tallies(order', counts', Entries(bags, Counts(bags, requiredKg)))
    ensures remaining' == requiredKg - SumWeight(Entries(bags, Counts(bags, requiredKg)))
    ensures totalCost' == SumCost(Entries(bags, Counts(bags, requiredKg)))
  {
    order', counts', remaining', totalCost' := order, counts, remaining, totalCost;
    if remaining > 0.0 && |bags| > 0 {
      var smallest := bags[|bags| - 1];
      var key := smallest.name;
      if key !in counts {
        order' := order + [key];
      }
      counts' := counts[key := CountOf(counts, key) + 1];
      remaining' := remaining - smallest.weight;
      totalCost' := totalCost + smallest.price;
      ghost var t := Takes(bags, requiredKg);
      assert Counts(bags, requiredKg) == Bump(t);
      ghost var prefix := TopUpShape(bags, t);
      TallyTopUp(order, counts, prefix, smallest, t[|t| - 1], Entries(bags, t), Entries(bags, Bump(t)), order', counts');
      TopUpSums(bags, requiredKg);
    } else {
      assert Counts(bags, requiredKg) == Takes(bags, requiredKg);
    }
  }

  /**
   * The entries before and after the top-up share the entries of all bags
   * but the last, none of which is named like the last bag.
   */
  lemma TopUpShape(bags: seq<Bag>, t: seq<int>) returns (prefix: seq<Entry>)
    requires |t| == |bags| > 0 && t[|t| - 1] >= 0 && UniqueNames(bags)
    ensures Entries(bags, t) == prefix + StepEntry(bags[|bags| - 1], t[|t| - 1])
    ensures Entries(bags, Bump(t)) == prefix + [EntryFor(bags[|bags| - 1], t[|t| - 1] + 1)]
    ensures forall e :: e in prefix ==> e.name != bags[|bags| - 1].name
  {
    prefix := Entries(bags[..|bags| - 1], t[..|t| - 1]);
    LastSplit(bags, t);
    BumpSplit(bags, t);
    PrefixAvoidsLast(bags, t);
  }

  /** Raising the last count by one turns the last entry into one with that count plus one. */
  lemma BumpSplit(bags: seq<Bag>, t: seq<int>)
    requires |t| == |bags| > 0 && t[|t| - 1] >= 0
    ensures Entries(bags, Bump(t)) == Entries(bags[..|bags| - 1], t[..|t| - 1]) + [EntryFor(bags[|bags| - 1], t[|t| - 1] + 1)]
  {
    var n := |bags|;
    var bumped := Bump(t);
    LastSplit(bags, bumped);
    assert bumped[..n - 1] == t[..n - 1];
  }

  /** The top-up adds one unit of the last bag to the weight and to the cost. */
  lemma TopUpSums(bags: seq<Bag>, required: real)
    requires PositiveWeights(bags)
    requires bags != [] && Leftover(bags, required) > 0.0
    ensures SumWeight(Entries(bags, Counts(bags, required)))
      == SumWeight(Entries(bags, Takes(bags, required))) + bags[|bags| - 1].weight
    ensures SumCost(Entries(bags, Counts(bags, required)))
      == SumCost(Entries(bags, Takes(bags, required))) + bags[|bags| - 1].price
  {
    assert Counts(bags, required) == Bump(Takes(bags, required));
    TopUpAddsLastBag(bags, Takes(bags, required));
  }

  /**
   * The conversion loop of getSimpleCombination: one entry per key of the
   * accumulation map, in insertion order, with the bag found by name. When
   * the map tallies `es` and every entry's bag is found, the result is `es`.
   */
  method Assemble(bags: seq<Bag>, order: seq<string>, counts: map<string, int>, ghost es: seq<Entry>)
    returns (combination: seq<Entry>)
    requires Tallies(order, counts, es)
    requires forall e :: e in es ==> Matches(e, FirstWhere(bags, e.name))
    ensures combination == es
  {
    combination := [];
    var j := 0;
    while j < |order|
      invariant 0 <= j <= |order|
      invariant combination == es[..j]
    {
      var name := order[j];
      assert es[j] in es;
      var found := FirstWhere(bags, name);
      if found.Some? {
        combination := combination + [Entry(counts[name], found.value.weight, found.value.price, found.value.name)];
      }
      j := j + 1;
    }
    assert es[..j] == es;
  }

  lemma SplitLast<T>(s: seq<T>)
    requires |s| > 0
    ensures s == s[..|s| - 1] + [s[|s| - 1]]
  {
  }

  lemma EntriesOne(bag: Bag, count: int)
    ensures Entries([bag], [count]) == StepEntry(bag, count)
  {
    assert [bag][1..] == [] && [count][1..] == [];
  }

  /** The entries split into those of all bags but the last, and the last one's. */
  lemma LastSplit(bags: seq<Bag>, t: seq<int>)
    requires |t| == |bags| > 0
    ensures Entries(bags, t) == Entries(bags[..|bags| - 1], t[..|t| - 1]) + StepEntry(bags[|bags| - 1], t[|t| - 1])
  {
    var n := |bags|;
    SplitLast(bags);
    SplitLast(t);
    EntriesAppend(bags[..n - 1], t[..n - 1], [bags[n - 1]], [t[n - 1]]);
    EntriesOne(bags[n - 1], t[n - 1]);
  }

  /**
   * The top-up on the accumulation map: adding one unit under the bag's
   * name either bumps that key's count (the last key, when the loop took
   * `c` > 0 units of the bag) or appends the key; either way the map then
   * tallies the entries with the bag's count raised to c + 1.
   */
  lemma TallyTopUp(order: seq<string>, counts: map<string, int>, prefix: seq<Entry>, bag: Bag, c: int,
                   done: seq<Entry>, after: seq<Entry>, order': seq<string>, counts': map<string, int>)
    requires forall e :: e in prefix ==> e.name != bag.name
    requires c >= 0
    requires done == prefix + StepEntry(bag, c) && after == prefix + [EntryFor(bag, c + 1)]
    requires order' == (if bag.name in counts then order else order + [bag.name])
    requires counts' == counts[bag.name := CountOf(counts, bag.name) + 1]
    requires Tallies(order, counts, done)
    ensures bag.name in counts <==> c > 0
    ensures Tallies(order', counts', after)
  {
    if c > 0 {
      assert done[|prefix|] == EntryFor(bag, c);
      assert order[|prefix|] == bag.name;
    } else {
      assert done == prefix;
      forall j | 0 <= j < |order| ensures order[j] != bag.name {
        assert done[j] in prefix;
      }
    }
  }

  /** With distinct names, no entry of the bags before the last is named like the last. */
  lemma PrefixAvoidsLast(bags: seq<Bag>, t: seq<int>)
    requires |t| == |bags| > 0 && UniqueNames(bags)
    ensures forall e :: e in Entries(bags[..|bags| - 1], t[..|t| - 1]) ==> e.name != bags[|bags| - 1].name
  {
    var n := |bags|;
    var front := bags[..n - 1];
    forall k | 0 <= k < |front| ensures front[k].name != bags[n - 1].name {
      assert front[k] == bags[k];
    }
    EntriesAvoidName(bags[..n - 1], t[..n - 1], bags[n - 1].name);
  }

  /** ceil(required / weight): the fewest whole units of a bag that cover the requirement. */
  function UnitsToCover(required: real, weight: real): int
    requires weight > 0.0
  {
    Ceil(required / weight)
  }

  /** UnitsToCover units cover the requirement and one fewer would not; a positive requirement needs one at least. */
  lemma UnitsToCoverBounds(required: real, weight: real)
    requires weight > 0.0
    ensures required > 0.0 ==> UnitsToCover(required, weight) >= 1
    ensures required <= Times(UnitsToCover(required, weight), weight)
    ensures Times(UnitsToCover(required, weight), weight) - weight < required
  {
    CeilDivision(required, weight);
    var n := UnitsToCover(required, weight);
    assert (n as real - 1.0) * weight == n as real * weight - weight;
  }

  /**
   * getFallbackCombination: enough units of the lightest active bag to cover
   * the requirement, or the 'No bag sizes available' error.
   */
  function GetFallbackCombination(catalog: seq<Bag>, requiredKg: real): (r: Result<Combination, OptimizerError>)
    requires PositiveWeights(Active(catalog))
    requires Active(catalog) != [] ==> requiredKg != 0.0
    ensures r.Err? <==> Active(catalog) == []
    ensures r.Err? ==> r.error == NoBagSizesAvailable
    ensures r.Ok? ==> |r.value.bags| == 1 && Matches(r.value.bags[0], GetSmallestBag(catalog))
    ensures r.Ok? ==> forall b :: b in Active(catalog) ==> r.value.bags[0].weight <= b.weight
    ensures r.Ok? ==> CoversWithFewest(r.value.bags[0], requiredKg)
    ensures r.Ok? && requiredKg > 0.0 ==> r.value.bags[0].count >= 1
    ensures r.Ok? ==> Consistent(r.value, requiredKg)
  {
    match GetSmallestBag(catalog)
    case None => Err(NoBagSizesAvailable)
    case Some(smallest) => Ok(FallbackFor(smallest, requiredKg))
  }

  /**
   * With no active bag the fallback fails with 'No bag sizes available'
   * before it divides by anything, so even a zero requirement gets the error.
   */
  lemma FallbackWithoutBags(catalog: seq<Bag>, requiredKg: real)
    requires Active(catalog) == []
    ensures GetFallbackCombination(catalog, requiredKg) == Err(NoBagSizesAvailable)
  {
  }

  /** The entry's units cover the requirement, and one unit fewer would not. */
  predicate CoversWithFewest(e: Entry, required: real) {
    && required <= Times(e.count, e.weight)
    && Times(e.count, e.weight) - e.weight < required
  }

  /** The fallback combination for a given bag: ceil(required / weight) units of it. */
  function FallbackFor(bag: Bag, requiredKg: real): (c: Combination)
    requires bag.weight > 0.0 && requiredKg != 0.0
    ensures |c.bags| == 1 && Matches(c.bags[0], Some(bag))
    ensures CoversWithFewest(c.bags[0], requiredKg)
    ensures requiredKg > 0.0 ==> c.bags[0].count >= 1
    ensures Consistent(c, requiredKg)
  {
    var count := UnitsToCover(requiredKg, bag.weight);
    UnitsToCoverBounds(requiredKg, bag.weight);
    var totalWeight := Times(count, bag.weight);
    var wastage := ExcessPercent(totalWeight, requiredKg);
    SumSingleton(EntryFor(bag, count));
    Combination(
      [EntryFor(bag, count)],
      totalWeight,
      Times(count, bag.price),
      Round(wastage, 1),
      Round(totalWeight - requiredKg, 2))
  }
}
