/**
 * The optimizer on the catalog the application seeds: a 25 kg bag at £4, a
 * 600 kg bulk bag at £90 and a 1000 kg tonne bag at £140, all active.
 */
module Scenarios {
  import opened Wrappers
  import opened Numbers
  import opened Catalog
  import opened Optimizer

  const Standard: Bag := Bag("25kg Standard", 25.0, 4.0, true, 1)
  const Bulk: Bag := Bag("600kg Bulk Bag", 600.0, 90.0, true, 2)
  const Tonne: Bag := Bag("1000kg Tonne Bag", 1000.0, 140.0, true, 3)

  /** The seeded bags in the order both objectives visit them. */
  const Visited: seq<Bag> := [Tonne, Bulk, Standard]

  /** The seeded catalog, in the order the rows are inserted. */
  const Seeded: seq<Bag> := [Standard, Bulk, Tonne]

  /** Every seeded bag is active, and the catalog meets the optimizer's assumptions. */
  lemma SeededActive()
    ensures Active(Seeded) == Seeded
    ensures WellFormed(Seeded)
  {
    assert Active(Seeded) == Seeded by {
      ActiveTail();
      assert Seeded[1..] == [Bulk, Tonne];
    }
    SeededNames();
  }

  /** The seeded names are distinct (they differ in length) and the weights positive. */
  lemma SeededNames()
    ensures UniqueNames(Seeded) && PositiveWeights(Seeded)
  {
    assert |Standard.name| == 13 && |Bulk.name| == 14 && |Tonne.name| == 16;
  }

  lemma ActiveTail()
    ensures Active([Bulk, Tonne]) == [Bulk, Tonne]
  {
    assert Active([Tonne]) == [Tonne] by {
      assert [Tonne][1..] == [];
    }
    assert [Bulk, Tonne][1..] == [Tonne];
  }

  /** Heaviest first is also cheapest per kg first, so both objectives visit tonne, bulk, standard. */
  lemma SeededOrders()
    ensures PositiveWeights(Active(Seeded))
    ensures GetSortedBags(Seeded, "weight") == Visited
    ensures GetSortedBags(Seeded, "cost") == Visited
  {
    SeededByWeight();
    SeededByCost();
  }

  lemma SeededByWeight()
    ensures PositiveWeights(Active(Seeded))
    ensures GetBagsSortedByWeight(Seeded) == Visited
  {
    SeededActive();
    SortSeeded(WeightDescending);
  }

  lemma SeededByCost()
    ensures PositiveWeights(Active(Seeded))
    ensures GetBagsSortedByPricePerKg(Seeded) == Visited
  {
    SeededActive();
    SortSeeded(PricePerKgAscending);
  }

  /** Under either objective no seeded bag may precede a heavier one. */
  lemma HeavierFirst(o: Ordering)
    requires o == WeightDescending || o == PricePerKgAscending
    ensures !Precedes(o, Bulk, Tonne) && !Precedes(o, Standard, Tonne) && !Precedes(o, Standard, Bulk)
  {
    assert PricePerKg(Tonne) < PricePerKg(Bulk) < PricePerKg(Standard);
  }

  /** Inserting the seeded bags one by one under either objective yields tonne, bulk, standard. */
  lemma SortSeeded(o: Ordering)
    requires o == WeightDescending || o == PricePerKgAscending
    ensures Comparable(o, Seeded)
    ensures SortBy(o, Seeded) == Visited
  {
    assert PositiveWeights(Seeded);
    SortTail(o);
    InsertStandard(o);
    assert Seeded[1..] == [Bulk, Tonne];
  }

  lemma SortTail(o: Ordering)
    requires o == WeightDescending || o == PricePerKgAscending
    ensures Comparable(o, [Bulk, Tonne])
    ensures SortBy(o, [Bulk, Tonne]) == [Tonne, Bulk]
  {
    assert PositiveWeights([Bulk, Tonne]);
    SortOne(o);
    InsertBulk(o);
    assert [Bulk, Tonne][1..] == [Tonne];
  }

  lemma SortOne(o: Ordering)
    requires o == WeightDescending || o == PricePerKgAscending
    ensures Comparable(o, [Tonne])
    ensures SortBy(o, [Tonne]) == [Tonne]
  {
    assert PositiveWeights([Tonne]);
    assert [Tonne][1..] == [];
  }

  lemma InsertBulk(o: Ordering)
    requires o == WeightDescending || o == PricePerKgAscending
    ensures Insert(o, Bulk, [Tonne]) == [Tonne, Bulk]
  {
    HeavierFirst(o);
    assert [Tonne][1..] == [];
  }

  lemma InsertStandard(o: Ordering)
    requires o == WeightDescending || o == PricePerKgAscending
    ensures Insert(o, Standard, [Tonne, Bulk]) == Visited
  {
    HeavierFirst(o);
    assert Insert(o, Standard, [Bulk]) == [Bulk, Standard] by {
      assert [Bulk][1..] == [];
    }
    assert [Tonne, Bulk][1..] == [Bulk];
  }

  /**
   * One step of the greedy loop on concrete figures: u = floor(remaining / w)
   * units of the first bag, leaving `next`.
   */
  lemma Step(bags: seq<Bag>, remaining: real, u: int, next: real)
    requires PositiveWeights(bags) && bags != [] && remaining > 0.0
    requires u as real <= remaining / bags[0].weight < u as real + 1.0
    requires next == remaining - u as real * bags[0].weight
    ensures Takes(bags, remaining) == [u] + Takes(bags[1..], next)
    ensures Leftover(bags, remaining) == Leftover(bags[1..], next)
  {
    var w := bags[0].weight;
    assert Units(remaining, w) == u;
    assert Remainder(remaining, w) == next by {
      assert Times(u, w) == u as real * w;
    }
    TakesUnfold(bags, remaining);
    var t := Takes(bags, remaining);
    assert t[0] == u && t[1..] == Takes(bags[1..], next);
    assert t == [t[0]] + t[1..];
  }

  /** The totals of a two-entry list. */
  lemma Totals(a: Entry, b: Entry)
    ensures SumWeight([a, b]) == Times(a.count, a.weight) + Times(b.count, b.weight)
    ensures SumCost([a, b]) == Times(a.count, a.price) + Times(b.count, b.price)
  {
    assert [a, b] == [a] + [b];
    SumAppend([a], [b]);
    SumSingleton(a);
    SumSingleton(b);
  }

  /** The entries for counts of the three visited bags, when no tonne bag is taken. */
  lemma EntriesNoTonne(c1: int, c2: int)
    requires c1 >= 0 && c2 >= 0
    ensures PositiveWeights(Visited)
    ensures Entries(Visited, [0, c1, c2]) == StepEntry(Bulk, c1) + StepEntry(Standard, c2)
  {
    var last := Entries([Standard], [c2]);
    assert last == StepEntry(Standard, c2) by {
      assert [Standard][1..] == [] && [c2][1..] == [];
      EntriesHead([Standard], [c2]);
    }
    var tail := Entries([Bulk, Standard], [c1, c2]);
    assert tail == StepEntry(Bulk, c1) + last by {
      assert [Bulk, Standard][1..] == [Standard] && [c1, c2][1..] == [c2];
      EntriesHead([Bulk, Standard], [c1, c2]);
    }
    assert Entries(Visited, [0, c1, c2]) == tail by {
      assert Visited[1..] == [Bulk, Standard] && [0, c1, c2][1..] == [c1, c2];
      assert StepEntry(Tonne, 0) == [];
      EntriesHead(Visited, [0, c1, c2]);
    }
  }

  /** The greedy loop for 750 kg: one bulk bag, six standard bags, nothing left. */
  lemma Greedy750()
    ensures PositiveWeights(Visited)
    ensures Takes(Visited, 750.0) == [0, 1, 6] && Leftover(Visited, 750.0) == 0.0
  {
    assert Visited[1..] == [Bulk, Standard] && [Bulk, Standard][1..] == [Standard] && [Standard][1..] == [];
    Step([Standard], 150.0, 6, 0.0);
    Step([Bulk, Standard], 750.0, 1, 150.0);
    Step(Visited, 750.0, 0, 750.0);
  }

  /** The greedy loop for 760 kg: one bulk bag, six standard bags, 10 kg left. */
  lemma Greedy760()
    ensures PositiveWeights(Visited)
    ensures Takes(Visited, 760.0) == [0, 1, 6] && Leftover(Visited, 760.0) == 10.0
  {
    assert Visited[1..] == [Bulk, Standard] && [Bulk, Standard][1..] == [Standard] && [Standard][1..] == [];
    Step([Standard], 160.0, 6, 10.0);
    Step([Bulk, Standard], 760.0, 1, 160.0);
    Step(Visited, 760.0, 0, 760.0);
  }

  /** The greedy loop for 5 kg: no bag fits, all 5 kg left. */
  lemma Greedy5()
    ensures PositiveWeights(Visited)
    ensures Takes(Visited, 5.0) == [0, 0, 0] && Leftover(Visited, 5.0) == 5.0
  {
    assert Visited[1..] == [Bulk, Standard] && [Bulk, Standard][1..] == [Standard] && [Standard][1..] == [];
    Step([Standard], 5.0, 0, 5.0);
    Step([Bulk, Standard], 5.0, 0, 5.0);
    Step(Visited, 5.0, 0, 5.0);
  }

  /** The rounded wastage figures of the three cases. */
  lemma Wastage()
    ensures Round(0.0, 2) == 0.0 && Round(0.0 / 750.0 * 100.0, 1) == 0.0
    ensures Round(15.0, 2) == 15.0 && Round(15.0 / 760.0 * 100.0, 1) == 2.0
    ensures Round(20.0, 2) == 20.0 && Round(20.0 / 5.0 * 100.0, 1) == 400.0
  {
    assert Pow10(1) == 10.0 && Pow10(2) == 100.0;
    assert RoundHalfAwayFromZero(15.0 / 760.0 * 100.0 * 10.0) == 20;
  }

  /** 750 kg: one bulk bag and six standard bags meet it exactly, for £114, with no wastage. */
  lemma Exact750()
    ensures PositiveWeights(Visited)
    ensures Combine(Visited, 750.0) == Combination(
      [EntryFor(Bulk, 1), EntryFor(Standard, 6)], 750.0, 114.0, 0.0, 0.0)
  {
    Greedy750();
    assert Counts(Visited, 750.0) == [0, 1, 6];
    EntriesNoTonne(1, 6);
    Totals(EntryFor(Bulk, 1), EntryFor(Standard, 6));
    Wastage();
  }

  /**
   * 760 kg: the greedy loop leaves 10 kg uncovered, so one more standard bag
   * is added: 775 kg for £118, 15 kg (2.0 %) over.
   */
  lemma TopUp760()
    ensures PositiveWeights(Visited)
    ensures Combine(Visited, 760.0) == Combination(
      [EntryFor(Bulk, 1), EntryFor(Standard, 7)], 775.0, 118.0, 2.0, 15.0)
  {
    Greedy760();
    assert Counts(Visited, 760.0) == [0, 1, 7];
    EntriesNoTonne(1, 7);
    Totals(EntryFor(Bulk, 1), EntryFor(Standard, 7));
    Wastage();
  }

  /** 5 kg: no bag fits, so the top-up alone buys one standard bag: 20 kg (400.0 %) over. */
  lemma Small5()
    ensures PositiveWeights(Visited)
    ensures Combine(Visited, 5.0) == Combination([EntryFor(Standard, 1)], 25.0, 4.0, 400.0, 20.0)
  {
    Greedy5();
    assert Counts(Visited, 5.0) == [0, 0, 1];
    EntriesNoTonne(0, 1);
    SumSingleton(EntryFor(Standard, 1));
    Wastage();
  }

  /** findOptimalCombination on the seeded catalog for 760 kg, under either objective. */
  lemma SeededOptimal760(optimizeBy: string)
    ensures PositiveWeights(Active(Seeded))
    ensures Combine(GetSortedBags(Seeded, optimizeBy), 760.0) == Combination(
      [EntryFor(Bulk, 1), EntryFor(Standard, 7)], 775.0, 118.0, 2.0, 15.0)
  {
    SeededOrders();
    TopUp760();
  }

  /** The fallback for 760 kg: ceil(760 / 25) = 31 standard bags, 775 kg for £124. */
  lemma SeededFallback760()
    ensures PositiveWeights(Active(Seeded))
    ensures GetFallbackCombination(Seeded, 760.0) == Ok(Combination(
      [EntryFor(Standard, 31)], 775.0, 124.0, 2.0, 15.0))
  {
    SeededSmallest();
    assert UnitsToCover(760.0, 25.0) == 31;
    assert Times(31, 25.0) == 775.0 && Times(31, 4.0) == 124.0;
    Wastage();
  }

  /** The lightest seeded bag is the standard bag. */
  lemma SeededSmallest()
    ensures PositiveWeights(Active(Seeded))
    ensures GetSmallestBag(Seeded) == Some(Standard)
  {
    SeededActive();
    var r := GetSmallestBag(Seeded);
    assert Standard in Active(Seeded) by {
      assert Seeded[0] == Standard;
    }
    OnlyStandardIsLight(r.value);
  }

  /** No other seeded bag weighs 25 kg or less. */
  lemma OnlyStandardIsLight(b: Bag)
    requires b in Seeded && b.weight <= 25.0
    ensures b == Standard
  {
  }

  // A catalog where the cheapest bag per kg is also the lightest: under the
  // 'cost' objective the last bag visited, which the top-up adds, is then the
  // heaviest one.

  const Cheap: Bag := Bag("25kg Cheap", 25.0, 1.0, true, 1)
  const Dear: Bag := Bag("1000kg Dear", 1000.0, 500.0, true, 2)

  lemma CheapFirst()
    ensures PositiveWeights(Active([Cheap, Dear]))
    ensures GetSortedBags([Cheap, Dear], "cost") == [Cheap, Dear]
  {
    PairActive();
    PairByCost();
  }

  lemma PairActive()
    ensures Active([Cheap, Dear]) == [Cheap, Dear]
  {
    assert [Cheap, Dear][1..] == [Dear] && [Dear][1..] == [];
  }

  lemma PairByCost()
    ensures PositiveWeights([Cheap, Dear])
    ensures SortBy(PricePerKgAscending, [Cheap, Dear]) == [Cheap, Dear]
  {
    assert PositiveWeights([Dear]) && PositiveWeights([Cheap, Dear]);
    assert SortBy(PricePerKgAscending, [Dear]) == [Dear] by {
      assert [Dear][1..] == [];
    }
    assert Precedes(PricePerKgAscending, Cheap, Dear);
    assert [Cheap, Dear][1..] == [Dear];
  }

  /**
   * 30 kg by cost: one 25 kg bag leaves 5 kg, and the top-up then adds a
   * 1000 kg bag, for 1025 kg in all.
   */
  lemma CostTopUpAddsDearBag()
    ensures PositiveWeights(Active([Cheap, Dear]))
    ensures Combine(GetSortedBags([Cheap, Dear], "cost"), 30.0).bags == [EntryFor(Cheap, 1), EntryFor(Dear, 1)]
    ensures Combine(GetSortedBags([Cheap, Dear], "cost"), 30.0).totalWeight == 1025.0
  {
    CheapFirst();
    PairCombine30();
  }

  /** The covering of 30 kg over the pair in that order: one bag of each, 1025 kg. */
  lemma PairCombine30()
    ensures PositiveWeights([Cheap, Dear])
    ensures Combine([Cheap, Dear], 30.0).bags == [EntryFor(Cheap, 1), EntryFor(Dear, 1)]
    ensures Combine([Cheap, Dear], 30.0).totalWeight == 1025.0
  {
    CostGreedy30();
    assert Counts([Cheap, Dear], 30.0) == [1, 1];
    PairEntries();
    Totals(EntryFor(Cheap, 1), EntryFor(Dear, 1));
  }

  /** The greedy loop for 30 kg over the pair: one cheap bag, 5 kg left. */
  lemma CostGreedy30()
    ensures PositiveWeights([Cheap, Dear])
    ensures Takes([Cheap, Dear], 30.0) == [1, 0] && Leftover([Cheap, Dear], 30.0) == 5.0
  {
    assert [Cheap, Dear][1..] == [Dear] && [Dear][1..] == [];
    Step([Dear], 5.0, 0, 5.0);
    Step([Cheap, Dear], 30.0, 1, 5.0);
  }

  /** One bag of each kind of the pair. */
  lemma PairEntries()
    ensures Entries([Cheap, Dear], [1, 1]) == [EntryFor(Cheap, 1), EntryFor(Dear, 1)]
  {
    assert [Cheap, Dear][1..] == [Dear] && [Dear][1..] == [];
    assert [1, 1][1..] == [1] && [1][1..] == [];
    EntriesHead([Cheap, Dear], [1, 1]);
    EntriesHead([Dear], [1]);
  }
}
