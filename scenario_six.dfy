/**
 * Scenarios 6 and 7: the same six representatives, with the three strongest away in
 * Scenario 6 and the three weakest away in Scenario 7.
 */
module ScenarioSix {
  import opened Entities
  import opened Rules
  import opened Allocator
  import opened Scenarios
  import opened TenCustomers

  const Reps6 := [CustomerSuccess(1, 100), CustomerSuccess(2, 99), CustomerSuccess(3, 88),
                  CustomerSuccess(4, 3), CustomerSuccess(5, 4), CustomerSuccess(6, 5)]
  const Away6 := [1, 3, 2]
  const Away7 := [4, 5, 6]
  const Weak6 := [CustomerSuccess(4, 3), CustomerSuccess(5, 4), CustomerSuccess(6, 5)]
  const Strong7 := [CustomerSuccess(1, 100), CustomerSuccess(2, 99), CustomerSuccess(3, 88)]
  const Sorted7 := [CustomerSuccess(3, 88), CustomerSuccess(2, 99), CustomerSuccess(1, 100)]
  const Served6 := [ServedRecord(4, 3, 0), ServedRecord(5, 4, 0), ServedRecord(6, 5, 0)]
  const Served7 := [ServedRecord(3, 88, 10), ServedRecord(2, 99, 0), ServedRecord(1, 100, 0)]

  lemma Reps6Built()
    ensures MapEntities([100, 99, 88, 3, 4, 5]) == Reps6
  {
  }

  lemma Reps6Distinct()
    ensures DistinctScores(Reps6)
  {
  }

  lemma Weak6Present()
    ensures NotAway(Reps6, Away6) == Weak6
  {
  }

  lemma Weak6Valid()
    ensures StrictlyAscending(Weak6)
    ensures forall c :: c in Weak6 ==> ValidEntry(c)
  {
  }

  lemma Accepted6()
    ensures FilterCustomerRules(Reps6, Away6).Ok?
    ensures multiset(Weak6) == multiset(NotAway(Reps6, Away6))
    ensures StrictlyAscending(Weak6)
  {
    Reps6Distinct();
    Weak6Present();
    Weak6Valid();
    Accepted(Reps6, Away6);
  }

  lemma Bands6()
    ensures forall k: nat :: k < |Weak6| ==> Served6[k] == ServedRecord(Weak6[k].id, Weak6[k].score, BandSize(Customers2, Weak6, k))
  {
    forall k: nat | k < |Weak6| ensures Served6[k] == ServedRecord(Weak6[k].id, Weak6[k].score, BandSize(Customers2, Weak6, k)) {
      LowBand(k + 2, k + 3);
      assert k == 0 || k == 1 || k == 2;
    }
  }

  lemma Top6()
    ensures 0 < |Served6| && 1 < |Served6| && Served6[0] != Served6[1]
    ensures Served6[0].served == Served6[1].served
    ensures forall m :: 0 <= m < |Served6| ==> Served6[m].served <= Served6[0].served
  {
    forall m | 0 <= m < |Served6| ensures Served6[m].served <= Served6[0].served {
      assert m == 0 || m == 1 || m == 2;
    }
  }

  lemma Outcome6()
    ensures Balancing(Reps6, Customers2, Away6) == Ok(0)
  {
    Accepted6();
    Bands6();
    CountsByBands(Customers2, Weak6, Served6);
    Top6();
    TieIs(Reps6, Customers2, Away6, Weak6, Served6, 0, 1);
  }

  /** Scenario 6: only the three weakest are present and none of them covers a customer. */
  lemma Scenario6()
    ensures Balancing(MapEntities([100, 99, 88, 3, 4, 5]), MapCustomers([10, 10, 10, 20, 20, 30, 30, 30, 20, 60]),
                      [1, 3, 2]) == Ok(0)
  {
    Reps6Built();
    Customers2Built();
    Outcome6();
  }

  lemma Strong7Present()
    ensures NotAway(Reps6, Away7) == Strong7
  {
  }

  lemma Strong7Valid()
    ensures forall c :: c in Strong7 ==> ValidEntry(c)
  {
  }

  lemma Sorted7Ascending()
    ensures StrictlyAscending(Sorted7)
  {
  }

  lemma Sorted7Permutes()
    ensures multiset(Sorted7) == multiset(Strong7)
  {
  }

  lemma Accepted7()
    ensures FilterCustomerRules(Reps6, Away7).Ok?
    ensures multiset(Sorted7) == multiset(NotAway(Reps6, Away7))
    ensures StrictlyAscending(Sorted7)
  {
    Reps6Distinct();
    Strong7Present();
    Strong7Valid();
    Sorted7Ascending();
    Sorted7Permutes();
    Accepted(Reps6, Away7);
  }

  lemma Bands7()
    ensures forall k: nat :: k < |Sorted7| ==> Served7[k] == ServedRecord(Sorted7[k].id, Sorted7[k].score, BandSize(Customers2, Sorted7, k))
  {
    WholeBand(0, 88);
    HighBand(88, 99);
    HighBand(99, 100);
    forall k: nat | k < |Sorted7| ensures Served7[k] == ServedRecord(Sorted7[k].id, Sorted7[k].score, BandSize(Customers2, Sorted7, k)) {
      assert k == 0 || k == 1 || k == 2;
    }
  }

  lemma Top7()
    ensures 0 < |Served7| && Served7[0].id == 3
    ensures forall j :: 0 <= j < |Served7| && j != 0 ==> Served7[j].served < Served7[0].served
  {
    forall j | 0 <= j < |Served7| && j != 0 ensures Served7[j].served < Served7[0].served {
      assert j == 1 || j == 2;
    }
  }

  lemma Outcome7()
    ensures Balancing(Reps6, Customers2, Away7) == Ok(3)
  {
    Accepted7();
    Bands7();
    CountsByBands(Customers2, Sorted7, Served7);
    Top7();
    WinnerIs(Reps6, Customers2, Away7, Sorted7, Served7, 0, 3);
  }

  /** Scenario 7: the weakest present representative covers every customer before the others pass. */
  lemma Scenario7()
    ensures Balancing(MapEntities([100, 99, 88, 3, 4, 5]), MapCustomers([10, 10, 10, 20, 20, 30, 30, 30, 20, 60]),
                      [4, 5, 6]) == Ok(3)
  {
    Reps6Built();
    Customers2Built();
    Outcome7();
  }
}
