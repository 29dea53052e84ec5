/** Scenario 5: the representative scoring 100 is the only one above the customers and serves all ten. */
module ScenarioFive {
  import opened Entities
  import opened Rules
  import opened Allocator
  import opened Scenarios
  import opened TenCustomers

  const Reps5 := [CustomerSuccess(1, 100), CustomerSuccess(2, 2), CustomerSuccess(3, 3),
                  CustomerSuccess(4, 6), CustomerSuccess(5, 4), CustomerSuccess(6, 5)]
  const Sorted5 := [CustomerSuccess(2, 2), CustomerSuccess(3, 3), CustomerSuccess(5, 4),
                    CustomerSuccess(6, 5), CustomerSuccess(4, 6), CustomerSuccess(1, 100)]
  const Served5 := [ServedRecord(2, 2, 0), ServedRecord(3, 3, 0), ServedRecord(5, 4, 0),
                    ServedRecord(6, 5, 0), ServedRecord(4, 6, 0), ServedRecord(1, 100, 10)]

  lemma Reps5Built()
    ensures MapEntities([100, 2, 3, 6, 4, 5]) == Reps5
  {
  }

  lemma Reps5Valid()
    ensures forall c :: c in Reps5 ==> ValidEntry(c)
  {
  }

  lemma Reps5Distinct()
    ensures DistinctScores(Reps5)
  {
  }

  lemma Sorted5Ascending()
    ensures StrictlyAscending(Sorted5)
  {
  }

  lemma Sorted5Permutes()
    ensures multiset(Sorted5) == multiset(Reps5)
  {
  }

  lemma Accepted5()
    ensures FilterCustomerRules(Reps5, NobodyAway).Ok?
    ensures multiset(Sorted5) == multiset(NotAway(Reps5, NobodyAway))
    ensures StrictlyAscending(Sorted5)
  {
    NotAwayExtremes(Reps5, NobodyAway);
    Reps5Valid();
    Reps5Distinct();
    Sorted5Ascending();
    Sorted5Permutes();
    Accepted(Reps5, NobodyAway);
  }

  lemma Bands5()
    ensures forall k: nat :: k < |Sorted5| ==> Served5[k] == ServedRecord(Sorted5[k].id, Sorted5[k].score, BandSize(Customers2, Sorted5, k))
  {
    forall k: nat | k < |Sorted5| ensures Served5[k] == ServedRecord(Sorted5[k].id, Sorted5[k].score, BandSize(Customers2, Sorted5, k)) {
      if k < 5 {
        LowBand(k + 1, k + 2);
        assert k == 0 || k == 1 || k == 2 || k == 3 || k == 4;
      } else {
        WholeBand(6, 100);
      }
    }
  }

  lemma Top5()
    ensures 5 < |Served5| && Served5[5].id == 1
    ensures forall j :: 0 <= j < |Served5| && j != 5 ==> Served5[j].served < Served5[5].served
  {
    forall j | 0 <= j < |Served5| && j != 5 ensures Served5[j].served < Served5[5].served {
      assert j == 0 || j == 1 || j == 2 || j == 3 || j == 4;
    }
  }

  lemma Outcome5()
    ensures Balancing(Reps5, Customers2, NobodyAway) == Ok(1)
  {
    Accepted5();
    Bands5();
    CountsByBands(Customers2, Sorted5, Served5);
    Top5();
    WinnerIs(Reps5, Customers2, NobodyAway, Sorted5, Served5, 5, 1);
  }

  lemma Scenario5()
    ensures Balancing(MapEntities([100, 2, 3, 6, 4, 5]), MapCustomers([10, 10, 10, 20, 20, 30, 30, 30, 20, 60]), []) == Ok(1)
  {
    Reps5Built();
    Customers2Built();
    Outcome5();
  }
}
