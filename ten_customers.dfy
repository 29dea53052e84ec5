/**
 * The ten customers of the test suite's second fixture, shared by Scenarios 2, 4, 5, 6 and 7,
 * and how many of them fall into each band of levels.
 */
module TenCustomers {
  import opened Entities
  import opened Pool
  import opened Scenarios

  const Customers2 := [Customer(1, 10), Customer(2, 10), Customer(3, 10), Customer(4, 20), Customer(5, 20),
                       Customer(6, 30), Customer(7, 30), Customer(8, 30), Customer(9, 20), Customer(10, 60)]
  const NobodyAway: seq<int> := []

  lemma Customers2Built()
    ensures MapCustomers([10, 10, 10, 20, 20, 30, 30, 30, 20, 60]) == Customers2
  {
  }

  lemma Customers2Range()
    ensures |Customers2| == 10
    ensures forall c :: c in Customers2 ==> 10 <= c.score <= 60
  {
  }

  /** Below score 10 nobody is served. */
  lemma LowBand(low: int, high: int)
    requires high < 10
    ensures |Claimed(Customers2, high)| == 0 && |Between(Customers2, low, high)| == 0
  {
    Customers2Range();
    Extremes(Customers2, low, high);
  }

  /** Above score 60 nobody is left. */
  lemma HighBand(low: int, high: int)
    requires 60 <= low
    ensures |Between(Customers2, low, high)| == 0
  {
    Customers2Range();
    Extremes(Customers2, low, high);
  }

  /** A band from below 10 to at least 60 takes everybody. */
  lemma WholeBand(low: int, high: int)
    requires low < 10 && 60 <= high
    ensures |Claimed(Customers2, high)| == 10 && |Between(Customers2, low, high)| == 10
  {
    Customers2Range();
    Extremes(Customers2, low, high);
  }

  lemma TensBand()
    ensures |Between(Customers2, 5, 11)| == 3
  {
  }

  lemma TwentiesBand()
    ensures |Between(Customers2, 11, 21)| == 3
  {
  }

  lemma ThirtiesBand()
    ensures |Between(Customers2, 21, 31)| == 3
  {
  }
}
