/**
 * One representative's pass over the customer pool: walking the pool from its
 * last index down to 0, it splices out every customer whose score is at most the
 * representative's and counts them.
 */
module Pool {
  import opened Entities

  /** The customers scoring above `level`, in pool order: what a pass at `level` leaves behind. */
  function Remaining(pool: seq<Customer>, level: int): (r: seq<Customer>)
  {
    if pool == [] then []
    else (if pool[0].score > level then [pool[0]] else []) + Remaining(pool[1..], level)
  }

  /** The customers scoring at most `level`, in pool order: what a pass at `level` takes. */
  function Claimed(pool: seq<Customer>, level: int): (r: seq<Customer>)
  {
    if pool == [] then []
    else (if pool[0].score <= level then [pool[0]] else []) + Claimed(pool[1..], level)
  }

  /** The customers scoring above `low` and at most `high`, in pool order. */
  function Between(pool: seq<Customer>, low: int, high: int): (r: seq<Customer>)
  {
    if pool == [] then []
    else (if low < pool[0].score <= high then [pool[0]] else []) + Between(pool[1..], low, high)
  }

  /** Which customers each selection holds. */
  lemma {:induction false} Members(pool: seq<Customer>, low: int, high: int)
    ensures forall c :: c in Remaining(pool, low) <==> c in pool && c.score > low
    ensures forall c :: c in Claimed(pool, high) <==> c in pool && c.score <= high
    ensures forall c :: c in Between(pool, low, high) <==> c in pool && low < c.score <= high
  {
    if pool != [] {
      Members(pool[1..], low, high);
      assert pool == [pool[0]] + pool[1..];
    }
  }

  /** A band holding every customer's score selects the whole pool; a band holding none selects nothing. */
  lemma {:induction false} Extremes(pool: seq<Customer>, low: int, high: int)
    ensures (forall c :: c in pool ==> low < c.score <= high) ==> Between(pool, low, high) == pool
    ensures (forall c :: c in pool ==> c.score <= low || high < c.score) ==> Between(pool, low, high) == []
    ensures (forall c :: c in pool ==> c.score <= high) ==> Claimed(pool, high) == pool
    ensures (forall c :: c in pool ==> high < c.score) ==> Claimed(pool, high) == []
  {
    if pool != [] {
      Extremes(pool[1..], low, high);
      assert pool == [pool[0]] + pool[1..];
      assert forall c :: c in pool[1..] ==> c in pool;
    }
  }

  /** Each selection distributes over concatenation. */
  lemma {:induction false} Concat(a: seq<Customer>, b: seq<Customer>, low: int, high: int)
    ensures Remaining(a + b, low) == Remaining(a, low) + Remaining(b, low)
    ensures Claimed(a + b, high) == Claimed(a, high) + Claimed(b, high)
    ensures Between(a + b, low, high) == Between(a, low, high) + Between(b, low, high)
  {
    if a != [] {
      Concat(a[1..], b, low, high);
      assert (a + b)[0] == a[0] && (a + b)[1..] == a[1..] + b;
    } else {
      assert a + b == b;
    }
  }

  /** A pass splits the pool: every customer is either taken or left, never both, never lost. */
  lemma {:induction false} Split(pool: seq<Customer>, level: int)
    ensures multiset(Claimed(pool, level)) + multiset(Remaining(pool, level)) == multiset(pool)
    ensures |Claimed(pool, level)| + |Remaining(pool, level)| == |pool|
  {
    if pool != [] {
      Split(pool[1..], level);
      assert pool == [pool[0]] + pool[1..];
    }
  }

  /** A second pass at `high` over what a pass at `low` left is a single pass at the larger level. */
  lemma {:induction false} RemainingTwice(pool: seq<Customer>, low: int, high: int)
    ensures Remaining(Remaining(pool, low), high) == Remaining(pool, if low < high then high else low)
  {
    if pool != [] {
      RemainingTwice(pool[1..], low, high);
      var head := if pool[0].score > low then [pool[0]] else [];
      Concat(head, Remaining(pool[1..], low), high, high);
    }
  }

  /** What a pass at `high` takes from the leftovers of a pass at `low` is the band (low, high]. */
  lemma {:induction false} ClaimedAfter(pool: seq<Customer>, low: int, high: int)
    ensures Claimed(Remaining(pool, low), high) == Between(pool, low, high)
  {
    if pool != [] {
      ClaimedAfter(pool[1..], low, high);
      var head := if pool[0].score > low then [pool[0]] else [];
      Concat(head, Remaining(pool[1..], low), high, high);
    }
  }

  /** Leaving the head of a suffix out of the claimed part, or keeping it in the remaining part. */
  lemma StepAt(pool: seq<Customer>, i: nat, level: int)
    requires i < |pool|
    ensures Remaining(pool[i..], level) ==
              (if pool[i].score > level then [pool[i]] else []) + Remaining(pool[i + 1..], level)
    ensures |Claimed(pool[i..], level)| ==
              (if pool[i].score <= level then 1 else 0) + |Claimed(pool[i + 1..], level)|
  {
    assert pool[i..][0] == pool[i] && pool[i..][1..] == pool[i + 1..];
  }

  /** Splicing out the element at index |a| of a + [x] + b leaves a + b. */
  lemma SpliceAt(a: seq<Customer>, x: Customer, b: seq<Customer>)
    ensures (a + [x] + b)[|a|] == x
    ensures (a + [x] + b)[..|a|] + (a + [x] + b)[|a| + 1..] == a + b
  {
    var s := a + [x] + b;
    assert s[..|a|] == a;
    assert s[|a| + 1..] == b;
  }

  /**
   * The loop of one representative: returns how many customers it served and the
   * pool as the splices leave it.
   */
  method ServePass(customers: seq<Customer>, level: int) returns (served: nat, pool: seq<Customer>)
    ensures pool == Remaining(customers, level)
    ensures served == |Claimed(customers, level)|
    ensures served + |pool| == |customers|
  {
    pool := customers;
    served := 0;
    var i := |customers| - 1;
    assert customers[|customers|..] == [];
    while i >= 0
      invariant -1 <= i < |customers|
      invariant pool == customers[..i + 1] + Remaining(customers[i + 1..], level)
      invariant served == |Claimed(customers[i + 1..], level)|
      decreases i
    {
      ghost var rest := Remaining(customers[i + 1..], level);
      StepAt(customers, i, level);
      assert customers[..i + 1] == customers[..i] + [customers[i]];
      assert pool == customers[..i] + [customers[i]] + rest;
      SpliceAt(customers[..i], customers[i], rest);
      if pool[i].score <= level {
        pool := pool[..i] + pool[i + 1..];
        served := served + 1;
      }
      i := i - 1;
    }
    assert i == -1;
    assert customers[..i + 1] == [];
    assert customers[i + 1..] == customers;
    ghost var r := Remaining(customers, level);
    assert pool == [] + r;
    assert pool == r;
    Split(customers, level);
  }
}
