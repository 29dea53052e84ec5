/**
 * `Array.prototype.sort` with a comparator, specified by what any correct sort
 * delivers: a permutation of its input in which no later element compares
 * strictly before an earlier one. It is realised here as an insertion sort; the
 * lemmas in the balancing module show that nothing the routine returns depends
 * on that choice.
 */
module Sorting {

  /**
   * The comparator is the difference of a key, as both comparators of the
   * routine are; it then orders every pair, transitively.
   */
  ghost predicate ComparesBy<T(!new)>(cmp: (T, T) -> int, key: T -> int) {
    forall a, b :: cmp(a, b) == key(a) - key(b)
  }

  /** Every element may come before every later one. */
  ghost predicate SortedBy<T>(s: seq<T>, cmp: (T, T) -> int) {
    forall i, j :: 0 <= i < j < |s| ==> cmp(s[i], s[j]) <= 0
  }

  /** An element whose key is at most every key of a sorted sequence may go in front of it. */
  lemma SortedCons<T(!new)>(x: T, s: seq<T>, cmp: (T, T) -> int, key: T -> int)
    requires ComparesBy(cmp, key)
    requires SortedBy(s, cmp)
    requires forall y :: y in s ==> key(x) <= key(y)
    ensures SortedBy([x] + s, cmp)
  {
    forall i, j | 0 <= i < j < |[x] + s| ensures cmp(([x] + s)[i], ([x] + s)[j]) <= 0 {
      if i == 0 {
        assert ([x] + s)[j] == s[j - 1];
        assert s[j - 1] in s;
      } else {
        assert ([x] + s)[i] == s[i - 1] && ([x] + s)[j] == s[j - 1];
      }
    }
  }

  /** `x` may go in front of a sorted sequence whose first element it may precede. */
  lemma InsertFront<T(!new)>(x: T, s: seq<T>, cmp: (T, T) -> int, key: T -> int)
    requires ComparesBy(cmp, key)
    requires SortedBy(s, cmp)
    requires s == [] || cmp(x, s[0]) <= 0
    ensures SortedBy([x] + s, cmp)
  {
    forall y | y in s ensures key(x) <= key(y) {
      var k :| 0 <= k < |s| && s[k] == y;
      if k > 0 {
        assert cmp(s[0], s[k]) <= 0;
      }
    }
    SortedCons(x, s, cmp, key);
  }

  /** The head of a sorted sequence may go in front of any sorted rearrangement of its tail and `x`. */
  lemma InsertBehind<T(!new)>(x: T, s: seq<T>, rest: seq<T>, cmp: (T, T) -> int, key: T -> int)
    requires ComparesBy(cmp, key)
    requires SortedBy(s, cmp) && s != [] && cmp(x, s[0]) > 0
    requires multiset(rest) == multiset(s[1..]) + multiset{x}
    requires SortedBy(rest, cmp)
    ensures SortedBy([s[0]] + rest, cmp)
  {
    forall y | y in rest ensures key(s[0]) <= key(y) {
      assert y in multiset(rest);
      if y != x {
        assert y in multiset(s[1..]);
        var k :| 0 <= k < |s[1..]| && s[1..][k] == y;
        assert cmp(s[0], s[k + 1]) <= 0;
      }
    }
    SortedCons(s[0], rest, cmp, key);
  }

  /** Places `x` in front of the first element it may precede. */
  function Insert<T(!new)>(x: T, s: seq<T>, cmp: (T, T) -> int, ghost key: T -> int): (r: seq<T>)
    requires ComparesBy(cmp, key)
    requires SortedBy(s, cmp)
    ensures multiset(r) == multiset(s) + multiset{x}
    ensures SortedBy(r, cmp)
  {
    if s == [] || cmp(x, s[0]) <= 0 then
      InsertFront(x, s, cmp, key);
      [x] + s
    else
      SortedBy1(s, cmp);
      var rest := Insert(x, s[1..], cmp, key);
      InsertBehind(x, s, rest, cmp, key);
      assert s == [s[0]] + s[1..];
      [s[0]] + rest
  }

  /** The tail of a sorted sequence is sorted. */
  lemma SortedBy1<T>(s: seq<T>, cmp: (T, T) -> int)
    requires SortedBy(s, cmp) && s != []
    ensures SortedBy(s[1..], cmp)
  {
    forall i, j | 0 <= i < j < |s[1..]| ensures cmp(s[1..][i], s[1..][j]) <= 0 {
      assert s[1..][i] == s[i + 1] && s[1..][j] == s[j + 1];
    }
  }

  /** A sorted permutation of `s`. */
  function SortBy<T(!new)>(s: seq<T>, cmp: (T, T) -> int, ghost key: T -> int): (r: seq<T>)
    requires ComparesBy(cmp, key)
    ensures multiset(r) == multiset(s)
    ensures |r| == |s|
    ensures SortedBy(r, cmp)
  {
    if s == [] then []
    else
      assert s == [s[0]] + s[1..];
      Insert(s[0], SortBy(s[1..], cmp, key), cmp, key)
  }

  /** No element occurs twice. */
  ghost predicate NoRepeats<T>(s: seq<T>) {
    forall i, j :: 0 <= i < j < |s| ==> s[i] != s[j]
  }

  /** In a sequence without repeats every element occurs once. */
  lemma {:induction false} OccursOnce<T>(s: seq<T>, x: T)
    requires NoRepeats(s)
    ensures multiset(s)[x] <= 1
  {
    if s != [] {
      assert s == [s[0]] + s[1..];
      assert NoRepeats(s[1..]) by {
        forall i, j | 0 <= i < j < |s[1..]| ensures s[1..][i] != s[1..][j] {
          assert s[1..][i] == s[i + 1] && s[1..][j] == s[j + 1];
        }
      }
      OccursOnce(s[1..], x);
    }
  }

  /** An element found at two positions occurs at least twice. */
  lemma OccursTwice<T>(s: seq<T>, i: nat, j: nat)
    requires i < j < |s| && s[i] == s[j]
    ensures multiset(s)[s[i]] >= 2
  {
    assert s == s[..j] + s[j..];
    assert s[..j][i] == s[i];
    assert s[j..][0] == s[j];
    assert multiset(s)[s[i]] == multiset(s[..j])[s[i]] + multiset(s[j..])[s[i]];
  }
}
