# Customer-success balancing, modelled in Dafny

`customerSuccessBalancing(customerSuccess, customers, customerSuccessAway)` picks which
customer-success representative serves the most customers. The routine runs these steps:

1. Drop the representatives whose id is on the away list.
2. Run three guard chains, each throwing on the first rule it finds broken:
   - the structural limits: at most half the representatives away, and between 1 and 999 active;
   - the per-representative limits: id not 0 and below 1000, score not 0 and below 10000;
   - the rule that no two representatives share a score (away ones included).
3. Sort the active representatives by ascending score.
4. Let each representative, in that order, splice out of the customer array every remaining customer whose score is at most its own. This pass walks the array backwards.
5. Sort the served counts in descending order.
6. Return 0 when the first two counts are equal, otherwise the id of the first.

The model is organised in these modules:

- `Entities` holds the records, the limits and one error kind per exception.
- `Rules` holds the comparators, the guard chains, the duplicate test and the away filter.
- `Sorting` specifies `Array.prototype.sort` with a comparator by its contract: a permutation in which no later element compares before an earlier one.
- `Pool` holds one representative's backward splice loop, an imperative method proved against the functions `Remaining` and `Claimed`.
- `Allocator` holds the whole routine:
  - the specification function `Balancing`;
  - the method `CustomerSuccessBalancing`, which runs the passes in a loop and returns the customer array as the splices leave it;
  - the lemmas about greedy assignment, conservation of customers and the winner rule.
- `Outcomes` proves what the result means for any input that passes the checks:
  - 0 exactly when two active representatives share the highest served count;
  - otherwise the id of the one representative that served strictly more than every other.

  It also proves that nothing depends on how the sort orders equal elements.
- `Scenarios` states the test suite's expectations as lemmas. The files `scenario_*.dfy` and `ten_customers.dfy` hold one module per scenario:
  - Scenario 3 is proved for every number m of representatives with 2 <= m <= 1000 and every number t > 0 of customers, then for the test's own sizes;
  - the 1001-representative error is proved for every count of 1000 or more;
  - the error tests are proved for every customer list.

Where the intended rules and the code differ, the model follows the code:

- The id and score lower bounds are equality tests against 0, so a negative id or score passes.
- The away limit compares the raw length of the away list, so an id listed twice counts twice.
- An away id that names no representative also counts towards the limit.

## Model

| member | source | states |
|---|---|---|
| Rules.SortByScore | customer-success-balancing.js:11 | The comparator is at most zero exactly when the first score is at most the second, and zero exactly on equal scores. |
| Rules.SortByServedDesc | customer-success-balancing.js:12 | The comparator is at most zero exactly when the first record served at least as many, and zero exactly on equal counts. |
| Rules.ValidateCustomerSuccess | customer-success-balancing.js:16-34 | Passes iff the away list is no longer than the allowed maximum and the active count is between 1 and 999. Each of the three errors is raised iff its rule is the first one broken. |
| Rules.ValidEntry | customer-success-balancing.js:38-49 | An entry is valid when its id is not 0 and below 1000 and its score is not 0 and below 10000. `Rules.CheckEntry` passes exactly on valid entries. |
| Rules.CheckEntry | customer-success-balancing.js:38-49 | Passes iff the entry is valid: id not 0 and below 1000, score not 0 and below 10000. Each error kind is raised iff its guard is the first one broken. |
| Rules.ValidateCustomerSuccessEntries | customer-success-balancing.js:36-51 | Passes iff every active entry is valid. Otherwise the result is the error of the first failing entry, and every entry before it is valid. |
| Rules.DistinctCardinality | customer-success-balancing.js:54 | The set of a list's values is at most as large as the list, and exactly as large iff no value repeats. |
| Rules.HasDuplicateScores | customer-success-balancing.js:54 | True iff two positions of the list hold the same score. |
| Rules.Scores | customer-success-balancing.js:66 | Same length as the representatives, with the i-th representative's score at position i. |
| Rules.NotAway | customer-success-balancing.js:57-58 | The filter never lengthens the list. `Rules.NotAwayMembers` states which representatives it keeps, `Rules.NotAwayConcat` that it keeps their order. |
| Rules.NotAwayMembers | customer-success-balancing.js:57-58 | The filter keeps exactly the representatives whose id is not on the away list. |
| Rules.NotAwayConcat | customer-success-balancing.js:57-58 | Filtering a concatenation filters each part, so input order is kept. |
| Rules.NotAwayExtremes | customer-success-balancing.js:57-58 | A list with no id away is kept whole; a list whose ids are all away is emptied. |
| Rules.NotAwayDistinct | customer-success-balancing.js:57-58 | Filtering keeps distinct scores distinct. |
| Rules.FilterCustomerRules | customer-success-balancing.js:56-72 | Succeeds iff all of these hold: the away count is at most half the representatives, 1 to 999 stay active, every active entry is valid, and all scores are distinct. On success it returns the filtered list. Each error kind arises iff its check is the first to fail, in the source's order. |
| Sorting.Insert | customer-success-balancing.js:88 | Inserting into a comparator-sorted list gives a sorted list holding the old elements plus the new one. |
| Sorting.SortBy | customer-success-balancing.js:88 | The sort returns a permutation of its input, sorted by the comparator. |
| Pool.Remaining | customer-success-balancing.js:110-117 | What one pass leaves: by `Pool.Members`, exactly the customers scoring above the level, in pool order. `Pool.ServePass` returns this pool. |
| Pool.Claimed | customer-success-balancing.js:110-117 | What one pass takes: by `Pool.Members`, exactly the customers scoring at most the level. `Pool.Split` shows taken and left make up the pool. |
| Pool.Members | customer-success-balancing.js:110-117 | A pass at a level takes exactly the customers scoring at most the level and leaves exactly those above it. A band takes those strictly above its low end and at most its high end. |
| Pool.Extremes | customer-success-balancing.js:110-117 | A band holding every customer's score takes the whole pool; a band holding none takes nothing. |
| Pool.Concat | customer-success-balancing.js:110-117 | Taking and leaving distribute over concatenation of the pool. |
| Pool.Split | customer-success-balancing.js:110-117 | A pass splits the pool: the customers taken and the customers left together are the pool as a multiset. |
| Pool.RemainingTwice | customer-success-balancing.js:110-117 | Two passes in a row leave the customers above the higher of the two levels. |
| Pool.ClaimedAfter | customer-success-balancing.js:110-117 | A pass at `high` after a pass at `low` takes exactly the band between the two levels. |
| Pool.ServePass | customer-success-balancing.js:110-117 | The backward splice loop returns the number of customers scoring at most the level, and the pool of those above it in their original order. The two sizes add up to the pool's size. |
| Allocator.ComparatorsAreKeyDifferences | customer-success-balancing.js:11-12 | Each comparator is total: for any two records, at least one of the two orders compares at most zero. Each is transitive: if a comes no later than b and b no later than c, then a comes no later than c. Both are differences of a key, which is the contract the sort relies on. |
| Allocator.PoolAfter | customer-success-balancing.js:87-122 | The pool after the passes of the given representatives in order. By `Allocator.PoolAfterAll` it holds the customers scoring above the highest of them. |
| Allocator.Counts | customer-success-balancing.js:87-122 | One record per representative. By `Allocator.CountsAt` and `Allocator.Greedy`, the k-th record counts the band above the previous score, up to its own. |
| Allocator.PassStep | customer-success-balancing.js:89-122 | One more pass adds one record counting what it took, and shrinks the pool by exactly that. |
| Allocator.CountsAt | customer-success-balancing.js:89-122 | The k-th record names the k-th representative and counts what it took from the pool the earlier passes left. |
| Allocator.Conservation | customer-success-balancing.js:87-122 | The customers taken plus the pool left over are exactly the customers given. The served counts sum to the number taken. |
| Allocator.PoolAfterAll | customer-success-balancing.js:87-122 | Whatever the order of the passes, the pool ends as the customers scoring above the highest representative score. |
| Allocator.TotalServed | customer-success-balancing.js:87-122 | The served counts sum to the number of customers scoring at most the highest representative score. Every customer left scores above every representative. |
| Allocator.Greedy | customer-success-balancing.js:87-122 | In ascending order, the representative at k takes exactly the customers it covers that no earlier one covers: the band above its predecessor's score, up to its own. |
| Allocator.ServedAt | customer-success-balancing.js:125-128 | The served count at a position of the ranking, or none past its end, as the optional chaining gives `undefined`. |
| Allocator.Winner | customer-success-balancing.js:125-128 | 0 when the first two counts are equal, the first id otherwise. `Allocator.WinnerRule` states what that means for a descending ranking: 0 iff two records share the top count, otherwise the one strict maximum. |
| Allocator.RankedHeadIsTop | customer-success-balancing.js:123-125 | The head of the descending sort served at least as many as every record. |
| Allocator.RankedHeadStrict | customer-success-balancing.js:123-128 | When the first two counts differ, the head served strictly more than every other record. |
| Allocator.WinnerRule | customer-success-balancing.js:123-128 | For any descending sort of distinct records, the winner is 0 when two records share the top count. Otherwise it is the id of the one record that served strictly more than all others. |
| Allocator.LeftOver | customer-success-balancing.js:87-122 | The customers left in the pool are exactly those scoring above every active representative. |
| Allocator.ServeAll | customer-success-balancing.js:87-122 | The map over the sorted representatives yields the served records pass by pass, and leaves the pool the passes leave. |
| Allocator.Balancing | customer-success-balancing.js:80-129 | The routine as a function. `Scenarios.Rejected` states its error cases, `Outcomes.BalancingWinner` its result for an accepted input. |
| Allocator.CustomerSuccessBalancing | customer-success-balancing.js:80-129 | The routine's result is `Balancing`. When a check throws, the customer array is untouched. Otherwise the array ends as the customers scoring above the highest active score, in their original order and with their multiplicities. |
| Outcomes.DistinctScoresPermutation | customer-success-balancing.js:66-69 | Reordering representatives keeps their scores distinct. |
| Outcomes.StrictOrderUnique | customer-success-balancing.js:88 | Two orderings of the same representatives with strictly rising scores are equal. |
| Outcomes.AscendingSortUnique | customer-success-balancing.js:88 | Every comparator-sorted permutation of representatives with distinct scores is strictly ascending, and equals the model's sort. So the ascending order does not depend on the sort algorithm. |
| Outcomes.CountsFrom | customer-success-balancing.js:118-121 | Each record carries the id and score of a representative. Distinct scores give distinct records. |
| Outcomes.ActiveCountsDistinct | customer-success-balancing.js:85-122 | For an accepted input the records are non-empty, distinct, and never carry id 0. |
| Outcomes.BalancingWinner | customer-success-balancing.js:80-129 | For an accepted input the routine returns a value. It is 0 iff two active representatives share the highest served count. Otherwise it is the id of the representative that served strictly more than every other. |
| Outcomes.SingleRepresentative | customer-success-balancing.js:125-128 | With one active representative, its id is returned whatever it served. |
| Outcomes.BeforeIsWeaker | customer-success-balancing.js:87-88 | In ascending order, the representatives before position k are exactly the active ones weaker than the one at k. Hence any score bound holds for all of the first group iff it holds for all of the second. |
| Outcomes.SortedGreedy | customer-success-balancing.js:87-122 | After the ascending sort, the representative at k takes exactly the customers it covers that no weaker active representative covers. |
| Scenarios.ArraySeq | customer-success-balancing.js:166-168 | Builds `count` integers rising by one from `startAt`. |
| Scenarios.MapEntities | customer-success-balancing.js:159-164 | Builds one representative per score, with ids 1, 2, ... in order. |
| Scenarios.MapCustomers | customer-success-balancing.js:159-164 | Builds one customer per score, with ids 1, 2, ... in order. |
| Scenarios.BuildSizeEntities | customer-success-balancing.js:151-157 | Builds `size` customers with ids 1, 2, ... and the same score. |
| Scenarios.WinnerIs | customer-success-balancing.js:123-128 | On an accepted input whose served records have a strict top, the routine returns that record's id. |
| Scenarios.TieIs | customer-success-balancing.js:123-128 | On an accepted input whose two different records share the top count, the routine returns 0. |
| Scenarios.Rejected | customer-success-balancing.js:85 | An error from the checks is the routine's error, whatever the customers. |
| Scenarios.DuplicateLevels | customer-success-balancing.js:244-263 | Two representatives scoring 60, one of them away: the duplicate-levels error, for every customer list. |
| Scenarios.TooManyAway | customer-success-balancing.js:265-272 | Four of six away: the away-limit error, for every customer list. |
| Scenarios.NoRepresentatives | customer-success-balancing.js:274-281 | No representatives: the minimum-active error, for every customer list. |
| Scenarios.TooManyRepresentatives | customer-success-balancing.js:283-290 | Any 1000 or more representatives built from `arraySeq(n, 1)`, none away, raise the maximum-active error. |
| Scenarios.ThousandAndOne | customer-success-balancing.js:283-290 | The test's 1001 representatives raise the maximum-active error. |
| Scenarios.EntryRejected | customer-success-balancing.js:292-326 | A single representative failing an entry guard makes the routine throw that guard's error. |
| Scenarios.EntryScenarios | customer-success-balancing.js:292-326 | Id 0, id 1001, score 0 and score 10001 each raise their own error, for every customer list. |
| ScenarioOne.Scenario1 | customer-success-balancing.js:131-149 | Scenario 1 returns 1. |
| ScenarioTwo.Scenario2 | customer-success-balancing.js:182-188 | Scenario 2 returns 0: three representatives tie at three customers each. |
| ScenarioThree.Scenario3Family | customer-success-balancing.js:190-198 | For any m from 2 to 1000 and any t > 0, with representatives scoring 1..m, the last away, and t customers scoring m - 1, the routine returns m - 1. |
| ScenarioThree.Scenario3 | customer-success-balancing.js:190-198 | Scenario 3 returns 998. |
| ScenarioFour.Scenario4 | customer-success-balancing.js:205-211 | Scenario 4 returns 0: nobody covers any customer. |
| ScenarioFive.Scenario5 | customer-success-balancing.js:213-219 | Scenario 5 returns 1: the representative scoring 100 serves all ten. |
| ScenarioSix.Scenario6 | customer-success-balancing.js:221-227 | Scenario 6 returns 0: the three present representatives serve nobody. |
| ScenarioSix.Scenario7 | customer-success-balancing.js:229-235 | Scenario 7 returns 3: the weakest present representative serves all ten. |
| ScenarioOne.Scenario8 | customer-success-balancing.js:237-242 | Scenario 8 returns 1. |

## Left out

- Scenario 3's 100 ms time limit (lines 191-192 and 200-202) is not modelled. The model has no clock.
- The exception messages are not modelled. Each exception becomes one `Error` kind, so tests that match messages are matched by kind.
- The customer limits `MIN_CUSTOMER`, `MAX_CUSTOMER` and `MAX_CUSTOMER_SCORE` (lines 4-8) are not modelled. The code declares them but never checks them.
- The mutation of the caller's customer array is not modelled in place. `CustomerSuccessBalancing` returns the array's final contents as a second result; aliasing with the caller is not captured.
- The in-place sorts at lines 88 and 123 are not modelled in place. They act on fresh arrays made by `filter` and `map`, so neither mutation is observable.
- The engine's sort algorithm is not modelled. `Sorting.SortBy` is an insertion sort that meets the comparator contract. `Outcomes.AscendingSortUnique` and `Allocator.WinnerRule` show the result is the same for every sort meeting that contract, whatever it does with equal served counts.
- JavaScript number semantics are not modelled: non-integer or non-numeric ids and scores, and missing fields. Ids and scores are unbounded integers, and `includes` is integer equality.
- The optional chaining on an empty ranking (line 128) is modelled by `Allocator.ServedAt`, so `Winner([])` is 0. That case cannot be reached, because an accepted input has at least one active representative.
- The commented-out loop (lines 97-108) and the commented-out test (lines 170-180) are not code, and are not modelled.
- Allocator.Counts: its own contract states only the record count. What each record holds is stated by `Allocator.CountsAt` and `Allocator.Greedy`.
- Rules.NotAway: its own contract states only the length bound. Which representatives it keeps, and in what order, is stated by `Rules.NotAwayMembers` and `Rules.NotAwayConcat`.
