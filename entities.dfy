/** The records the balancing routine works on, its limits and its error kinds. */
module Entities {

  /** The value an id or score may not equal, and the bound the active count must exceed. */
  const MIN_CUSTOMER_SUCCESS: int := 0
  /** Exclusive upper bound on the active count and on representative ids. */
  const MAX_CUSTOMER_SUCCESS: int := 1000
  /** Exclusive upper bound on representative scores. */
  const MAX_CUSTOMER_SUCCESS_SCORE: int := 10000

  /** A customer-success representative: an id and a capability score. */
  datatype CustomerSuccess = CustomerSuccess(id: int, score: int)

  /** A customer: an id and the score it needs covered. */
  datatype Customer = Customer(id: int, score: int)

  /** A representative extended with the number of customers it served. */
  datatype ServedRecord = ServedRecord(id: int, score: int, served: nat)

  /** One kind per exception the routine throws. */
  datatype Error =
    | MaxAwayExceeded         // 'Max customers success away exceeded'
    | MinActiveNotReached     // 'Minimum customers success not reached'
    | MaxActiveExceeded       // 'Maximum customers success exceeded'
    | MinIdReached            // 'Minimum customer success id reached'
    | MaxIdExceeded           // 'Maximum customer success id exceeded'
    | MinScoreReached         // 'Minimum customer success score reached'
    | MaxScoreExceeded        // 'Maximum customer success score exceeded'
    | DuplicateScores         // 'The customers success must have different levels'

  /** A check that either passes or throws one error. */
  datatype Outcome = Pass | Fail(error: Error)

  /** A value, or the error thrown instead of returning it. */
  datatype Result<T> = Ok(value: T) | Err(error: Error)

  datatype Option<T> = None | Some(value: T)
}
