/** The concurrency policy of a message, shared by option resolution and the message consumer. */
module Concurrency {

  /** Unset is the empty string: "the consumer decides". */
  datatype ConcurrencyPolicy = Unset | Parallel | Exclusive | Ordered {

    /** Whether a delivery under this policy claims the message key's lease before running. */
    predicate HoldsKey() {
      Exclusive? || Ordered?
    }
  }
}
