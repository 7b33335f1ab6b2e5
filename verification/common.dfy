/** Shared vocabulary of the ledger: identifiers, instants, optional and
    failing results, and the exceptions the command side raises. */
module Common {

  /** An aggregate or message identifier; `EmptyGuid` is `Guid.Empty`. */
  type Guid = int

  const EmptyGuid: Guid := 0

  /** A UTC instant, as a count of 100-nanosecond ticks. */
  type Ticks = int

  /** Ticks in one day: `TimeSpan.TotalDays` divides by this. */
  const TicksPerDay: int := 864_000_000_000

  /** `TimeSpan.TotalDays` of a span of `ticks`, in exact arithmetic. */
  function TotalDays(ticks: int): (d: real)
    ensures d > 0.0 <==> ticks > 0
    ensures d == 0.0 <==> ticks == 0
  {
    ticks as real / TicksPerDay as real
  }

  datatype Option<+T> = None | Some(value: T)

  /** A keyed table changed at most under `key`: every other key is present
      after exactly when it was before, with the same value. */
  ghost predicate OnlyKeyChanged<K(!new), V>(before: map<K, V>, after: map<K, V>, key: K)
  {
    forall k :: k != key ==> (k in after <==> k in before) && (k in before ==> after[k] == before[k])
  }

  /** The exceptions thrown on the command side. */
  datatype Error =
    | ArgumentException(message: string)
    | InvalidOperationException(message: string)
      /** A write that violates the unique (AggregateId, Version) index. */
    | DbUpdateException

  datatype Result<+T> = Ok(value: T) | Err(error: Error)
}
