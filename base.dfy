/** Shared vocabulary of the model: optional values (the source's nullable
    columns), the service-level outcome of an operation, clock values and the
    null-tolerant counter arithmetic that every entity repeats. */
module Base {

  /** A nullable column or reference. */
  datatype Option<+T> = None | Some(value: T)

  /** The failures a service call can raise. `NotFound` and `BadRequest` are
      the application's own exceptions; `StoreConflict` is the database
      rejecting a row that breaks a unique constraint (the transaction rolls
      back); `RuntimeFault` is an unchecked Java exception (an index out of
      bounds, a division by zero). */
  datatype Error =
    | NotFound(message: string)
    | BadRequest(message: string)
    | StoreConflict(message: string)
    | RuntimeFault(message: string)

  /** The error a Java call raises when its recursion runs out of stack. */
  const StackOverflow: string := "java.lang.StackOverflowError"

  /** The outcome of a call: a value, or the exception it raised. */
  datatype Result<+T> = Success(value: T) | Failure(error: Error)

  /** A point in time (a LocalDateTime), in seconds since a local midnight,
      so that every multiple of a day is again a midnight. */
  type Time = int

  /** A primary key (a Long id column). */
  type Id = int

  const SecondsPerMinute: int := 60
  const SecondsPerHour: int := 3600
  const SecondsPerDay: int := 86400

  /** Day d of the calendar: from its midnight up to, but not including, the
      next midnight. */
  predicate InDay(t: Time, d: int)
  {
    d * SecondsPerDay <= t < (d + 1) * SecondsPerDay
  }

  /** Every time lies in exactly one day, the one that dividing by the length
      of a day names. */
  lemma DayOfTime(t: Time)
    ensures forall d :: InDay(t, d) <==> d == t / SecondsPerDay
  {
  }

  /** A nullable Integer counter read with `null` as 0. */
  function OrZero(n: Option<int>): (r: int)
    ensures n.None? ==> r == 0
    ensures n.Some? ==> r == n.value
  {
    match n
    case None => 0
    case Some(v) => v
  }

  /** `count = (count == null ? 0 : count) + 1`, the increment every entity uses. */
  function Incremented(n: Option<int>): (r: Option<int>)
    ensures r.Some? && r.value == OrZero(n) + 1
  {
    Some(OrZero(n) + 1)
  }

  /** `if (count != null && count > 0) count--`, the decrement every entity uses. */
  function Decremented(n: Option<int>): (r: Option<int>)
    ensures OrZero(n) > 0 ==> r == Some(OrZero(n) - 1)
    ensures OrZero(n) <= 0 ==> r == n
  {
    if n.Some? && n.value > 0 then Some(n.value - 1) else n
  }

  /** A decrement undoes an increment of a non-negative counter (a null
      counter comes back as 0). A counter of -1 or less is still not positive
      after the increment, so the decrement then does nothing. */
  lemma DecrementUndoesIncrement(n: Option<int>)
    requires OrZero(n) >= 0
    ensures Decremented(Incremented(n)) == Some(OrZero(n))
    ensures OrZero(Decremented(Incremented(n))) == OrZero(n)
  {
  }
}
