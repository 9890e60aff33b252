/** The few Java primitive types whose range the model needs to see. */
module JavaTypes {

  /** `Integer.MIN_VALUE` and `Integer.MAX_VALUE`. */
  const MinInt: int := -0x8000_0000
  const MaxInt: int := 0x7fff_ffff

  /** A Java `int` (or the value inside a non-null `Integer`). */
  type Int32 = x: int | MinInt <= x <= MaxInt

  /** A reading of the wall clock (`ZonedDateTime.now()`), supplied by the caller
      and never inspected by the model. */
  type Timestamp = int
}
