/** models/Coordinates.java: an immutable point whose x may not exceed 406. */
module CoordinatesModel {
  import opened Wrappers

  /** The largest accepted x; the bound is inclusive. */
  const MaxX: real := 406.0

  /** `float` coordinates are modelled as reals (see README, "Left out"). */
  datatype Coordinates = Coordinates(x: real, y: real)

  /** The single check of the constructor. */
  datatype CoordinatesError = XAbove406

  /** What every constructed `Coordinates` satisfies. */
  predicate ValidCoordinates(c: Coordinates) {
    c.x <= MaxX
  }

  /** The validating constructor `Coordinates(float x, float y)`; `getX`/`getY` are the
      datatype's fields. */
  function NewCoordinates(x: real, y: real): (r: Result<Coordinates, CoordinatesError>)
    ensures r.Success? <==> x <= MaxX
    ensures r.Failure? ==> r.error == XAbove406
    ensures r.Success? ==> r.value.x == x && r.value.y == y && ValidCoordinates(r.value)
  {
    if x > MaxX then Failure(XAbove406) else Success(Coordinates(x, y))
  }

  /** Every valid point is what the constructor builds from its own getters, so the
      constructor is onto the valid points and `y` never takes part in a check. */
  lemma NewCoordinatesOnto(c: Coordinates)
    requires ValidCoordinates(c)
    ensures NewCoordinates(c.x, c.y) == Success(c)
  {
  }

  /** The bound is inclusive: x = 406 is accepted with any y, anything above is not. */
  lemma BoundIsInclusive(y: real, x: real)
    ensures NewCoordinates(MaxX, y) == Success(Coordinates(MaxX, y))
    ensures x > MaxX ==> NewCoordinates(x, y) == Failure(XAbove406)
  {
  }
}
