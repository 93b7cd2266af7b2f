/** Values shared by every module: optional values, results that may carry an error, and table search. */
module Common {

  datatype Option<+T> = None | Some(value: T)

  datatype Result<+T, +E> = Success(value: T) | Failure(error: E)

  /** The position of the last row satisfying `p`, or -1: what a query for one row finds. */
  function Find<T>(rows: seq<T>, p: T -> bool): (r: int)
    ensures -1 <= r < |rows|
    ensures r >= 0 ==> p(rows[r])
    ensures forall i :: 0 <= i < |rows| && i > r ==> !p(rows[i])
  {
    if rows == [] then -1
    else if p(rows[|rows| - 1]) then |rows| - 1
    else Find(rows[..|rows| - 1], p)
  }

  /** Whether an optional string is present and not empty: what Python's truth test asks. */
  predicate Given(s: Option<string>) { s.Some? && s.value != "" }
}
