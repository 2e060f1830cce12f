/** Reading a query result with pgx: `for rows.Next() { rows.Scan(...);
    append }`, and, in some callers, a final `rows.Err()` check. What goes
    wrong, if anything, is a parameter. */
module Rows {
  import opened Wrappers
  import opened Models

  datatype RowsFault =
    | NoFault
    | QueryFailed(err: Error)              // db.Query returns the error
    | ScanFailed(at: nat, err: Error)      // rows.Scan fails on row `at`
    | IterFailed(after: nat, err: Error)   // rows.Next() stops after `after` rows and rows.Err() reports the error

  /** How many of `n` result rows `rows.Next()` hands out. */
  function Yielded(n: nat, f: RowsFault): (k: nat)
    ensures k <= n
  {
    if f.IterFailed? && f.after < n then f.after else n
  }

  /** The outcome of the loop over the result `values`. A failed query or
      scan returns no values and its error. A failure while iterating is
      returned when the caller checks `rows.Err()`; otherwise the values
      read so far are returned as a success. */
  function Collect<T>(values: seq<T>, f: RowsFault, checksErr: bool): (r: Result<seq<T>, Error>)
    ensures r.Success? ==> r.value <= values
    ensures r.Success? && checksErr ==> r.value == values
    ensures f.NoFault? ==> r == Success(values)
    ensures r.Failure? ==> !f.NoFault? && r.error == f.err
  {
    match f
    case NoFault => Success(values)
    case QueryFailed(e) => Failure(e)
    case ScanFailed(k, e) => if k < |values| then Failure(e) else Success(values)
    case IterFailed(k, e) => if checksErr then Failure(e) else Success(values[..Yielded(|values|, f)])
  }

  /** The loop itself, row by row. */
  method ScanRows<T>(values: seq<T>, f: RowsFault, checksErr: bool) returns (r: Result<seq<T>, Error>)
    ensures r == Collect(values, f, checksErr)
  {
    if f.QueryFailed? {
      return Failure(f.err);
    }
    var n := Yielded(|values|, f);
    var out: seq<T> := [];
    var i := 0;
    while i < n
      invariant 0 <= i <= n
      invariant out == values[..i]
      invariant !(f.ScanFailed? && f.at < i)
    {
      if f.ScanFailed? && f.at == i {
        return Failure(f.err);
      }
      out := out + [values[i]];
      i := i + 1;
    }
    if checksErr && f.IterFailed? {
      return Failure(f.err);
    }
    assert n == |values| ==> out == values;
    r := Success(out);
  }
}
