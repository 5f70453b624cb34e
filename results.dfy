/** Optional values, the errors the inflammation core raises, and a result type that
    carries either a value or one of those errors (the Python code raises exceptions). */
module Results {

  datatype Option<T> = None | Some(value: T)

  /** The exceptions the core can raise, one constructor per distinct cause. */
  datatype Error =
    | NoDataFound(message: string)   // ValueError: a data source matched no file
    | ReadFailed(path: string)       // a file that could not be opened or parsed
    | MissingField(field: string)    // KeyError: a JSON record without the field
    | EmptyTable                     // a daily statistic over a table with no rows
    | RaggedTable                    // a table whose rows differ in length
    | ShapeMismatch                  // np.stack over daily means of different lengths
    | NothingToStack                 // np.stack over an empty list of daily means

  datatype Result<T> = Ok(value: T) | Err(error: Error) {
    predicate IsFailure() { Err? }

    function PropagateFailure<U>(): Result<U>
      requires Err?
    {
      Err(error)
    }

    function Extract(): T
      requires Ok?
    {
      value
    }
  }

  /** Python's `list(map(f, xs))`: applies `f` to every element in order; the first
      element whose call raises stops the whole computation with that error. */
  function MapAll<A, B>(xs: seq<A>, f: A -> Result<B>): (r: Result<seq<B>>)
    ensures r.Ok? <==> forall i :: 0 <= i < |xs| ==> f(xs[i]).Ok?
    ensures r.Ok? ==> |r.value| == |xs| && forall i :: 0 <= i < |xs| ==> r.value[i] == f(xs[i]).value
    ensures r.Err? ==> exists i :: 0 <= i < |xs| && f(xs[i]).Err? && r.error == f(xs[i]).error &&
                                   forall k :: 0 <= k < i ==> f(xs[k]).Ok?
  {
    if xs == [] then Ok([])
    else
      match f(xs[0])
      case Err(e) => Err(e)
      case Ok(y) =>
        var rest := MapAll(xs[1..], f);
        if rest.Err? then
          assert exists i :: 0 <= i < |xs| - 1 && f(xs[1..][i]).Err? && rest.error == f(xs[1..][i]).error &&
                             forall k :: 0 <= k < i ==> f(xs[1..][k]).Ok?;
          var i :| 0 <= i < |xs| - 1 && f(xs[1..][i]).Err? && rest.error == f(xs[1..][i]).error &&
                   forall k :: 0 <= k < i ==> f(xs[1..][k]).Ok?;
          assert f(xs[i + 1]).Err? && forall k :: 0 <= k < i + 1 ==> f(xs[k]).Ok? by {
            forall k | 0 <= k < i + 1 ensures f(xs[k]).Ok? {
              if k > 0 { assert xs[k] == xs[1..][k - 1]; }
            }
          }
          Err(rest.error)
        else
          assert forall i :: 1 <= i < |xs| ==> xs[i] == xs[1..][i - 1];
          Ok([y] + rest.value)
  }
}
