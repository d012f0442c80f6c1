/** Small value types shared by the model: optional values, results that carry
    the name of a missing dictionary key, and distinctness of a key list. */
module Support {

  datatype Option<+T> = None | Some(value: T)

  /** The outcome of a lookup-heavy computation: a value, or the key whose
      lookup failed (the key a Python `KeyError` would carry). */
  datatype Result<+T> = Success(value: T) | Failure(error: string) {
    predicate IsFailure() { Failure? }

    function PropagateFailure<U>(): Result<U>
      requires Failure?
    {
      Failure(error)
    }

    function Extract(): T
      requires Success?
    {
      value
    }
  }

  /** No key occurs twice in `keys`. */
  ghost predicate Distinct(keys: seq<string>)
  {
    forall i, j | 0 <= i < j < |keys| :: keys[i] != keys[j]
  }

  /** The set of keys listed in `keys`. */
  function Elems(keys: seq<string>): set<string>
  {
    set k | k in keys
  }
}
