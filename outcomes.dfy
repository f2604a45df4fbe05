/** Optional values and results with the members Dafny's `:-` operator needs. */
module Outcomes {

  datatype Option<+T> = None | Some(value: T)

  /** Why a harvesting run stops. None of these is caught anywhere in the
      scrapers: each one ends the whole run and no output is written. */
  datatype Error =
    | HttpStatus        // a fetch answered with a non-success status (raise_for_status)
    | MissingElement    // an element, attribute, cell or key that the code dereferences is absent
    | TooFewTables      // the explicit "Expected at least ... table(s) in HTML." exception
    | BadNumber         // float() rejected its argument
    | BadDate           // date.fromisoformat() rejected its argument
    | BadCoordinates    // fewer than two coordinate tokens to unpack into (lat, lon)
    | IncompleteRecord  // the record dataclass was not given every one of its fields
    | AssertionFailed   // an `assert` statement of the scraper failed

  datatype Result<+T> = Ok(value: T) | Err(error: Error) {
    predicate IsFailure() { Err? }

    function PropagateFailure<U>(): Result<U>
      requires Err?
    {
      Err(error)
    }

    function Extract(): T
      requires Ok?
    {
      value
    }
  }

  /** `d.get(k)`: the stored value, or None for a key that is not there. */
  function Get<K, V>(m: map<K, V>, k: K): (r: Option<V>)
    ensures r.None? <==> k !in m
    ensures r.Some? ==> k in m && r.value == m[k]
  {
    if k in m then Some(m[k]) else None
  }
}
