/** Small datatypes and sequence facts shared by every model. */
module Common {

  datatype Option<+T> = None | Some(value: T)

  /** No value occurs twice. */
  ghost predicate Distinct<T>(xs: seq<T>) {
    forall i, j :: 0 <= i < j < |xs| ==> xs[i] != xs[j]
  }

  function Max(a: real, b: real): real {
    if a >= b then a else b
  }

  function Min(a: real, b: real): real {
    if a <= b then a else b
  }
}
