/** Result types shared by every module. */
module Prelude {

  datatype Option<+T> = None | Some(value: T)

  /** `Err` stands for the exception the Python code raises. */
  datatype Result<+T, +E> = Ok(value: T) | Err(error: E)

  /** A sequence without repeated elements. */
  ghost predicate Distinct<T>(s: seq<T>) {
    forall i, j :: 0 <= i < j < |s| ==> s[i] != s[j]
  }

  /** A condition counted. */
  function Once(b: bool): nat {
    if b then 1 else 0
  }
}
