/** Shared building blocks: optional values, failures as values, and exact sums. */
module Common {

  datatype Option<+T> = None | Some(value: T)

  /** The source's exceptions become values: `Err` carries the source's reason. */
  datatype Result<+T, +E> = Ok(value: T) | Err(reason: E)

  function Max(a: int, b: int): int { if a >= b then a else b }

  function MinReal(a: real, b: real): real { if a <= b then a else b }

  function MaxReal(a: real, b: real): real { if a >= b then a else b }

  function Abs(x: real): real { if x >= 0.0 then x else -x }

  /** Nothing but white space. */
  predicate Blank(s: string) {
    forall i :: 0 <= i < |s| ==> s[i] in " \t\n\r"
  }
}
