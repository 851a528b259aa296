/** Failure values of the expansion and a failure-compatible result type.
    Every failure of the modelled code is an IllegalArgumentException raised
    by Kodkod's universe or tuple factory; the constructors below tell the
    causes apart. */
module Outcomes {

  datatype Error =
    | EmptyUniverse   // a universe needs at least one atom
    | DuplicateAtom   // a universe lists every atom once
    | Unresolved      // symbolic bounds must be resolved before expansion
    | NoSuchAtom      // a tuple names an atom the universe does not hold
    | RangeReversed   // range(from, to) with `from` after `to` in the universe
    | BadBound        // bound(r, lower, upper) with lower not within upper

  datatype Result<+T> = Ok(value: T) | Err(error: Error) {

    predicate IsFailure() {
      Err?
    }

    function PropagateFailure<U>(): Result<U>
      requires Err?
    {
      Err(error)
    }

    function Extract(): T
      requires Ok?
    {
      value
    }
  }

  datatype Option<+T> = None | Some(value: T)
}
