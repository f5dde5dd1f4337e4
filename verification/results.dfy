/** Failure-carrying return values for the simulator's fail-fast paths. */
module Results {

  /** A value that may be absent (a dictionary lookup that raised KeyError). */
  datatype Option<+T> = None | Some(value: T)

  /** Either a value or the programming error the simulator would raise. */
  datatype Result<+T, +E> = Success(value: T) | Failure(error: E)

  /** The errors the simulated environment can raise. */
  datatype Error =
    | IdAlreadyInDict(id: nat)   // the assertion in the registry's add
    | EmptyDestinationChoice     // random.choice over an empty list of other vertiports
}
