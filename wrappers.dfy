/** Result and option types shared by the whole model, plus `Fueled`, which marks
    a computation that the source runs without a bound and that the model cuts
    off after a given number of steps. */
module Wrappers {

  datatype Option<+T> = None | Some(value: T)

  datatype Result<+T, +E> = Ok(value: T) | Err(error: E)

  /** `OutOfFuel` means the source would still be running after the allowed
      number of steps; it is never an answer the source gives. */
  datatype Fueled<+T> = Finished(value: T) | OutOfFuel
}
