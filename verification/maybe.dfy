/** Absent values and JavaScript exceptions. */
module Maybe {

  /** `None` plays the part of JavaScript's `undefined`. */
  datatype Option<+T> = None | Some(value: T)

  /** The outcome of a computation that may raise a `TypeError`
      (e.g. `links.map` on a value that is not an array, or `null.title`). */
  datatype Result<+T> = Ok(value: T) | Thrown
}
