/** What every part of the model shares. */
module Common {

  datatype Option<+T> = None | Some(value: T)

  /** The outcome of a call that may fail. Error texts are not modelled. */
  datatype Result<+T> = Ok(value: T) | Err

  /** The text without one trailing slash. */
  function Trim(u: string): (r: string)
  {
    if u != "" && u[|u| - 1] == '/' then u[..|u| - 1] else u
  }
}
