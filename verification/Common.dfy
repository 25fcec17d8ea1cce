/** What several components share. */
module Common {

  datatype Option<T> = None | Some(value: T)

  /** How a call to the outside ends: it works, it is lost, or it takes effect but reports an error. */
  datatype Fate = Works | Lost | Unacknowledged
}
