/** The optional value returned by a repository lookup or by a remote call. */
module Wrappers {

  datatype Option<+T> = None | Some(value: T)
}
