/** Optional values and the outcome of a request that can be refused. */
module Wrappers {

  datatype Option<+T> = None | Some(value: T) {
    function GetOr(default: T): T {
      if Some? then value else default
    }
  }

  /** A request that was applied, or the code of the error that refused it. */
  datatype Outcome<+T> = Done(value: T) | Refused(code: string)
}
