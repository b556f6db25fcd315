/** The one wrapper the other modules share. */
module Wrappers {
  datatype Option<+T> = None | Some(value: T)

  /** 1 for true, 0 for false: lets a count say "exactly one of". */
  function Count(b: bool): nat {
    if b then 1 else 0
  }
}
