/** The absent-or-present value that the distance lookup returns (`number | null`). */
module Optional {

  datatype Option<+T> = None | Some(value: T) {

    /** Returns the value held in Some, or the given default for None. */
    function GetOr(default: T): (r: T)
      ensures Some? ==> r == value
      ensures None? ==> r == default
    {
      match this
      case Some(v) => v
      case None => default
    }
  }
}
