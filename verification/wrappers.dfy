/** Failure-carrying values. `None` stands either for an exception the C# code
    throws or for an input field whose text does not parse. */
module Wrappers {

  datatype Option<+T> = None | Some(value: T) {

    /** The carried value, or `default` when there is none. */
    function GetOr(default: T): T {
      match this
      case Some(v) => v
      case None => default
    }
  }
}
