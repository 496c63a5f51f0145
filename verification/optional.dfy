/** The absent-or-present value used throughout the model in place of a C# null reference. */
module Optional {
  datatype Option<+T> = None | Some(value: T) {
    /** The value when present, `default` otherwise (C#'s `?? default`). */
    function GetOr(default: T): T {
      match this
      case Some(v) => v
      case None => default
    }
  }
}
