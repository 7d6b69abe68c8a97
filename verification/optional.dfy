/** The optional value the model uses wherever the source has `null`, `undefined`
    or a call whose result may be missing. */
module Optional {

  datatype Option<+T> = None | Some(value: T) {

    /** The value in Some, or the given default when None. */
    function GetOr(default: T): T
    {
      match this
      case Some(v) => v
      case None => default
    }
  }
}
