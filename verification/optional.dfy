/** An optional value. `None` stands for JavaScript's `undefined` (and, where
    the source allows it, `null`) wherever the modelled code reads an
    optional field or returns "nothing". */
module Optional {

  datatype Option<+T> = None | Some(value: T) {

    /** The wrapped value, or `default` when there is none (the `??` operator). */
    function GetOr(default: T): T {
      match this
      case Some(v) => v
      case None => default
    }
  }
}
