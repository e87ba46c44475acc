/** An optional value: the model's stand-in for a C# `null` result or a
    failed `TryX(..., out v)` call. */
module Options {

  datatype Option<+T> = None | Some(value: T) {

    /** The value, or `default` when absent. */
    function GetOr(default: T): T {
      match this
      case Some(v) => v
      case None => default
    }
  }
}
