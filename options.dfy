/** An optional value, standing in for the nullable references and
    out-parameter results of the editor code. */
module Options {

  datatype Option<T> = None | Some(value: T)
  {
    function GetOr(default: T): T
    {
      match this
      case None => default
      case Some(v) => v
    }
  }
}
