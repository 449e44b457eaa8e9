/** Values shared by every part of the model: Java's nullable references as
    Option, and the exceptions the plugin raises as Result failures. */
module Common {

  /** A Java reference that may be null. */
  datatype Option<+T> = None | Some(value: T) {
    function GetOr(default: T): (r: T) {
      match this
      case Some(v) => v
      case None => default
    }
  }

  /** The throwables that leave the modelled code.  MojoExecution carries the
      message of a MojoExecutionException; NullPointer is an unguarded
      dereference of null; UncaughtException is an exception from class
      loading that the code lets propagate instead of wrapping it. */
  datatype Error =
    | MojoExecution(message: string)
    | NullPointer
    | UncaughtException

  datatype Result<+T> = Success(value: T) | Failure(error: Error)

  /** A nullable list that the code iterates only when it is non-null. */
  function OrEmpty<T>(list: Option<seq<T>>): (r: seq<T>)
    ensures list.None? ==> r == []
    ensures list.Some? ==> r == list.value
  {
    list.GetOr([])
  }
}
