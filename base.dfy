/** Option and Result: the model's stand-ins for Java's null and thrown exceptions. */
module Base {

  /** None stands for a Java null, or for a read that threw. */
  datatype Option<+T> = None | Some(value: T)

  /** Failure carries the exception the Java code would have thrown. */
  datatype Result<+R, +E> = Success(value: R) | Failure(error: E)
}
