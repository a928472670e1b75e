/** The Java-level values the typed-content layer passes around: fixed-width
    integers, nullable references and the IOException that I/O calls throw. */
module JavaIO {

  /** Java's signed 8-bit `byte`. */
  newtype Byte = x: int | -0x80 <= x < 0x80

  /** Java's signed 32-bit `int`. */
  newtype Int32 = x: int | -0x8000_0000 <= x < 0x8000_0000

  /** Java's signed 64-bit `long`. */
  newtype Int64 = x: int | -0x8000_0000_0000_0000 <= x < 0x8000_0000_0000_0000

  /** A nullable reference: None stands for Java's null. */
  datatype Option<+T> = None | Some(value: T)

  /** A java.io.IOException object. It is a class, so two exceptions are the
      same exactly when they are the same object, as in Java. */
  class IOException {
    const message: string

    constructor (message: string)
      ensures this.message == message
    {
      this.message := message;
    }
  }

  /** An unchecked exception object (a java.lang.RuntimeException such as
      NullPointerException, IllegalStateException or
      IllegalArgumentException). A catch block for IOException lets it pass. */
  class RuntimeException {
    const message: string

    constructor (message: string)
      ensures this.message == message
    {
      this.message := message;
    }
  }

  /** How a Java call declared `throws IOException` ends: it returns a value,
      throws an IOException, or throws an unchecked exception. */
  datatype Outcome<+T> = Ok(value: T) | Fail(error: IOException) | Unchecked(exception: RuntimeException)
}
