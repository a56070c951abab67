/** Types shared by the registry, the serial device and the listener facade. */
module Common {

  datatype Option<T> = None | Some(value: T)

  datatype Result<T, E> = Ok(value: T) | Err(error: E)

  /** The outcome of an action that returns nothing: it completes or throws. */
  datatype Outcome<E> = Pass | Fail(error: E)

  /** A Java exception object that the library only passes along (an I/O error, a connect failure). */
  type Cause = string

  /** The character set a device uses to encode what it sends and decode what it reads. */
  datatype Charset = Utf8 | PlatformDefault | Named(name: string)

  /**
   * The three revisions of the library: the older concrete Java classes
   * (BluetoothSerialDevice, SimpleBluetoothDeviceInterface), the Java `*Impl`
   * classes and the Kotlin `*Impl` classes.
   */
  datatype Revision = LegacyJava | ImplJava | ImplKotlin

  /** What a device throws when it is used after it was closed. */
  datatype ClosedException =
    | IllegalArgumentException(message: string)
    | IllegalStateException(message: string)

  /** What the registry throws when opening a device fails; it wraps the underlying cause. */
  datatype BluetoothConnectException = BluetoothConnectException(cause: Cause)

  const ClosedMessage: string := "Device connection closed"

  /**
   * The exception a closed device throws: the older Java class throws an
   * IllegalArgumentException, both `*Impl` revisions an IllegalStateException
   * (Kotlin's `check`), all with the same message.
   */
  function ClosedError(revision: Revision): (e: ClosedException)
    ensures e.message == ClosedMessage
    ensures e.IllegalArgumentException? <==> revision == LegacyJava
  {
    if revision == LegacyJava then IllegalArgumentException(ClosedMessage)
    else IllegalStateException(ClosedMessage)
  }
}
