/** Java-side vocabulary shared by every module: nullable references, thrown
    exceptions and the results of calls that may throw. */
module Lang {

  /** A Java reference that may be null. */
  datatype Option<T> = None | Some(value: T)

  /** The exception classes the modelled code throws or lets escape. */
  datatype ExceptionKind =
    | NullPointer
    | IllegalArgument
    | IllegalState
    | ArrayIndexOutOfBounds
    | StringIndexOutOfBounds
    | ConcurrentModification
    | NumberFormat
    | ClassCast
    | IO
    | Bind
    | Runtime
    | Usage
    | Exception

  /** `Class.getSimpleName()` of each exception class. */
  function SimpleName(k: ExceptionKind): string
  {
    match k
    case NullPointer => "NullPointerException"
    case IllegalArgument => "IllegalArgumentException"
    case IllegalState => "IllegalStateException"
    case ArrayIndexOutOfBounds => "ArrayIndexOutOfBoundsException"
    case StringIndexOutOfBounds => "StringIndexOutOfBoundsException"
    case ConcurrentModification => "ConcurrentModificationException"
    case NumberFormat => "NumberFormatException"
    case ClassCast => "ClassCastException"
    case IO => "IOException"
    case Bind => "BindException"
    case Runtime => "RuntimeException"
    case Usage => "UsageException"
    case Exception => "Exception"
  }

  /** A thrown exception: its class and `getMessage()` (None is a null message). */
  datatype Throwable = Throwable(kind: ExceptionKind, message: Option<string>)

  /** An exception the JDK raises, whose message is not modelled. */
  function Jdk(kind: ExceptionKind): Throwable
  {
    Throwable(kind, None)
  }

  /** An exception the source constructs with an explicit message. */
  function Thrown(kind: ExceptionKind, message: string): Throwable
  {
    Throwable(kind, Some(message))
  }

  /** The outcome of a Java call: a returned value or a thrown exception. */
  datatype Result<T> = Ok(value: T) | Throws(error: Throwable)
}
