/** The exceptions that reach the downloader's callers, and `DownloadException`
    (DownloadException.java) with the message its constructors format. */
module Exceptions {
  import opened Optional

  /** The throwables the modelled code raises or lets through. `detail` is the
      message handed to the constructor (`None` for a `null` message). */
  datatype Exception =
    | DownloadException(message: string, cause: Option<Exception>)
    | NullPointerException(detail: Option<string>)
    | IllegalArgumentException(detail: Option<string>)
    | IllegalStateException(detail: Option<string>)
    | IOException(detail: Option<string>)
    | ExecutionException(reason: Exception)

  /** How a Java call ends: it returns a value or it throws. */
  datatype Outcome<+T> = Normal(value: T) | Thrown(error: Exception)

  function ClassName(e: Exception): string {
    match e
    case DownloadException(_, _) => "jk.kamoru.tool.web.image.DownloadException"
    case NullPointerException(_) => "java.lang.NullPointerException"
    case IllegalArgumentException(_) => "java.lang.IllegalArgumentException"
    case IllegalStateException(_) => "java.lang.IllegalStateException"
    case IOException(_) => "java.io.IOException"
    case ExecutionException(_) => "java.util.concurrent.ExecutionException"
  }

  /** `Throwable.getMessage()`. An `ExecutionException` built from a cause
      (as `Future.get` builds it) carries the cause's `toString()`. */
  function GetMessage(e: Exception): Option<string>
    decreases e, 0
  {
    match e
    case DownloadException(m, _) => Some(m)
    case NullPointerException(d) => d
    case IllegalArgumentException(d) => d
    case IllegalStateException(d) => d
    case IOException(d) => d
    case ExecutionException(c) => Some(Describe(c))
  }

  /** `Throwable.toString()`: the class name, then ": " and the message if any. */
  function Describe(e: Exception): string
    decreases e, 1
  {
    ClassName(e) + (match GetMessage(e) case None => "" case Some(m) => ": " + m)
  }

  /** The text `String.format("%s - [%s]", message, url)` that both
      constructors of `DownloadException` pass to `Exception`. */
  function DownloadMessage(url: string, message: string): (m: string)
    ensures |m| == |message| + |url| + 5
    ensures message <= m
    ensures m[|m| - |url| - 2..] == "[" + url + "]"
  {
    message + " - [" + url + "]"
  }

  /** `new DownloadException(url, message)`. */
  function NewDownloadException(url: string, message: string): (e: Exception)
    ensures e.DownloadException? && e.cause == None
    ensures GetMessage(e) == Some(DownloadMessage(url, message))
  {
    DownloadException(DownloadMessage(url, message), None)
  }

  /** `new DownloadException(url, message, cause)`: the same message as the
      two-argument constructor, and the cause kept. */
  function NewDownloadExceptionWithCause(url: string, message: string, cause: Exception): (e: Exception)
    ensures e.DownloadException? && e.cause == Some(cause)
    ensures GetMessage(e) == GetMessage(NewDownloadException(url, message))
  {
    DownloadException(DownloadMessage(url, message), Some(cause))
  }
}
