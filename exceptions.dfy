/** The part of the Java exception hierarchy that execRequest meets: the
    classes its catch clauses name, the library exceptions that can reach
    them, and a few subclasses that show how a clause catches a whole
    subtree. Only the single-inheritance "extends" relation is modelled. */
module Exceptions {
  import opened Wrappers

  datatype ExceptionClass =
    | Exception
    // unchecked exceptions
    | RuntimeException
    | IllegalStateException
    | NullPointerException
    | JsonParseException
    | JsonSyntaxException
    | JsonIOException
    // checked I/O exceptions
    | IOException
    | SocketException
    | ConnectException
    | NoRouteToHostException
    | InterruptedIOException
    | SocketTimeoutException
    | UnknownHostException
    | FileNotFoundException
    | FileSystemException
    | AccessDeniedException
    | NoSuchFileException
    | SSLException
    | SSLHandshakeException
    | SSLPeerUnverifiedException
    | EOFException
    | ProtocolException

  /** The direct superclass ("extends"); None for the root `Exception`. */
  function Parent(c: ExceptionClass): Option<ExceptionClass>
  {
    match c
    case Exception => None
    case RuntimeException | IOException => Some(Exception)
    case IllegalStateException | NullPointerException | JsonParseException => Some(RuntimeException)
    case JsonSyntaxException | JsonIOException => Some(JsonParseException)
    case SocketException | InterruptedIOException | UnknownHostException => Some(IOException)
    case FileNotFoundException | FileSystemException | SSLException => Some(IOException)
    case EOFException | ProtocolException => Some(IOException)
    case ConnectException | NoRouteToHostException => Some(SocketException)
    case SocketTimeoutException => Some(InterruptedIOException)
    case AccessDeniedException | NoSuchFileException => Some(FileSystemException)
    case SSLHandshakeException | SSLPeerUnverifiedException => Some(SSLException)
  }

  /** The class itself and all its superclasses. */
  function Ancestors(c: ExceptionClass): set<ExceptionClass>
  {
    match c
    case Exception => {Exception}
    case RuntimeException => {RuntimeException, Exception}
    case IllegalStateException => {IllegalStateException, RuntimeException, Exception}
    case NullPointerException => {NullPointerException, RuntimeException, Exception}
    case JsonParseException => {JsonParseException, RuntimeException, Exception}
    case JsonSyntaxException => {JsonSyntaxException, JsonParseException, RuntimeException, Exception}
    case JsonIOException => {JsonIOException, JsonParseException, RuntimeException, Exception}
    case IOException => {IOException, Exception}
    case SocketException => {SocketException, IOException, Exception}
    case ConnectException => {ConnectException, SocketException, IOException, Exception}
    case NoRouteToHostException => {NoRouteToHostException, SocketException, IOException, Exception}
    case InterruptedIOException => {InterruptedIOException, IOException, Exception}
    case SocketTimeoutException => {SocketTimeoutException, InterruptedIOException, IOException, Exception}
    case UnknownHostException => {UnknownHostException, IOException, Exception}
    case FileNotFoundException => {FileNotFoundException, IOException, Exception}
    case FileSystemException => {FileSystemException, IOException, Exception}
    case AccessDeniedException => {AccessDeniedException, FileSystemException, IOException, Exception}
    case NoSuchFileException => {NoSuchFileException, FileSystemException, IOException, Exception}
    case SSLException => {SSLException, IOException, Exception}
    case SSLHandshakeException => {SSLHandshakeException, SSLException, IOException, Exception}
    case SSLPeerUnverifiedException => {SSLPeerUnverifiedException, SSLException, IOException, Exception}
    case EOFException => {EOFException, IOException, Exception}
    case ProtocolException => {ProtocolException, IOException, Exception}
  }

  /** Java's `e instanceof A` for an exception whose runtime class is `c`. */
  predicate IsA(c: ExceptionClass, a: ExceptionClass)
  {
    a in Ancestors(c)
  }

  /** What OkHttp's Call.execute, a body read and a file write may throw. */
  type IoFailure = c: ExceptionClass | IsA(c, IOException) witness IOException

  /** The table of superclasses is the reflexive-transitive closure of
      `extends`: a class, then its parent's superclasses. */
  lemma AncestorsFollowParent(c: ExceptionClass)
    ensures Ancestors(c) == {c} + (if Parent(c).Some? then Ancestors(Parent(c).value) else {})
  {
    match c
    case Exception =>
    case RuntimeException =>
    case IllegalStateException =>
    case NullPointerException =>
    case JsonParseException =>
    case JsonSyntaxException =>
    case JsonIOException =>
    case IOException =>
    case SocketException =>
    case ConnectException =>
    case NoRouteToHostException =>
    case InterruptedIOException =>
    case SocketTimeoutException =>
    case UnknownHostException =>
    case FileNotFoundException =>
    case FileSystemException =>
    case AccessDeniedException =>
    case NoSuchFileException =>
    case SSLException =>
    case SSLHandshakeException =>
    case SSLPeerUnverifiedException =>
    case EOFException =>
    case ProtocolException =>
  }
}
