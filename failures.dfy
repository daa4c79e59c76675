/** The catch clauses of execRequest, as data, and Java's rule for picking
    the one that handles an exception: the first clause, in source order,
    that names a superclass of (or the same class as) the exception. */
module FailureMapping {
  import opened Wrappers
  import opened Exceptions
  import opened Responses

  datatype CatchClause = CatchClause(types: seq<ExceptionClass>, code: ErrorCode)

  /** The clause's parameter type admits an exception of class `e`
      (a multi-catch admits any of its alternatives). */
  predicate Catches(clause: CatchClause, e: ExceptionClass)
  {
    exists i :: 0 <= i < |clause.types| && IsA(e, clause.types[i])
  }

  /** The catch clauses of the try statement, in source order. */
  const Handlers: seq<CatchClause> := [
    CatchClause([JsonSyntaxException], InvalidJsonResponse),
    CatchClause([ConnectException], ConnectTimeout),
    CatchClause([SocketTimeoutException], ReadTimeout),
    CatchClause([UnknownHostException], DnsLookupFailed),
    CatchClause([FileNotFoundException, FileSystemException], FileIoError),
    CatchClause([SSLException], TlsProtocolError),
    CatchClause([IOException], NetworkIoError)
  ]

  /** The code of the first clause that catches `e`; None when the
      exception escapes the try statement. */
  function FirstHandler(clauses: seq<CatchClause>, e: ExceptionClass): Option<ErrorCode>
  {
    if clauses == [] then None
    else if Catches(clauses[0], e) then Some(clauses[0].code)
    else FirstHandler(clauses[1..], e)
  }

  /** FirstHandler is Java's first-match rule: it picks the earliest clause
      that catches `e`, and finds none only when no clause does. */
  lemma {:induction false} FirstHandlerIsFirstMatch(clauses: seq<CatchClause>, e: ExceptionClass)
    ensures FirstHandler(clauses, e).None? <==> forall i :: 0 <= i < |clauses| ==> !Catches(clauses[i], e)
    ensures FirstHandler(clauses, e).Some? ==>
              exists i :: 0 <= i < |clauses| && Catches(clauses[i], e) && clauses[i].code == FirstHandler(clauses, e).value
                          && forall j :: 0 <= j < i ==> !Catches(clauses[j], e)
  {
    if clauses != [] && !Catches(clauses[0], e) {
      FirstHandlerIsFirstMatch(clauses[1..], e);
      assert forall i :: 1 <= i < |clauses| ==> clauses[i] == clauses[1..][i - 1];
      if FirstHandler(clauses, e).Some? {
        var i :| 0 <= i < |clauses[1..]| && Catches(clauses[1..][i], e) && clauses[1..][i].code == FirstHandler(clauses, e).value
                 && forall j :: 0 <= j < i ==> !Catches(clauses[1..][j], e);
        assert Catches(clauses[i + 1], e);
      }
    }
  }

  /** The code execRequest's catch clauses give an exception of class `e`. */
  function HandlerCode(e: ExceptionClass): Option<ErrorCode>
  {
    FirstHandler(Handlers, e)
  }
}

module FailureMappingProperties {
  import opened Wrappers
  import opened Exceptions
  import opened Responses
  import opened FailureMapping

  /** The clause list read as the chain of tests Java performs. */
  lemma HandlerCodeChain(e: ExceptionClass)
    ensures HandlerCode(e) ==
      if IsA(e, JsonSyntaxException) then Some(InvalidJsonResponse)
      else if IsA(e, ConnectException) then Some(ConnectTimeout)
      else if IsA(e, SocketTimeoutException) then Some(ReadTimeout)
      else if IsA(e, UnknownHostException) then Some(DnsLookupFailed)
      else if IsA(e, FileNotFoundException) || IsA(e, FileSystemException) then Some(FileIoError)
      else if IsA(e, SSLException) then Some(TlsProtocolError)
      else if IsA(e, IOException) then Some(NetworkIoError)
      else None
  {
    var h := Handlers;
    CatchesOne(h[0], e);
    CatchesOne(h[1], e);
    CatchesOne(h[2], e);
    CatchesOne(h[3], e);
    CatchesTwo(h[4], e);
    CatchesOne(h[5], e);
    CatchesOne(h[6], e);
    FirstHandlerStep(h, e);
    FirstHandlerStep(h[1..], e);
    FirstHandlerStep(h[2..], e);
    FirstHandlerStep(h[3..], e);
    FirstHandlerStep(h[4..], e);
    FirstHandlerStep(h[5..], e);
    FirstHandlerStep(h[6..], e);
    assert h[1..][1..] == h[2..] && h[2..][1..] == h[3..] && h[3..][1..] == h[4..];
    assert h[4..][1..] == h[5..] && h[5..][1..] == h[6..] && h[6..][1..] == [];
  }

  lemma CatchesOne(clause: CatchClause, e: ExceptionClass)
    requires |clause.types| == 1
    ensures Catches(clause, e) <==> IsA(e, clause.types[0])
  {
    if IsA(e, clause.types[0]) {
      assert 0 < |clause.types|;
    }
  }

  lemma CatchesTwo(clause: CatchClause, e: ExceptionClass)
    requires |clause.types| == 2
    ensures Catches(clause, e) <==> IsA(e, clause.types[0]) || IsA(e, clause.types[1])
  {
  }

  lemma FirstHandlerStep(clauses: seq<CatchClause>, e: ExceptionClass)
    requires clauses != []
    ensures FirstHandler(clauses, e) == if Catches(clauses[0], e) then Some(clauses[0].code) else FirstHandler(clauses[1..], e)
  {
  }

  /** Exactly the I/O exceptions and Gson's syntax exception are caught;
      every other exception escapes execRequest. */
  lemma CaughtExactly(e: ExceptionClass)
    ensures HandlerCode(e).Some? <==> IsA(e, IOException) || IsA(e, JsonSyntaxException)
  {
    HandlerCodeChain(e);
  }

  /** Each exception, including every subclass of a caught class, gets the
      code of the clause that names one of its superclasses; the subtrees the
      clauses name do not overlap, so their order only matters for the final
      IOException clause. */
  lemma HandlerCodes(e: ExceptionClass)
    ensures IsA(e, JsonSyntaxException) ==> HandlerCode(e) == Some(InvalidJsonResponse)
    ensures IsA(e, ConnectException) ==> HandlerCode(e) == Some(ConnectTimeout)
    ensures IsA(e, SocketTimeoutException) ==> HandlerCode(e) == Some(ReadTimeout)
    ensures IsA(e, UnknownHostException) ==> HandlerCode(e) == Some(DnsLookupFailed)
    ensures IsA(e, FileNotFoundException) || IsA(e, FileSystemException) ==> HandlerCode(e) == Some(FileIoError)
    ensures IsA(e, SSLException) ==> HandlerCode(e) == Some(TlsProtocolError)
    ensures IsA(e, IOException) && !IsA(e, ConnectException) && !IsA(e, SocketTimeoutException)
            && !IsA(e, UnknownHostException) && !IsA(e, FileNotFoundException)
            && !IsA(e, FileSystemException) && !IsA(e, SSLException)
            ==> HandlerCode(e) == Some(NetworkIoError)
  {
    HandlerCodeChain(e);
    match e
    case Exception =>
    case RuntimeException =>
    case IllegalStateException =>
    case NullPointerException =>
    case JsonParseException =>
    case JsonSyntaxException =>
    case JsonIOException =>
    case IOException =>
    case SocketException =>
    case ConnectException =>
    case NoRouteToHostException =>
    case InterruptedIOException =>
    case SocketTimeoutException =>
    case UnknownHostException =>
    case FileNotFoundException =>
    case FileSystemException =>
    case AccessDeniedException =>
    case NoSuchFileException =>
    case SSLException =>
    case SSLHandshakeException =>
    case SSLPeerUnverifiedException =>
    case EOFException =>
    case ProtocolException =>
  }
}
