/** The middleware that turns an exception escaping the rest of the request
    pipeline into a JSON failure envelope (WebApi/ErrorHandlingMiddleware.cs). */
module ErrorHandling {
  import opened Common
  import opened Errors
  import opened Responses

  /** What the middleware writes: status code, content type and envelope. */
  datatype HttpReply = HttpReply(statusCode: int, contentType: string, body: Response<()>)

  const JsonContentType: string := "application/json"
  const GenericMessage: string := "Something went wrong . Contact Administrator."

  /** The exception kinds that carry their own status code and messages. */
  predicate IsMapped(e: Exception) {
    e.Conflict? || e.Forbidden? || e.Identity? || e.NotFound? || e.Unauthorized?
  }

  function NonEmpty(m: string): bool { m != "" }

  /** The development-mode message list of an unmapped exception: its
      message, its inner exception's message and the stack trace, empty
      ones left out, in that order. */
  function DevelopmentMessages(e: Exception, stackTrace: Option<string>): (r: seq<string>)
    ensures r == (if MessageOf(e) != "" then [MessageOf(e)] else [])
               + (if InnerMessageOf(e).OrElse("") != "" then [InnerMessageOf(e).OrElse("")] else [])
               + (if stackTrace.OrElse("") != "" then [stackTrace.OrElse("")] else [])
    ensures forall m :: m in r <==> m != "" && m in [MessageOf(e), InnerMessageOf(e).OrElse(""), stackTrace.OrElse("")]
  {
    var (m, inner, trace) := (MessageOf(e), InnerMessageOf(e).OrElse(""), stackTrace.OrElse(""));
    assert [trace][1..] == [];
    assert Filter([trace], NonEmpty) == if trace != "" then [trace] else [];
    assert [inner, trace][1..] == [trace];
    assert Filter([inner, trace], NonEmpty)
        == (if inner != "" then [inner] else []) + (if trace != "" then [trace] else []);
    assert [m, inner, trace][1..] == [inner, trace];
    Filter([m, inner, trace], NonEmpty)
  }

  /** InvokeAsync: `thrown` is what the next delegate threw, if anything.
      `stackTrace` is the runtime's stack trace of the thrown exception. */
  function Invoke(thrown: Option<Exception>, isDevelopment: bool, stackTrace: Option<string>): (r: Option<HttpReply>)
    ensures r.None? <==> thrown.None?
    ensures r.Some? ==> !r.value.body.isSuccessful && r.value.body.data.None?
    ensures r.Some? ==> r.value.contentType == JsonContentType
    ensures r.Some? && IsMapped(thrown.value) ==>
      r.value.statusCode == thrown.value.statusCode && r.value.body.messages == thrown.value.errorMessages
    ensures r.Some? && !IsMapped(thrown.value) ==> r.value.statusCode == StatusInternalServerError
    ensures r.Some? && !IsMapped(thrown.value) && !isDevelopment ==> r.value.body.messages == [GenericMessage]
    ensures r.Some? && !IsMapped(thrown.value) && isDevelopment ==>
      r.value.body.messages == DevelopmentMessages(thrown.value, stackTrace)
  {
    match thrown
    case None => None
    case Some(ex) =>
      var reply := HttpReply(0, JsonContentType, Fail());
      match ex
      case Conflict(messages, status) => Some(reply.(statusCode := status, body := reply.body.(messages := messages)))
      case Forbidden(messages, status) => Some(reply.(statusCode := status, body := reply.body.(messages := messages)))
      case Identity(messages, status) => Some(reply.(statusCode := status, body := reply.body.(messages := messages)))
      case NotFound(messages, status) => Some(reply.(statusCode := status, body := reply.body.(messages := messages)))
      case Unauthorized(messages, status) => Some(reply.(statusCode := status, body := reply.body.(messages := messages)))
      case _ =>
        var messages := if isDevelopment then DevelopmentMessages(ex, stackTrace) else [GenericMessage];
        Some(reply.(statusCode := StatusInternalServerError, body := reply.body.(messages := messages)))
  }

  /** Outside development the client learns nothing about an unmapped
      exception: every such exception yields the same reply. */
  lemma ProductionHidesDetails(e1: Exception, e2: Exception, st1: Option<string>, st2: Option<string>)
    requires !IsMapped(e1) && !IsMapped(e2)
    ensures Invoke(Some(e1), false, st1) == Invoke(Some(e2), false, st2)
  {
  }

  /** A failed validation is not one of the mapped kinds: it reaches the
      client as a 500, with the validation summary only in development. */
  lemma ValidationFailureIsServerError(failures: seq<Failure>, isDevelopment: bool, stackTrace: Option<string>)
    ensures Invoke(Some(ValidationFailed(failures)), isDevelopment, stackTrace).value.statusCode == StatusInternalServerError
    ensures isDevelopment ==>
      ValidationSummary(failures) in Invoke(Some(ValidationFailed(failures)), isDevelopment, stackTrace).value.body.messages
  {
    ValidationSummaryNonEmpty(failures);
  }

  lemma {:induction false} ValidationSummaryNonEmpty(failures: seq<Failure>)
    ensures ValidationSummary(failures) != ""
  {
    if |failures| > 0 {
      ValidationSummaryNonEmpty(failures[..|failures| - 1]);
    }
  }
}
