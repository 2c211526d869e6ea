/** The response envelope every handler returns
    (Application/Wrappers/ResponseWrapper.cs). */
module Responses {
  import opened Common

  /** ResponseWrapper<T>; the non-generic ResponseWrapper is the same envelope
      with no data. `data` is None where the source leaves Data at default. */
  datatype Response<+T> = Response(isSuccessful: bool, messages: seq<string>, data: Option<T>)

  /** ResponseWrapper.Success(message = null) */
  function Success<T>(message: Option<string>): (r: Response<T>)
    ensures r.isSuccessful && r.data.None?
    ensures |r.messages| <= 1
    ensures |r.messages| == 1 <==> message.Some?
    ensures message.Some? ==> r.messages[0] == message.value
  {
    Response(true, if message.Some? then [message.value] else [], None)
  }

  /** ResponseWrapper.Success(List<string>) */
  function SuccessAll<T>(messages: seq<string>): (r: Response<T>)
    ensures r.isSuccessful && r.data.None?
    ensures r.messages == messages
  {
    Response(true, messages, None)
  }

  /** ResponseWrapper.Fail() */
  function Fail<T>(): (r: Response<T>)
    ensures !r.isSuccessful && r.data.None? && r.messages == []
  {
    Response(false, [], None)
  }

  /** ResponseWrapper.Fail(string) */
  function FailWith<T>(message: string): (r: Response<T>)
    ensures !r.isSuccessful && r.data.None?
    ensures r.messages == [message]
  {
    Response(false, [message], None)
  }

  /** ResponseWrapper.Fail(List<string>) */
  function FailAll<T>(messages: seq<string>): (r: Response<T>)
    ensures !r.isSuccessful && r.data.None?
    ensures r.messages == messages
  {
    Response(false, messages, None)
  }

  /** ResponseWrapper<T>.Success(data, message = null) */
  function SuccessData<T>(data: T, message: Option<string>): (r: Response<T>)
    ensures r.isSuccessful && r.data == Some(data)
    ensures |r.messages| <= 1
    ensures |r.messages| == 1 <==> message.Some?
    ensures message.Some? ==> r.messages[0] == message.value
  {
    Response(true, if message.Some? then [message.value] else [], Some(data))
  }

  /** ResponseWrapper<T>.Success(data, List<string>) */
  function SuccessDataAll<T>(data: T, messages: seq<string>): (r: Response<T>)
    ensures r.isSuccessful && r.data == Some(data)
    ensures r.messages == messages
  {
    Response(true, messages, Some(data))
  }

  /** The message a single-message envelope carries, read back. */
  function SoleMessage<T>(r: Response<T>): Option<string> {
    if |r.messages| == 1 then Some(r.messages[0]) else None
  }

  /** Reading the message back from any single-message constructor returns it,
      and the success flag tells the success and failure envelopes apart. */
  lemma EnvelopeRoundTrip<T>(message: string, data: T)
    ensures SoleMessage(Success<T>(Some(message))) == Some(message)
    ensures SoleMessage(SuccessData(data, Some(message))) == Some(message)
    ensures SoleMessage(FailWith<T>(message)) == Some(message)
    ensures SoleMessage(Success<T>(None)) == None
    ensures Success<T>(Some(message)) != FailWith<T>(message)
  {
  }

  /** The list overloads coincide with the single-message ones on one-element lists. */
  lemma ListOverloadsAgree<T>(message: string, data: T)
    ensures SuccessAll<T>([message]) == Success<T>(Some(message))
    ensures FailAll<T>([message]) == FailWith<T>(message)
    ensures FailAll<T>([]) == Fail<T>()
    ensures SuccessDataAll(data, [message]) == SuccessData(data, Some(message))
  {
  }
}
