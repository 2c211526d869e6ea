/** The MediatR validation behaviour that runs every registered validator
    before a request reaches its handler
    (Application/Piplines/ValidationPipelineBehavior.cs). */
module ValidationPipeline {
  import opened Common
  import opened Errors
  import opened Responses

  /** The handler's declared response type, as the reflection in the
      behaviour sees it. IResponseWrapper, the interface the school and
      tenant commands declare, is neither wrapper class and so is OtherType. */
  datatype ResponseKind = PlainWrapper | GenericWrapper | OtherType

  /** What the behaviour does with a request: pass it on to the handler,
      answer it with a failure envelope itself, or throw. */
  datatype Outcome<T> = CalledNext(response: Response<T>) | Answered(response: Response<T>) | Threw(error: Exception)

  /** The non-null entries of a list (LINQ Where(f => f != null)). */
  function Present<X(!new)>(s: seq<Option<X>>): (r: seq<X>)
    ensures forall x :: x in r <==> Some(x) in s
    ensures (forall i :: 0 <= i < |s| ==> s[i].None?) ==> r == []
  {
    if |s| == 0 then []
    else
      var rest := Present(s[1..]);
      assert forall x :: Some(x) in s <==> Some(x) == s[0] || Some(x) in s[1..];
      if s[0].Some? then [s[0].value] + rest else rest
  }

  /** Failures of all validators, in validator order, null entries dropped. */
  function Failures(validatorErrors: seq<seq<Option<Failure>>>): (r: seq<Failure>)
    ensures forall f :: f in r <==> exists i :: 0 <= i < |validatorErrors| && Some(f) in validatorErrors[i]
  {
    Present(Flatten(validatorErrors))
  }

  /** The error message of each failure, in order. */
  function ErrorMessages(failures: seq<Failure>): (r: seq<string>)
    ensures |r| == |failures|
    ensures forall i :: 0 <= i < |failures| ==> r[i] == failures[i].errorMessage
  {
    seq(|failures|, i requires 0 <= i < |failures| => failures[i].errorMessage)
  }

  /** The error list reported to the caller: each distinct message once. */
  function ErrorList(validatorErrors: seq<seq<Option<Failure>>>): (r: seq<string>)
    ensures NoDuplicates(r)
    ensures forall m :: m in r <==>
      exists i, f :: 0 <= i < |validatorErrors| && Some(f) in validatorErrors[i] && f.errorMessage == m
  {
    var failures := Failures(validatorErrors);
    var messages := ErrorMessages(failures);
    assert forall m :: m in messages <==> exists f :: f in failures && f.errorMessage == m by {
      forall m ensures m in messages <==> exists f :: f in failures && f.errorMessage == m {
        if m in messages {
          var k :| 0 <= k < |messages| && messages[k] == m;
          assert failures[k] in failures;
        }
        if exists f :: f in failures && f.errorMessage == m {
          var f :| f in failures && f.errorMessage == m;
          var k :| 0 <= k < |failures| && failures[k] == f;
          assert messages[k] == m;
        }
      }
    }
    Distinct(messages)
  }

  /** Handle as the behaviour is written. For ResponseWrapper<T> the
      reflective lookup of FailAsync(List<string>) finds no such overload,
      so that branch falls through to the throw as well. */
  function HandleAsWritten<T>(validatorErrors: seq<seq<Option<Failure>>>, kind: ResponseKind, next: Response<T>): (o: Outcome<T>)
    ensures o.CalledNext? <==> |Failures(validatorErrors)| == 0
    ensures o.Answered? <==> |Failures(validatorErrors)| != 0 && kind == PlainWrapper
    ensures o.Threw? ==> o.error == ValidationFailed(Failures(validatorErrors))
  {
    if |validatorErrors| == 0 then CalledNext(next)
    else
      var failures := Failures(validatorErrors);
      if |failures| != 0 then
        match kind
        case PlainWrapper => Answered(FailAll(ErrorList(validatorErrors)))
        case GenericWrapper => Threw(ValidationFailed(failures))
        case OtherType => Threw(ValidationFailed(failures))
      else CalledNext(next)
  }

  /** Handle as evidently intended: both wrapper types answer with a failure
      envelope listing the distinct error messages; any other response type
      throws ValidationException. */
  function Handle<T>(validatorErrors: seq<seq<Option<Failure>>>, kind: ResponseKind, next: Response<T>): (o: Outcome<T>)
    ensures o.CalledNext? <==> |Failures(validatorErrors)| == 0
    ensures o.CalledNext? ==> o.response == next
    ensures o.Answered? <==> |Failures(validatorErrors)| != 0 && kind != OtherType
    ensures o.Answered? ==> !o.response.isSuccessful && o.response.data.None?
    ensures o.Answered? ==> o.response.messages == ErrorList(validatorErrors)
    ensures o.Threw? ==> o.error == ValidationFailed(Failures(validatorErrors)) && |o.error.failures| > 0
  {
    if |validatorErrors| == 0 then CalledNext(next)
    else
      var failures := Failures(validatorErrors);
      if |failures| != 0 then
        match kind
        case PlainWrapper => Answered(FailAll(ErrorList(validatorErrors)))
        case GenericWrapper => Answered(FailAll(ErrorList(validatorErrors)))
        case OtherType => Threw(ValidationFailed(failures))
      else CalledNext(next)
  }

  /** Whenever some validator reports a failure, the handler is never invoked. */
  lemma FailuresNeverReachHandler<T>(validatorErrors: seq<seq<Option<Failure>>>, kind: ResponseKind, next: Response<T>, i: nat, f: Failure)
    requires i < |validatorErrors| && Some(f) in validatorErrors[i]
    ensures !Handle(validatorErrors, kind, next).CalledNext?
    ensures !HandleAsWritten(validatorErrors, kind, next).CalledNext?
  {
    assert f in Failures(validatorErrors);
  }

  /** Null entries are ignored: validators that report only nulls let the request through. */
  lemma NullFailuresIgnored<T>(validatorErrors: seq<seq<Option<Failure>>>, kind: ResponseKind, next: Response<T>)
    requires forall i, j :: 0 <= i < |validatorErrors| && 0 <= j < |validatorErrors[i]| ==> validatorErrors[i][j].None?
    ensures Handle(validatorErrors, kind, next) == CalledNext(next)
  {
    var flat := Flatten(validatorErrors);
    forall k | 0 <= k < |flat|
      ensures flat[k].None?
    {
      assert flat[k] in flat;
      var i :| 0 <= i < |validatorErrors| && flat[k] in validatorErrors[i];
    }
  }

  /** A message reported by two validators is listed once. */
  lemma RepeatedMessageListedOnce<T>(f: Failure, next: Response<T>)
    ensures Handle([[Some(f)], [Some(f)]], PlainWrapper, next) == Answered(FailAll([f.errorMessage]))
  {
    var ve := [[Some(f)], [Some(f)]];
    assert Flatten(ve) == [Some(f), Some(f)] by {
      assert Flatten(ve[1..]) == [Some(f)] by {
        assert ve[1..][1..] == [];
      }
    }
    assert Present([Some(f), Some(f)][1..]) == [f] by {
      assert [Some(f), Some(f)][1..][1..] == [];
    }
    assert Failures(ve) == [f, f];
    assert ErrorMessages([f, f]) == [f.errorMessage, f.errorMessage];
    assert Distinct([f.errorMessage]) == [f.errorMessage] by {
      assert [f.errorMessage][..0] == [];
    }
    DistinctIgnoresRepeats([f.errorMessage], f.errorMessage);
    assert [f.errorMessage] + [f.errorMessage] == [f.errorMessage, f.errorMessage];
  }

  /** The behaviour as written throws for ResponseWrapper<T> where the
      intended behaviour answers with a failure envelope. */
  lemma GenericWrapperThrowsAsWritten<T>(f: Failure, next: Response<T>)
    ensures HandleAsWritten([[Some(f)]], GenericWrapper, next).Threw?
    ensures Handle([[Some(f)]], GenericWrapper, next).Answered?
  {
    assert Some(f) in [[Some(f)]][0];
  }

  /** The two agree on every input except a failing ResponseWrapper<T> request. */
  lemma AsWrittenAgreesElsewhere<T>(validatorErrors: seq<seq<Option<Failure>>>, kind: ResponseKind, next: Response<T>)
    requires kind != GenericWrapper || |Failures(validatorErrors)| == 0
    ensures HandleAsWritten(validatorErrors, kind, next) == Handle(validatorErrors, kind, next)
  {
  }
}
