/**
 * `MethodResultWrapper`: a Flutter method-channel result that lets only the
 * first of `success`, `error` and `notImplemented` through to the result it
 * wraps.  The wrapped result is a log of the replies it receives; payloads
 * of type `Any?` are modelled as optional strings.
 */
module MethodResult {
  import opened Common

  datatype Reply =
    | Success(result: Option<string>)
    | Error(errorCode: string, errorMessage: Option<string>, errorDetails: Option<string>)
    | NotImplemented

  /** What one call forwards: the reply itself unless a reply was already submitted. */
  function Forward(submitted: bool, reply: Reply): seq<Reply> {
    if submitted then [] else [reply]
  }

  /** What a series of calls forwards, starting from `submitted`. */
  function ForwardAll(submitted: bool, calls: seq<Reply>): seq<Reply>
    decreases |calls|
  {
    if calls == [] then []
    else Forward(submitted, calls[0]) + ForwardAll(true, calls[1..])
  }

  /**
   * On a fresh wrapper, whatever calls are made, exactly the first reaches
   * the wrapped result, unchanged; on a used one none does.
   */
  lemma {:induction false} AtMostOnce(submitted: bool, calls: seq<Reply>)
    ensures submitted ==> ForwardAll(submitted, calls) == []
    ensures !submitted ==> ForwardAll(submitted, calls) == if calls == [] then [] else [calls[0]]
    decreases |calls|
  {
    if calls != [] {
      AtMostOnce(true, calls[1..]);
    }
  }

  /** The wrapped `MethodChannel.Result`: the replies it has received, in order. */
  class ResultLog {
    var replies: seq<Reply>

    constructor()
      ensures replies == []
    {
      replies := [];
    }

    method Receive(reply: Reply)
      modifies this
      ensures replies == old(replies) + [reply]
    {
      replies := replies + [reply];
    }
  }

  class MethodResultWrapper {
    const methodResult: ResultLog
    var hasSubmitted: bool
    /** What the wrapped result had received before the wrapper was made. */
    ghost const before: seq<Reply>

    /** The wrapped result has received one reply through the wrapper exactly when one was submitted. */
    ghost predicate Valid()
      reads this, methodResult
    {
      |methodResult.replies| == |before| + (if hasSubmitted then 1 else 0) && methodResult.replies[..|before|] == before
    }

    constructor(methodResult: ResultLog)
      ensures this.methodResult == methodResult && !hasSubmitted && before == methodResult.replies
      ensures Valid()
    {
      this.methodResult := methodResult;
      hasSubmitted := false;
      before := methodResult.replies;
    }

    method Success(result: Option<string>)
      requires Valid()
      modifies `hasSubmitted, methodResult
      ensures Valid() && hasSubmitted
      ensures methodResult.replies == old(methodResult.replies) + Forward(old(hasSubmitted), Reply.Success(result))
    {
      if !hasSubmitted {
        hasSubmitted := true;
        methodResult.Receive(Reply.Success(result));
      }
    }

    method Error(errorCode: string, errorMessage: Option<string>, errorDetails: Option<string>)
      requires Valid()
      modifies `hasSubmitted, methodResult
      ensures Valid() && hasSubmitted
      ensures methodResult.replies == old(methodResult.replies) + Forward(old(hasSubmitted), Reply.Error(errorCode, errorMessage, errorDetails))
    {
      if !hasSubmitted {
        hasSubmitted := true;
        methodResult.Receive(Reply.Error(errorCode, errorMessage, errorDetails));
      }
    }

    method NotImplemented()
      requires Valid()
      modifies `hasSubmitted, methodResult
      ensures Valid() && hasSubmitted
      ensures methodResult.replies == old(methodResult.replies) + Forward(old(hasSubmitted), Reply.NotImplemented)
    {
      if !hasSubmitted {
        hasSubmitted := true;
        methodResult.Receive(Reply.NotImplemented);
      }
    }
  }
}
