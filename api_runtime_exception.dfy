/**
 * The runtime exception the send path throws: its message is the caller's
 * message, one space, and the API errors rendered as "(#code) description"
 * joined by "; ". The previous exception and the code go to the parent
 * exception untouched.
 */
module Exceptions {
  import opened Wrappers
  import opened ApiErrors
  import SendResults

  /**
   * The state the parent exception keeps: the final message, the code, and the
   * previous exception, represented by its message.
   */
  datatype ApiRuntimeException = ApiRuntimeException(message: string, code: int, previous: Option<string>)

  /** `createErrorString`: the same rendering SendMessageResult uses. */
  function CreateErrorString(errors: seq<RawError>): (s: string)
    ensures s == "" <==> errors == []
  {
    ErrorString(errors)
  }

  /** The constructor; `previous` defaults to none and `code` to 0. */
  function New(message: string, errors: seq<RawError>, previous: Option<string> := None, code: int := 0)
    : (e: ApiRuntimeException)
    ensures e.code == code && e.previous == previous
    ensures |e.message| > |message| && e.message[..|message| + 1] == message + " "
  {
    ApiRuntimeException(message + " " + CreateErrorString(errors), code, previous)
  }

  /** With no errors the message is the given one followed by a single trailing space. */
  lemma NoErrorsLeavesTrailingSpace(message: string, previous: Option<string>, code: int)
    ensures New(message, [], previous, code).message == message + " "
    ensures New(message, []).code == 0 && New(message, []).previous == None
  {
  }

  /**
   * The final message names every error, in order: after the given message
   * and a space come the errors before it, a separator, and its
   * "(#code) description".
   */
  lemma MessageListsEveryError(message: string, errors: seq<RawError>, previous: Option<string>, code: int, i: nat)
    requires i < |errors|
    ensures New(message, errors, previous, code).message ==
      message + " "
      + (if i == 0 then "" else ErrorString(errors[..i]) + "; ")
      + FormatError(errors[i])
      + (if i == |errors| - 1 then "" else "; " + ErrorString(errors[i + 1..]))
  {
    ErrorStringAt(errors, i);
  }

  /**
   * `createErrorString` and `getErrorsAsString` have textually identical
   * bodies, so the model defines the rendering once and both use it; this
   * lemma records that sharing rather than proving an agreement between two
   * independent definitions.
   */
  lemma ErrorStringAgreesWithResult(status: string, errors: seq<RawError>)
    ensures CreateErrorString(errors) == SendResults.GetErrorsAsString(SendResults.New(status, errors))
  {
  }
}
