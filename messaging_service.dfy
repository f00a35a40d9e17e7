/**
 * The send path: post one message to the MessageBird API, then classify the
 * response. An undecodable body and an unexpected HTTP status raise an
 * ApiRuntimeException; every other response becomes a SendMessageResult,
 * whose predicates say whether the message went out.
 */
module Messaging {
  import opened Wrappers
  import opened ApiErrors
  import Messages
  import SendResults
  import Exceptions

  // ---------------------------------------------------------------------------
  // The HTTP exchange, abstracted
  // ---------------------------------------------------------------------------

  /** The JSON request body. */
  datatype RequestJson = RequestJson(originator: string, recipients: string, body: string)

  /** One POST: its path, its JSON body, and whether HTTP error statuses throw. */
  datatype PostRequest = PostRequest(path: string, json: RequestJson, httpErrors: bool)

  /**
   * The two parts of a decoded response document that the send path reads:
   * the top-level `errors` entry and `recipients.items[0].status`, each
   * absent when not set (or null).
   */
  datatype Document = Document(errors: Option<seq<RawError>>, firstRecipientStatus: Option<string>)

  /** The outcome of decoding the response body as JSON. */
  datatype DecodedBody = Decoded(document: Document) | DecodeFailed(reason: string)

  datatype Response = Response(statusCode: int, body: DecodedBody)

  /**
   * Stand-in for the HTTP client, configured with the API's base URL and
   * access key: the server's answer is a fixed function of the request, and
   * every request posted is recorded.
   */
  class HttpClient {
    const server: PostRequest -> Response
    var posts: seq<PostRequest>

    constructor (server: PostRequest -> Response)
      ensures this.server == server && posts == []
    {
      this.server := server;
      posts := [];
    }

    method Post(request: PostRequest) returns (response: Response)
      modifies this
      ensures posts == old(posts) + [request]
      ensures response == server(request)
    {
      posts := posts + [request];
      response := server(request);
    }
  }

  // ---------------------------------------------------------------------------
  // The decisions `send` makes, as functions of the message and the response
  // ---------------------------------------------------------------------------

  const MessagesPath: string := "/messages"
  const InvalidJsonMessage: string := "The MessageBird server did not return valid JSON."

  /** The status codes accepted besides the server-error range [500, 600). */
  const AcceptedStatusCodes: seq<int> := [200, 201, 204, 401, 404, 405, 422]

  /** The request `send` posts for a message. */
  function MessageRequest(originator: string, message: Messages.Message): (request: PostRequest)
    requires Messages.MatchesRecipientPattern(message.recipient)
    ensures request.path == MessagesPath && !request.httpErrors
    ensures request.json.recipients == Messages.GetRecipient(message)
    ensures request.json.body == Messages.GetBody(message)
    ensures request.json.originator == originator
  {
    PostRequest(MessagesPath, RequestJson(originator, message.recipient, message.body), false)
  }

  /** The errors attached to whatever `send` returns or raises. */
  function ExtractErrors(document: Document): seq<RawError> {
    if document.errors.Some? then document.errors.value else []
  }

  predicate IsAcceptedStatusCode(statusCode: int) {
    statusCode in AcceptedStatusCodes || (500 <= statusCode && statusCode < 600)
  }

  /** The delivery status reported for the first recipient, "not_sent" when there is none. */
  function ExtractDeliveryStatus(document: Document): string {
    if document.firstRecipientStatus.None? then SendResults.StatusNotSent
    else document.firstRecipientStatus.value
  }

  function UnexpectedBehaviourMessage(statusCode: int): string {
    "Unexpected MessageBird server behaviour (HTTP " + IntToDecimal(statusCode) + ")"
  }

  /** What `send` makes of a response: a result, or the exception it throws. */
  function Interpret(response: Response): (outcome: Result<SendResults.SendMessageResult, Exceptions.ApiRuntimeException>)
    ensures outcome.Success? <==> response.body.Decoded? && IsAcceptedStatusCode(response.statusCode)
    ensures outcome.Success? ==> SendResults.Valid(outcome.value)
  {
    match response.body
    case DecodeFailed(reason) =>
      Failure(Exceptions.New(InvalidJsonMessage, [], Some(reason)))
    case Decoded(document) =>
      var errors := ExtractErrors(document);
      if !IsAcceptedStatusCode(response.statusCode) then
        Failure(Exceptions.New(UnexpectedBehaviourMessage(response.statusCode), errors))
      else
        Success(SendResults.New(ExtractDeliveryStatus(document), errors))
  }

  // ---------------------------------------------------------------------------
  // The service
  // ---------------------------------------------------------------------------

  class MessagingService {
    const client: HttpClient

    constructor (client: HttpClient)
      ensures this.client == client
    {
      this.client := client;
    }

    /**
     * Posts the message once and classifies the response. The originator is
     * a parameter: the message value has none. The message is one `Messages.New`
     * could have built, so its recipient passed the format check.
     */
    method Send(originator: string, message: Messages.Message)
      returns (outcome: Result<SendResults.SendMessageResult, Exceptions.ApiRuntimeException>)
      requires Messages.MatchesRecipientPattern(message.recipient)
      modifies client
      ensures client.posts == old(client.posts) + [MessageRequest(originator, message)]
      ensures outcome == Interpret(client.server(MessageRequest(originator, message)))
    {
      var response := client.Post(MessageRequest(originator, message));
      if response.body.DecodeFailed? {
        return Failure(Exceptions.New(InvalidJsonMessage, [], Some(response.body.reason)));
      }
      var document := response.body.document;

      var errors: seq<RawError>;
      if document.errors.Some? {
        errors := document.errors.value;
      } else {
        errors := [];
      }

      var statusCode := response.statusCode;
      if !(statusCode in AcceptedStatusCodes) && !(500 <= statusCode && statusCode < 600) {
        return Failure(Exceptions.New(UnexpectedBehaviourMessage(statusCode), errors));
      }

      var deliveryStatus: string;
      if document.firstRecipientStatus.None? {
        deliveryStatus := SendResults.StatusNotSent;
      } else {
        deliveryStatus := document.firstRecipientStatus.value;
      }
      return Success(SendResults.New(deliveryStatus, errors));
    }
  }

  // ---------------------------------------------------------------------------
  // Properties of the classification
  // ---------------------------------------------------------------------------

  /**
   * A body that does not decode raises "The MessageBird server did not return
   * valid JSON." with no errors and the decode failure as previous exception,
   * whatever the status code: decoding is checked first.
   */
  lemma InvalidJsonIsCheckedFirst(statusCode: int, reason: string)
    ensures Interpret(Response(statusCode, DecodeFailed(reason)))
      == Failure(Exceptions.ApiRuntimeException(InvalidJsonMessage + " ", 0, Some(reason)))
  {
    assert Exceptions.CreateErrorString([]) == "";
    assert InvalidJsonMessage + " " + "" == InvalidJsonMessage + " ";
  }

  /** Whether `send` raises depends on the status code alone, never on the errors or the status reported. */
  lemma AcceptanceDependsOnlyOnStatusCode(statusCode: int, d1: Document, d2: Document)
    ensures Interpret(Response(statusCode, Decoded(d1))).Success?
        == Interpret(Response(statusCode, Decoded(d2))).Success?
    ensures Interpret(Response(statusCode, Decoded(d1))).Success? == IsAcceptedStatusCode(statusCode)
  {
  }

  /**
   * An unexpected status code raises an exception whose message names the
   * code and ends with the document's errors, or with the empty list when it
   * has none.
   */
  lemma UnexpectedStatusCodeRaises(statusCode: int, document: Document)
    requires !IsAcceptedStatusCode(statusCode)
    ensures Interpret(Response(statusCode, Decoded(document))) == Failure(Exceptions.ApiRuntimeException(
      "Unexpected MessageBird server behaviour (HTTP " + IntToDecimal(statusCode) + ") "
        + ErrorString(if document.errors.Some? then document.errors.value else []),
      0, None))
  {
    var prefix := "Unexpected MessageBird server behaviour (HTTP ";
    var d := IntToDecimal(statusCode);
    var errors := ExtractErrors(document);
    assert prefix + d + ")" + " " + ErrorString(errors) == prefix + d + ") " + ErrorString(errors);
  }

  /** The status code can be read back from the unexpected-behaviour message. */
  lemma UnexpectedMessageNamesStatusCode(statusCode: int)
    ensures var m := UnexpectedBehaviourMessage(statusCode);
      var prefix := "Unexpected MessageBird server behaviour (HTTP ";
      |prefix| < |m| && m[..|prefix|] == prefix && m[|m| - 1] == ')'
      && ParseDecimal(m[|prefix|..|m| - 1]) == Some(statusCode)
  {
    var prefix := "Unexpected MessageBird server behaviour (HTTP ";
    var m := UnexpectedBehaviourMessage(statusCode);
    assert m[|prefix|..|m| - 1] == IntToDecimal(statusCode);
    DecimalRoundTrip(statusCode);
  }

  /**
   * An accepted status code never raises: the result carries the first
   * recipient's status (or "not_sent") normalised, and exactly the document's
   * errors, so 401 and 422 surface through the result's predicates.
   */
  lemma AcceptedStatusCodeReturns(statusCode: int, document: Document)
    requires IsAcceptedStatusCode(statusCode)
    ensures var outcome := Interpret(Response(statusCode, Decoded(document)));
      var errors := if document.errors.Some? then document.errors.value else [];
      && outcome.Success?
      && SendResults.GetRawErrors(outcome.value) == errors
      && outcome.value.deliveryStatus == SendResults.NormaliseDeliveryStatus(
           if document.firstRecipientStatus.Some? then document.firstRecipientStatus.value
           else SendResults.StatusNotSent)
      && (SendResults.IsAccessKeyInvalid(outcome.value) <==>
           exists i :: 0 <= i < |errors| && errors[i].code == SendResults.ErrorRequestNotAllowed)
      && (SendResults.IsMessageInvalid(outcome.value) <==>
           exists i :: 0 <= i < |errors| && errors[i].code == SendResults.ErrorInvalidParams)
  {
  }

  /** A response without a first-recipient status never counts as a success. */
  lemma MissingStatusIsNotSuccess(statusCode: int, document: Document)
    requires document.firstRecipientStatus.None?
    ensures var outcome := Interpret(Response(statusCode, Decoded(document)));
      outcome.Success? ==> !SendResults.IsSuccess(outcome.value)
  {
  }

  /** Status codes the client's tests use, plus the bounds of the [500, 600) range and their neighbours. */
  lemma StatusCodeExamples()
    ensures IsAcceptedStatusCode(200) && IsAcceptedStatusCode(201) && IsAcceptedStatusCode(204)
    ensures IsAcceptedStatusCode(401) && IsAcceptedStatusCode(404) && IsAcceptedStatusCode(405)
    ensures IsAcceptedStatusCode(422) && IsAcceptedStatusCode(500) && IsAcceptedStatusCode(599)
    ensures !IsAcceptedStatusCode(101) && !IsAcceptedStatusCode(400) && !IsAcceptedStatusCode(406)
    ensures !IsAcceptedStatusCode(415) && !IsAcceptedStatusCode(499) && !IsAcceptedStatusCode(600)
  {
  }

  /** A 406 answer carrying error 20 raises, and the message ends with "(#20) message not found". */
  lemma NotAcceptableExample()
    ensures var e := RawError(20, "message not found", "id");
      var outcome := Interpret(Response(406, Decoded(Document(Some([e]), None))));
      && outcome.Failure?
      && outcome.error.message == UnexpectedBehaviourMessage(406) + " " + "(#20) " + "message not found"
  {
  }

  /** A 200 answer reporting "delivered" and no errors is a success. */
  lemma DeliveredExample()
    ensures var outcome := Interpret(Response(200, Decoded(Document(None, Some(SendResults.StatusDelivered)))));
      outcome.Success? && SendResults.IsSuccess(outcome.value)
  {
  }

  /** A 502 answer carrying errors is returned, not raised, and is not a success. */
  lemma BadGatewayExample(document: Document)
    requires document.errors.Some? && document.errors.value != []
    ensures var outcome := Interpret(Response(502, Decoded(document)));
      outcome.Success? && !SendResults.IsSuccess(outcome.value)
  {
  }
}
