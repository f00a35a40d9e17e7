# MessageBird API client: send path and result classification

This project is a Dafny model of the core of SURFnet's MessageBird API client
library, written in PHP. The model covers four pieces:

- `Message` is a value object. Construction accepts a recipient only if it
  matches `~^\d+$~`. The body may be any string.
- `SendMessageResult` stores a delivery status and the raw API errors. It
  folds any status string into one of seven values. From the status and the
  errors it derives `isSuccess`, `isMessageInvalid` and `isAccessKeyInvalid`.
  It renders the errors as `(#code) description` joined by `; `.
- `ApiRuntimeException` builds its message from the message it is given, one
  space, and the same error rendering.
- `MessagingService::send` posts one message to `/messages` and classifies
  the response. A body that does not decode as JSON raises an exception. So
  does a status code outside {200, 201, 204, 401, 404, 405, 422} ∪ [500, 600).
  Every other response becomes a `SendMessageResult`.

Files and modules:

- `wrappers.dfy` (`Wrappers`): `Option` and `Result`. A `Result` is either a
  returned value or a thrown exception.
- `api_errors.dfy` (`ApiErrors`): the error record, the `%d` rendering of
  codes and the list rendering. Both `SendMessageResult` and
  `ApiRuntimeException` use the list rendering. The module also has inverses
  that read a numeral and a rendered error back.
- `message.dfy` (`Messages`): `Message.php`.
- `send_message_result.dfy` (`SendResults`): `SendMessageResult.php`.
- `api_runtime_exception.dfy` (`Exceptions`): `ApiRuntimeException.php`.
- `messaging_service.dfy` (`Messaging`): `MessagingService.php`. This holds
  the pure decision function `Interpret`, the class `MessagingService` whose
  `Send` method follows the PHP step by step, and `HttpClient`, a stand-in
  for the Guzzle client. `HttpClient` records every request posted, so "posts
  exactly once" is part of `Send`'s postcondition.

How the model differs from the source, and why:

- `MessagingService.php:54` calls `$message->getOriginator()`, but
  `Message.php` declares no originator. The model passes the originator to
  `Send` as a parameter and keeps `Message` as the code defines it, with two
  fields. As written, `send` therefore never reaches the POST: the call to
  the undefined method fails first. Every outcome of `Send` in the model
  assumes an originator that the code never supplies.
- The tests build `Message` with three arguments and `MessagingService` with
  two. They also call `getErrors()`, and expect `InvalidArgumentException`
  where `Message.php` throws `DomainException`. Where the tests and the code
  disagree, the model follows the code.
- The test for an unknown status code expects the text
  "Unexpected server behaviour". The code writes
  "Unexpected MessageBird server behaviour (HTTP n)". The model uses the
  code's text.
- PCRE's `$` without the D modifier also matches just before a final
  newline. The model therefore accepts a digit run followed by one `"\n"` as
  a recipient. `Messages.MatchesRecipientPattern` states this and
  `Messages.RecipientExamples` shows it.

## Model

| member | source | states |
|---|---|---|
| `ApiErrors.IntToDecimal` | src/Surfnet/MessageBirdApiClient/Messaging/SendMessageResult.php:114 | the `%d` rendering of a code is non-empty, starts with '-' exactly for negative codes, and is otherwise all digits |
| `ApiErrors.NatToDecimal` | src/Surfnet/MessageBirdApiClient/Messaging/SendMessageResult.php:114 | the numeral of a natural number is all digits, and starts with '0' only for zero (no leading zeros) |
| `ApiErrors.DecimalValueOfNumeral` | src/Surfnet/MessageBirdApiClient/Messaging/SendMessageResult.php:114 | the digits printed for a natural number have that number as their value |
| `ApiErrors.DecimalRoundTrip` | src/Surfnet/MessageBirdApiClient/Messaging/SendMessageResult.php:114 | the numeral `%d` prints for any integer code parses back to that code |
| `ApiErrors.FormatError` | src/Surfnet/MessageBirdApiClient/Messaging/SendMessageResult.php:114 | one error is rendered as "(#code) description"; `ApiErrors.FormatErrorRoundTrip` proves the rendering gives back exactly the code and the description |
| `ApiErrors.FormatErrorRoundTrip` | src/Surfnet/MessageBirdApiClient/Messaging/SendMessageResult.php:113-115 | "(#code) description" parses back to exactly the code and the description, so one rendered error is unambiguous |
| `ApiErrors.Join` | src/Surfnet/MessageBirdApiClient/Messaging/SendMessageResult.php:113 | `join` puts the separator between neighbours only; `ApiErrors.JoinAppend` proves it composes over concatenation |
| `ApiErrors.JoinAppend` | src/Surfnet/MessageBirdApiClient/Messaging/SendMessageResult.php:113 | `join` of two concatenated non-empty lists is the two joins with one separator between them |
| `ApiErrors.ErrorString` | src/Surfnet/MessageBirdApiClient/Messaging/SendMessageResult.php:111-116 | the rendering is "" exactly when there are no errors |
| `ApiErrors.ErrorStringAppend` | src/Surfnet/MessageBirdApiClient/Messaging/SendMessageResult.php:111-116 | rendering `a + b` gives the rendering of `a`, then "; ", then the rendering of `b` |
| `ApiErrors.ErrorStringAt` | src/Surfnet/MessageBirdApiClient/Messaging/SendMessageResult.php:111-116 | every error i appears as "(#code) description", with the earlier errors and "; " before it and "; " and the later errors after it |
| `ApiErrors.ErrorStringOfThree` | src/Surfnet/MessageBirdApiClient/Messaging/SendMessageResult.php:111-116 | three errors render as three parts separated by "; " |
| `Messages.RecipientPatternLanguage` | src/Surfnet/MessageBirdApiClient/Messaging/Message.php:46-48 | the recipient check accepts exactly a non-empty digit run, alone or followed by one final newline |
| `Messages.MatchesRecipientPattern` | src/Surfnet/MessageBirdApiClient/Messaging/Message.php:46 | the `preg_match` test; `Messages.RecipientPatternLanguage` proves it accepts exactly a digit run, optionally followed by one final newline |
| `Messages.New` | src/Surfnet/MessageBirdApiClient/Messaging/Message.php:40-56 | construction succeeds iff the recipient matches `^\d+$`; otherwise it fails with "Message recipient must consist of digits only." |
| `Messages.GetRecipient` | src/Surfnet/MessageBirdApiClient/Messaging/Message.php:61-64 | returns the recipient; `Messages.AccessorsReturnArguments` proves it is the constructor argument |
| `Messages.GetBody` | src/Surfnet/MessageBirdApiClient/Messaging/Message.php:69-72 | returns the body; `Messages.AccessorsReturnArguments` proves it is the constructor argument |
| `Messages.AccessorsReturnArguments` | src/Surfnet/MessageBirdApiClient/Messaging/Message.php:54-72 | after construction, `getRecipient` and `getBody` return exactly the arguments |
| `Messages.BodyIsUnconstrained` | src/Surfnet/MessageBirdApiClient/Messaging/Message.php:50-55 | the body never decides acceptance, and the empty body is accepted |
| `Messages.RecipientExamples` | src/Surfnet/MessageBirdApiClient/Tests/Messaging/MessageTest.php:109-115 | "" and "8d98ap" are rejected, "31612345678" is accepted, and so is "31612345678\n" (PCRE `$`) |
| `SendResults.NormaliseDeliveryStatus` | src/Surfnet/MessageBirdApiClient/Messaging/SendMessageResult.php:137-150 | the stored status is one of the seven statuses, equals its input exactly when the input is one of them, and is otherwise "unknown" |
| `SendResults.IsKnownDeliveryStatus` | src/Surfnet/MessageBirdApiClient/Messaging/SendMessageResult.php:137-150 | the six known statuses; `SendResults.StatusNormalisation` proves they are kept and that "unknown" is not among them |
| `SendResults.New` | src/Surfnet/MessageBirdApiClient/Messaging/SendMessageResult.php:57-69 | every constructed result keeps a status from the seven, and the status is unchanged iff it was already one of them |
| `SendResults.StatusNormalisation` | src/Surfnet/MessageBirdApiClient/Messaging/SendMessageResult.php:63-67 | the six known statuses are stored unchanged; every other string, "unknown" included, is stored as "unknown" |
| `SendResults.NewIsIdempotent` | src/Surfnet/MessageBirdApiClient/Messaging/SendMessageResult.php:34-40 | rebuilding a constructed result from its own fields yields the same result |
| `SendResults.IsSuccess` | src/Surfnet/MessageBirdApiClient/Messaging/SendMessageResult.php:74-81 | a success never has errors |
| `SendResults.SuccessCharacterisation` | src/Surfnet/MessageBirdApiClient/Messaging/SendMessageResult.php:74-81 | `isSuccess` holds iff there are no errors and the given status is buffered, sent, delivered or scheduled |
| `SendResults.FailedStatusesNeverSucceed` | src/Surfnet/MessageBirdApiClient/Tests/Messaging/SendMessageResultTest.php:62-80 | delivery_failed, not_sent, unknown and every unrecognised status are never a success, whatever the errors |
| `SendResults.HasErrorWithCode` | src/Surfnet/MessageBirdApiClient/Messaging/SendMessageResult.php:122-131 | the early-return scan is true iff some error has the code |
| `SendResults.IsMessageInvalid` | src/Surfnet/MessageBirdApiClient/Messaging/SendMessageResult.php:86-89 | true iff some error of the result has code 10 |
| `SendResults.IsAccessKeyInvalid` | src/Surfnet/MessageBirdApiClient/Messaging/SendMessageResult.php:94-97 | true iff some error of the result has code 2 |
| `SendResults.MessageInvalidIff` | src/Surfnet/MessageBirdApiClient/Messaging/SendMessageResult.php:86-89 | `isMessageInvalid` holds iff some error has code 10, for every status |
| `SendResults.AccessKeyInvalidIff` | src/Surfnet/MessageBirdApiClient/Messaging/SendMessageResult.php:94-97 | `isAccessKeyInvalid` holds iff some error has code 2, for every status |
| `SendResults.GetRawErrors` | src/Surfnet/MessageBirdApiClient/Messaging/SendMessageResult.php:103-106 | returns the stored errors; `SendResults.RawErrorsAreKept` proves they are the constructor's list, in order |
| `SendResults.RawErrorsAreKept` | src/Surfnet/MessageBirdApiClient/Messaging/SendMessageResult.php:103-106 | `getRawErrors` returns exactly the constructor's error list, in order |
| `SendResults.GetErrorsAsString` | src/Surfnet/MessageBirdApiClient/Messaging/SendMessageResult.php:111-116 | the error string of a result is "" exactly when it has no errors |
| `SendResults.ErrorsAsStringEmptyIff` | src/Surfnet/MessageBirdApiClient/Messaging/SendMessageResult.php:111-116 | for every status and error list, `getErrorsAsString` after construction is "" iff the list is empty |
| `SendResults.ErrorsAsStringLayout` | src/Surfnet/MessageBirdApiClient/Messaging/SendMessageResult.php:111-116 | for every index of a non-empty list, `getErrorsAsString` shows that error as "(#code) description" between the earlier and the later errors, separated by "; " |
| `SendResults.ErrorsAsStringExample` | src/Surfnet/MessageBirdApiClient/Tests/Messaging/MessagingServiceTest.php:95-99 | errors 2, 9 and 10 render as "(#2) Request not allowed (incorrect access_key); (#9) no (correct) recipients found; (#10) originator is invalid" |
| `Exceptions.CreateErrorString` | src/Surfnet/MessageBirdApiClient/Exception/ApiRuntimeException.php:42-47 | the exception's error string is "" exactly when there are no errors |
| `Exceptions.New` | src/Surfnet/MessageBirdApiClient/Exception/ApiRuntimeException.php:31-36 | the final message starts with the given message and one space; `code` and `previous` are passed on unchanged |
| `Exceptions.NoErrorsLeavesTrailingSpace` | src/Surfnet/MessageBirdApiClient/Exception/ApiRuntimeException.php:31-35 | with no errors the message is the given one plus a trailing space; `code` defaults to 0 and `previous` to none |
| `Exceptions.MessageListsEveryError` | src/Surfnet/MessageBirdApiClient/Exception/ApiRuntimeException.php:33-47 | for every `previous` and `code`, the final message is the given message, a space, then every error as "(#code) description", in order, separated by "; " |
| `Exceptions.ErrorStringAgreesWithResult` | src/Surfnet/MessageBirdApiClient/Exception/ApiRuntimeException.php:42-47 | the two textually identical PHP renderings are one function in the model, so the exception's error string is `SendMessageResult::getErrorsAsString` for the same errors |
| `Messaging.MessageRequest` | src/Surfnet/MessageBirdApiClient/Messaging/MessagingService.php:52-59 | for a message whose recipient passed the format check, the request goes to "/messages" with `http_errors` off; its JSON carries the originator, the message recipient as `recipients`, and the message body |
| `Messaging.ExtractErrors` | src/Surfnet/MessageBirdApiClient/Messaging/MessagingService.php:67-71 | the document's errors, or none when unset; `Messaging.UnexpectedStatusCodeRaises` and `Messaging.AcceptedStatusCodeReturns` prove these are the errors raised or returned |
| `Messaging.IsAcceptedStatusCode` | src/Surfnet/MessageBirdApiClient/Messaging/MessagingService.php:75 | the accepted codes and the [500, 600) range; `Messaging.StatusCodeExamples` and `Messaging.AcceptanceDependsOnlyOnStatusCode` state which codes pass |
| `Messaging.ExtractDeliveryStatus` | src/Surfnet/MessageBirdApiClient/Messaging/MessagingService.php:79-83 | the first recipient's status, or "not_sent"; `Messaging.MissingStatusIsNotSuccess` proves the default is never a success |
| `Messaging.UnexpectedBehaviourMessage` | src/Surfnet/MessageBirdApiClient/Messaging/MessagingService.php:76 | the message for a rejected code; `Messaging.UnexpectedMessageNamesStatusCode` proves the code reads back from it |
| `Messaging.HttpClient.Post` | src/Surfnet/MessageBirdApiClient/Messaging/MessagingService.php:52 | posting records the request once and returns the server's answer to it |
| `Messaging.MessagingService.constructor` | src/Surfnet/MessageBirdApiClient/Messaging/MessagingService.php:38-41 | the service keeps the client it is given |
| `Messaging.MessagingService.Send` | src/Surfnet/MessageBirdApiClient/Messaging/MessagingService.php:50-86 | for a message `Messages.New` could build, sending posts exactly one request, the message's, and returns or raises what `Interpret` makes of the server's answer |
| `Messaging.Interpret` | src/Surfnet/MessageBirdApiClient/Messaging/MessagingService.php:61-85 | a result is returned iff the body decoded and the status code is accepted; a returned result is valid |
| `Messaging.InvalidJsonIsCheckedFirst` | src/Surfnet/MessageBirdApiClient/Messaging/MessagingService.php:61-65 | for every status code, an undecodable body raises "The MessageBird server did not return valid JSON. " with code 0 and the decode failure as previous |
| `Messaging.AcceptanceDependsOnlyOnStatusCode` | src/Surfnet/MessageBirdApiClient/Messaging/MessagingService.php:73-77 | for a decoded body, whether `send` raises depends on the status code alone, never on the errors or the reported status |
| `Messaging.UnexpectedStatusCodeRaises` | src/Surfnet/MessageBirdApiClient/Messaging/MessagingService.php:67-77 | a rejected status code raises "Unexpected MessageBird server behaviour (HTTP n) " followed by the document's errors rendered, or by nothing when `errors` is not set |
| `Messaging.UnexpectedMessageNamesStatusCode` | src/Surfnet/MessageBirdApiClient/Messaging/MessagingService.php:76 | the status code can be read back from the unexpected-behaviour message |
| `Messaging.AcceptedStatusCodeReturns` | src/Surfnet/MessageBirdApiClient/Messaging/MessagingService.php:67-85 | an accepted code never raises. The result carries exactly the document's errors (or none) and the normalised first-recipient status (or "not_sent"). 401 and 422 show up only through `isAccessKeyInvalid` and `isMessageInvalid` |
| `Messaging.MissingStatusIsNotSuccess` | src/Surfnet/MessageBirdApiClient/Messaging/MessagingService.php:79-85 | without a first-recipient status the returned result is never a success |
| `Messaging.StatusCodeExamples` | src/Surfnet/MessageBirdApiClient/Messaging/MessagingService.php:75 | 200, 201, 204, 401, 404, 405, 422, 500 and 599 are accepted; 101, 400, 406, 415, 499 and 600 are not |
| `Messaging.NotAcceptableExample` | src/Surfnet/MessageBirdApiClient/Tests/Messaging/MessagingServiceTest.php:188-194 | a 406 answer carrying error 20 raises, and the message ends in "(#20) message not found" |
| `Messaging.DeliveredExample` | src/Surfnet/MessageBirdApiClient/Tests/Messaging/MessagingServiceTest.php:64-73 | a 200 answer reporting "delivered" with no errors is a success |
| `Messaging.BadGatewayExample` | src/Surfnet/MessageBirdApiClient/Tests/Messaging/MessagingServiceTest.php:124-134 | a 502 answer carrying errors is returned, not raised, and is not a success |

## Left out

- PHP runtime type checks (`is_string` at `Message.php:42-44` and `50-52`, and at `SendMessageResult.php:59-61`): Dafny's types rule out a non-string recipient, body or status. The exceptions "Message recipient must be string.", "Message body must be string." and "Delivery status must be string." are therefore not modelled. Of the three checks in `Message`'s constructor, only the format check remains, so the order of the checks has no observable effect in the model.
- Messaging.Interpret: a decoded document whose `errors` entry is not a list of code/description records, or whose first-recipient status is not a string, is outside the model. In PHP an `errors` value that is not an array fails the `array $errors` type hints of the `SendMessageResult` and `ApiRuntimeException` constructors, and a first-recipient status that is not a string raises "Delivery status must be string." from inside `send`. A list whose entries are not records (`[5]`), or a record without `code` or `description`, does not raise: the missing key reads as null with a notice, `sprintf('(#%d) %s', ...)` renders it as "(#0) " or "(#2) " followed by an empty description, `hasErrorWithCode` compares `(int) null` as 0, and `send` returns or raises as usual. A record with no `parameter`, or a null one, cannot be represented exactly by `RawError`, whose `parameter` is a string; the core never reads `parameter`, so only the value `getRawErrors` returns differs. The document carries only the two parts `send` reads, already typed.
- Error codes are integers in the model. PHP's `(int)` cast in `hasErrorWithCode` and `%d` applied to a string code are not modelled. The `(int)` cast of the HTTP status code is not modelled either.
- The Guzzle client is modelled only as `HttpClient`: base URL, Authorization header and the network are not modelled. The `TransferException` that Guzzle may throw and that `send` passes on is also left out. The server's answer is a fixed function of the request.
- `JsonHelper::decode` is not part of this model. Decoding is either a document or a failure carrying a reason. The previous exception is represented by that reason.
- Exceptions.New: the PHP exception class hierarchy (`RuntimeException` as parent, the `ApiException` interface with `getErrorString`) is not modelled. The exception is a value holding message, code and previous.
- The framework bundle (`MessageBirdApiClientBundle`: the logging `MessagingService` and the configuration tree) is not part of this model. It is logging and configuration plumbing.
- The originator format rule (digits, or 1 to 11 alphanumerics) appears only in the tests. No code in the library implements it, so it is not modelled. The originator is passed through unchecked.
