/**
 * The outcome of one send: a delivery status folded into a closed set of
 * seven values, and the raw errors the API reported. Success and the two
 * error-specific verdicts are derived from these two fields.
 */
module SendResults {
  import opened ApiErrors

  // MessageBird error codes
  const ErrorRequestNotAllowed: int := 2
  const ErrorMissingParams: int := 9
  const ErrorInvalidParams: int := 10
  const ErrorNotFound: int := 20
  const ErrorNotEnoughBalance: int := 25
  const ErrorApiNotFound: int := 98
  const ErrorInternalError: int := 99

  // Delivery statuses
  const StatusScheduled: string := "scheduled"
  const StatusBuffered: string := "buffered"
  const StatusSent: string := "sent"
  const StatusDelivered: string := "delivered"
  const StatusDeliveryFailed: string := "delivery_failed"
  const StatusNotSent: string := "not_sent"
  const StatusUnknown: string := "unknown"

  /** The statuses kept as they are; every other string becomes "unknown". */
  const KnownDeliveryStatuses: seq<string> :=
    [StatusScheduled, StatusBuffered, StatusSent, StatusDelivered, StatusDeliveryFailed, StatusNotSent]

  /** The statuses that count as a success when no error was reported. */
  const SuccessStatuses: seq<string> := [StatusBuffered, StatusSent, StatusDelivered, StatusScheduled]

  /** The seven values a stored status can take. */
  const DeliveryStatuses: seq<string> := KnownDeliveryStatuses + [StatusUnknown]

  datatype SendMessageResult = SendMessageResult(deliveryStatus: string, errors: seq<RawError>)

  /** What every constructed result satisfies: its status is one of the seven. */
  predicate Valid(r: SendMessageResult) {
    r.deliveryStatus in DeliveryStatuses
  }

  predicate IsKnownDeliveryStatus(s: string) {
    s in KnownDeliveryStatuses
  }

  /** The status the constructor stores for a given status string. */
  function NormaliseDeliveryStatus(s: string): (r: string)
    ensures r in DeliveryStatuses
    ensures r == s <==> s in DeliveryStatuses
    ensures r != s ==> r == StatusUnknown
  {
    if IsKnownDeliveryStatus(s) then s else StatusUnknown
  }

  /** The constructor: the status is normalised, the errors are kept as given. */
  function New(deliveryStatus: string, errors: seq<RawError>): (r: SendMessageResult)
    ensures Valid(r)
    ensures r.deliveryStatus == deliveryStatus <==> deliveryStatus in DeliveryStatuses
  {
    SendMessageResult(NormaliseDeliveryStatus(deliveryStatus), errors)
  }

  function IsSuccess(r: SendMessageResult): (b: bool)
    ensures b ==> r.errors == []
  {
    |r.errors| == 0 && r.deliveryStatus in SuccessStatuses
  }

  /** The `foreach` with an early return over the errors, looking for `code`. */
  function HasErrorWithCode(errors: seq<RawError>, code: int): (b: bool)
    ensures b <==> exists i :: 0 <= i < |errors| && errors[i].code == code
  {
    if errors == [] then false
    else if errors[0].code == code then true
    else HasErrorWithCode(errors[1..], code)
  }

  function IsMessageInvalid(r: SendMessageResult): (b: bool)
    ensures b <==> exists i :: 0 <= i < |r.errors| && r.errors[i].code == ErrorInvalidParams
  {
    HasErrorWithCode(r.errors, ErrorInvalidParams)
  }

  function IsAccessKeyInvalid(r: SendMessageResult): (b: bool)
    ensures b <==> exists i :: 0 <= i < |r.errors| && r.errors[i].code == ErrorRequestNotAllowed
  {
    HasErrorWithCode(r.errors, ErrorRequestNotAllowed)
  }

  function GetRawErrors(r: SendMessageResult): seq<RawError> {
    r.errors
  }

  function GetErrorsAsString(r: SendMessageResult): (s: string)
    ensures s == "" <==> r.errors == []
  {
    ErrorString(r.errors)
  }

  // ---------------------------------------------------------------------------
  // Properties of the constructor and the derived verdicts
  // ---------------------------------------------------------------------------

  /** The six known statuses are stored unchanged; anything else, "unknown" included, as "unknown". */
  lemma StatusNormalisation(s: string, errors: seq<RawError>)
    ensures IsKnownDeliveryStatus(s) ==> New(s, errors).deliveryStatus == s
    ensures !IsKnownDeliveryStatus(s) ==> New(s, errors).deliveryStatus == StatusUnknown
    ensures !IsKnownDeliveryStatus(StatusUnknown)
  {
  }

  /** Re-constructing a result from its own fields changes nothing. */
  lemma NewIsIdempotent(r: SendMessageResult)
    requires Valid(r)
    ensures New(r.deliveryStatus, r.errors) == r
  {
  }

  /** Success holds exactly when no error was reported and the given status is a success status. */
  lemma SuccessCharacterisation(s: string, errors: seq<RawError>)
    ensures IsSuccess(New(s, errors)) <==> errors == [] && s in SuccessStatuses
  {
  }

  /** "delivery_failed", "not_sent", "unknown" and every unrecognised status never succeed. */
  lemma FailedStatusesNeverSucceed(s: string, errors: seq<RawError>)
    requires s !in SuccessStatuses
    ensures !IsSuccess(New(s, errors))
    ensures StatusDeliveryFailed !in SuccessStatuses && StatusNotSent !in SuccessStatuses
    ensures StatusUnknown !in SuccessStatuses
  {
  }

  /** The message is invalid exactly when some error has code 10, whatever the status. */
  lemma MessageInvalidIff(s: string, errors: seq<RawError>)
    ensures IsMessageInvalid(New(s, errors)) <==>
      exists i :: 0 <= i < |errors| && errors[i].code == ErrorInvalidParams
  {
  }

  /** The access key is invalid exactly when some error has code 2, whatever the status. */
  lemma AccessKeyInvalidIff(s: string, errors: seq<RawError>)
    ensures IsAccessKeyInvalid(New(s, errors)) <==>
      exists i :: 0 <= i < |errors| && errors[i].code == ErrorRequestNotAllowed
  {
  }

  /** The raw errors come back exactly as given, in order. */
  lemma RawErrorsAreKept(s: string, errors: seq<RawError>)
    ensures GetRawErrors(New(s, errors)) == errors
  {
  }

  /** The error string is empty exactly when no error was reported, whatever the status. */
  lemma ErrorsAsStringEmptyIff(s: string, errors: seq<RawError>)
    ensures GetErrorsAsString(New(s, errors)) == "" <==> errors == []
  {
  }

  /**
   * The error string lists every error as "(#code) description", in order,
   * joined by "; ".
   */
  lemma ErrorsAsStringLayout(s: string, errors: seq<RawError>, i: nat)
    requires i < |errors|
    ensures GetErrorsAsString(New(s, errors)) ==
      (if i == 0 then "" else ErrorString(errors[..i]) + "; ")
      + FormatError(errors[i])
      + (if i == |errors| - 1 then "" else "; " + ErrorString(errors[i + 1..]))
  {
    ErrorStringAt(errors, i);
  }

  /**
   * The rendering of an access-key rejection carrying three errors: the text
   * "(#2) Request not allowed (incorrect access_key); (#9) no (correct)
   * recipients found; (#10) originator is invalid".
   */
  lemma ErrorsAsStringExample()
    ensures GetErrorsAsString(New(StatusNotSent, [
        RawError(2, "Request not allowed (incorrect access_key)", "access_key"),
        RawError(9, "no (correct) recipients found", "recipients"),
        RawError(10, "originator is invalid", "originator")]))
      == "(#2) " + "Request not allowed (incorrect access_key)"
       + "; " + "(#9) " + "no (correct) recipients found"
       + "; " + "(#10) " + "originator is invalid"
  {
    var e2 := RawError(2, "Request not allowed (incorrect access_key)", "access_key");
    var e9 := RawError(9, "no (correct) recipients found", "recipients");
    var e10 := RawError(10, "originator is invalid", "originator");
    ErrorStringOfThree(e2, e9, e10);
    assert IntToDecimal(2) == "2" by { assert DigitChar(2) == '2'; }
    assert IntToDecimal(9) == "9" by { assert DigitChar(9) == '9'; }
    assert IntToDecimal(10) == "10" by {
      assert DigitChar(1) == '1' && DigitChar(0) == '0';
      assert NatToDecimal(10) == NatToDecimal(1) + [DigitChar(0)];
    }
    assert "(#" + IntToDecimal(2) + ") " == "(#2) ";
    assert "(#" + IntToDecimal(9) + ") " == "(#9) ";
    assert "(#" + IntToDecimal(10) + ") " == "(#10) ";
  }
}
