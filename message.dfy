/**
 * An outbound SMS: a validated recipient telephone number and a free-form body.
 * Construction checks the recipient against `~^\d+$~`; a Message is never
 * changed afterwards, so it is a value.
 */
module Messages {
  import opened Wrappers
  import ApiErrors

  /** The exception construction throws, with its message text. */
  datatype DomainException = DomainException(message: string)

  /**
   * The recipient is the country code, area code and subscriber number as
   * digits (e.g. "31612345678"); the body is any text.
   */
  datatype Message = Message(recipient: string, body: string)

  const RecipientFormatError: string := "Message recipient must consist of digits only."

  /** One or more ASCII digits (PCRE's `\d` without Unicode properties). */
  predicate IsDigitRun(s: string) {
    |s| > 0 && ApiErrors.AllDigits(s)
  }

  /**
   * What `preg_match('~^\d+$~', s)` accepts. PCRE's `$` without the D
   * modifier matches at the end of the subject and also just before a final
   * newline, so a digit run followed by one "\n" passes as well.
   */
  predicate MatchesRecipientPattern(s: string) {
    IsDigitRun(s) || (|s| > 1 && s[|s| - 1] == '\n' && IsDigitRun(s[..|s| - 1]))
  }

  /** The language of the pattern, stated as the two shapes it admits. */
  ghost predicate InRecipientLanguage(s: string) {
    exists d :: IsDigitRun(d) && (s == d || s == d + "\n")
  }

  lemma RecipientPatternLanguage(s: string)
    ensures MatchesRecipientPattern(s) <==> InRecipientLanguage(s)
  {
  }

  /** The constructor: the recipient is checked, the body is taken as it is. */
  function New(recipient: string, body: string): (r: Result<Message, DomainException>)
    ensures r.Success? <==> MatchesRecipientPattern(recipient)
    ensures r.Failure? ==> r.error.message == RecipientFormatError
  {
    if !MatchesRecipientPattern(recipient) then Failure(DomainException(RecipientFormatError))
    else Success(Message(recipient, body))
  }

  function GetRecipient(m: Message): string {
    m.recipient
  }

  function GetBody(m: Message): string {
    m.body
  }

  /** A constructed message gives back exactly the recipient and body it was built from. */
  lemma AccessorsReturnArguments(recipient: string, body: string)
    requires MatchesRecipientPattern(recipient)
    ensures New(recipient, body).Success?
    ensures GetRecipient(New(recipient, body).value) == recipient
    ensures GetBody(New(recipient, body).value) == body
  {
  }

  /** Every body is accepted, the empty one included: only the recipient decides. */
  lemma BodyIsUnconstrained(recipient: string, body1: string, body2: string)
    ensures New(recipient, body1).Success? == New(recipient, body2).Success?
    ensures New(recipient, "").Success? == MatchesRecipientPattern(recipient)
  {
  }

  /** Recipients the pattern accepts and rejects. */
  lemma RecipientExamples()
    ensures New("31612345678", "body").Success?
    ensures New("31612345678\n", "body").Success?
    ensures New("", "body") == Failure(DomainException(RecipientFormatError))
    ensures New("8d98ap", "body") == Failure(DomainException(RecipientFormatError))
    ensures New("123\n\n", "body").Failure?
    ensures New("\n", "body").Failure?
  {
    assert !IsDigitRun("8d98ap") by { assert "8d98ap"[1] == 'd'; }
    assert !IsDigitRun("8d98a") by { assert "8d98a"[1] == 'd'; }
    assert !IsDigitRun("123\n\n") by { assert "123\n\n"[4] == '\n'; }
    assert !IsDigitRun("123\n") by { assert "123\n"[3] == '\n'; }
    assert !IsDigitRun("\n") by { assert "\n"[0] == '\n'; }
    assert "31612345678\n"[..11] == "31612345678";
    assert "123\n\n"[..4] == "123\n";
  }
}
