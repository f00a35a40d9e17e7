/**
 * The error records of a MessageBird response and their rendering as text:
 * each error becomes "(#code) description" (a `sprintf('(#%d) %s', ...)`), and
 * a list of them is joined with "; ". Both SendMessageResult and
 * ApiRuntimeException render errors this way.
 */
module ApiErrors {
  import opened Wrappers

  /** One entry of the `errors` array of a response: keys code, description, parameter. */
  datatype RawError = RawError(code: int, description: string, parameter: string)

  // ---------------------------------------------------------------------------
  // Decimal rendering of integers (the `%d` conversion) and its inverse
  // ---------------------------------------------------------------------------

  predicate IsDigit(c: char) {
    '0' <= c <= '9'
  }

  predicate AllDigits(s: string) {
    forall i :: 0 <= i < |s| ==> IsDigit(s[i])
  }

  function DigitValue(c: char): (d: nat)
    requires IsDigit(c)
    ensures d < 10
  {
    c as int - '0' as int
  }

  function DigitChar(d: nat): (c: char)
    requires d < 10
    ensures IsDigit(c) && DigitValue(c) == d
  {
    ('0' as int + d) as char
  }

  /** The shortest decimal numeral of `n`: at least one digit, no leading zero. */
  function NatToDecimal(n: nat): (s: string)
    ensures |s| > 0 && AllDigits(s)
    ensures s[0] == '0' <==> n == 0
    ensures n == 0 ==> s == "0"
    decreases n
  {
    if n < 10 then [DigitChar(n)] else NatToDecimal(n / 10) + [DigitChar(n % 10)]
  }

  /** The value of a run of decimal digits, most significant first. */
  function DecimalValue(s: string): nat
    requires AllDigits(s)
    decreases |s|
  {
    if s == [] then 0 else DecimalValue(s[..|s| - 1]) * 10 + DigitValue(s[|s| - 1])
  }

  /** `sprintf('%d', n)`: an optional minus sign followed by the numeral of |n|. */
  function IntToDecimal(n: int): (s: string)
    ensures |s| > 0
    ensures s[0] == '-' <==> n < 0
    ensures forall i :: 0 <= i < |s| ==> IsDigit(s[i]) || (i == 0 && s[i] == '-')
  {
    if n < 0 then "-" + NatToDecimal(-n) else NatToDecimal(n)
  }

  /** Reads back an optionally signed decimal numeral. */
  function ParseDecimal(s: string): Option<int> {
    if |s| > 1 && s[0] == '-' && AllDigits(s[1..]) then Some(-(DecimalValue(s[1..]) as int))
    else if |s| > 0 && AllDigits(s) then Some(DecimalValue(s))
    else None
  }

  lemma {:induction false} DecimalValueOfNumeral(n: nat)
    ensures DecimalValue(NatToDecimal(n)) == n
  {
    if n >= 10 {
      DecimalValueOfNumeral(n / 10);
      var s := NatToDecimal(n);
      assert s[..|s| - 1] == NatToDecimal(n / 10);
    }
  }

  /** The numeral `%d` prints reads back as the number printed. */
  lemma DecimalRoundTrip(n: int)
    ensures ParseDecimal(IntToDecimal(n)) == Some(n)
  {
    if n < 0 {
      DecimalValueOfNumeral(-n);
      assert IntToDecimal(n)[1..] == NatToDecimal(-n);
    } else {
      DecimalValueOfNumeral(n);
    }
  }

  // ---------------------------------------------------------------------------
  // One error: "(#code) description"
  // ---------------------------------------------------------------------------

  /** `sprintf('(#%d) %s', $error['code'], $error['description'])`. */
  function FormatError(e: RawError): string {
    "(#" + IntToDecimal(e.code) + ") " + e.description
  }

  /** The first position at or after `from` holding `c`, if any. */
  function IndexOf(s: string, c: char, from: nat): (r: Option<nat>)
    requires from <= |s|
    ensures r.Some? ==> from <= r.value < |s| && s[r.value] == c
    ensures r.Some? ==> forall k :: from <= k < r.value ==> s[k] != c
    ensures r.None? ==> forall k :: from <= k < |s| ==> s[k] != c
    decreases |s| - from
  {
    if from == |s| then None
    else if s[from] == c then Some(from)
    else IndexOf(s, c, from + 1)
  }

  /**
   * Reads a rendered error back into its code and description: "(#", a
   * numeral up to the first ')', one space, and the description.
   */
  function ParseFormattedError(s: string): Option<(int, string)> {
    if |s| < 2 || s[..2] != "(#" then None
    else match IndexOf(s, ')', 2)
      case None => None
      case Some(j) =>
        if j + 1 < |s| && s[j + 1] == ' ' then
          match ParseDecimal(s[2..j])
          case None => None
          case Some(code) => Some((code, s[j + 2..]))
        else None
  }

  /** Rendering an error loses nothing but its `parameter`. */
  lemma FormatErrorRoundTrip(e: RawError)
    ensures ParseFormattedError(FormatError(e)) == Some((e.code, e.description))
  {
    var d := IntToDecimal(e.code);
    var s := FormatError(e);
    var j := 2 + |d|;
    assert s[..2] == "(#";
    assert s[2..j] == d;
    assert s[j] == ')' && s[j + 1] == ' ';
    assert forall k :: 2 <= k < j ==> s[k] == d[k - 2];
    assert IndexOf(s, ')', 2) == Some(j);
    DecimalRoundTrip(e.code);
    assert s[j + 2..] == e.description;
  }

  // ---------------------------------------------------------------------------
  // A list of errors: `join('; ', array_map(...))`
  // ---------------------------------------------------------------------------

  /** PHP's `join(sep, parts)`: the parts in order, with `sep` between neighbours. */
  function Join(parts: seq<string>, sep: string): string
    decreases |parts|
  {
    if |parts| == 0 then ""
    else if |parts| == 1 then parts[0]
    else parts[0] + sep + Join(parts[1..], sep)
  }

  /** Joining two non-empty lists is joining each and putting one separator between. */
  lemma {:induction false} JoinAppend(a: seq<string>, b: seq<string>, sep: string)
    requires |a| > 0 && |b| > 0
    ensures Join(a + b, sep) == Join(a, sep) + sep + Join(b, sep)
    decreases |a|
  {
    if |a| == 1 {
      assert (a + b)[1..] == b;
    } else {
      assert (a + b)[1..] == a[1..] + b;
      JoinAppend(a[1..], b, sep);
    }
  }

  /** `array_map` of the rendering over the errors. */
  function FormattedErrors(errors: seq<RawError>): seq<string> {
    seq(|errors|, i requires 0 <= i < |errors| => FormatError(errors[i]))
  }

  /** The errors as one string, e.g. "(#9) no (correct) recipients found; (#10) originator is invalid". */
  function ErrorString(errors: seq<RawError>): (s: string)
    ensures s == "" <==> errors == []
  {
    Join(FormattedErrors(errors), "; ")
  }

  /** The rendering is compositional: the errors of `a + b` are those of `a`, "; ", those of `b`. */
  lemma ErrorStringAppend(a: seq<RawError>, b: seq<RawError>)
    requires a != [] && b != []
    ensures ErrorString(a + b) == ErrorString(a) + "; " + ErrorString(b)
  {
    assert FormattedErrors(a + b) == FormattedErrors(a) + FormattedErrors(b);
    JoinAppend(FormattedErrors(a), FormattedErrors(b), "; ");
  }

  /**
   * Every error appears in the rendering, in list order: the errors before it,
   * a separator, its own "(#code) description", a separator, the errors after it.
   */
  lemma ErrorStringAt(errors: seq<RawError>, i: nat)
    requires i < |errors|
    ensures ErrorString(errors) ==
      (if i == 0 then "" else ErrorString(errors[..i]) + "; ")
      + FormatError(errors[i])
      + (if i == |errors| - 1 then "" else "; " + ErrorString(errors[i + 1..]))
  {
    var single := [errors[i]];
    ErrorStringSingle(errors[i]);
    var before, after := errors[..i], errors[i + 1..];
    if i == 0 && after == [] {
      assert errors == single;
    } else if i == 0 {
      assert errors == single + after;
      ErrorStringAppend(single, after);
    } else if after == [] {
      assert errors == before + single;
      ErrorStringAppend(before, single);
    } else {
      assert errors == before + (single + after);
      ErrorStringAppend(single, after);
      ErrorStringAppend(before, single + after);
    }
  }

  lemma ErrorStringSingle(e: RawError)
    ensures ErrorString([e]) == FormatError(e)
  {
  }

  /** Three errors render as three "(#code) description" parts with two separators. */
  lemma ErrorStringOfThree(a: RawError, b: RawError, c: RawError)
    ensures ErrorString([a, b, c]) == FormatError(a) + "; " + FormatError(b) + "; " + FormatError(c)
  {
    ErrorStringSingle(a);
    ErrorStringSingle(b);
    ErrorStringSingle(c);
    ErrorStringAppend([b], [c]);
    assert [a, b, c] == [a] + ([b] + [c]);
    ErrorStringAppend([a], [b] + [c]);
  }
}
