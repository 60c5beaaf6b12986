/** `Validator::validateSTKPushRequest` as declared in the header: an ordered
    chain of field checks that stops at the first failure. */
module Validator {
  import opened CppStd
  import opened Request
  import opened Timestamp
  import opened Patterns

  /** `ValidationResult`: a verdict and, on failure, why. */
  datatype ValidationResult = ValidationResult(isValid: bool, error: string)

  /** `ValidationResult::success()`. */
  function Success(): (v: ValidationResult)
    ensures v.isValid && v.error == []
  {
    ValidationResult(true, [])
  }

  /** `ValidationResult::failure(message)`. */
  function Failure(message: string): (v: ValidationResult)
    ensures !v.isValid && v.error == message
  {
    ValidationResult(false, message)
  }

  /** One check of a chain: whether it passed, and the message it fails with. */
  datatype Check = Check(passes: bool, message: string)

  /** A chain of checks run in order: the first failing check decides. */
  function FirstFailure(checks: seq<Check>): ValidationResult
  {
    if |checks| == 0 then Success()
    else if !checks[0].passes then Failure(checks[0].message)
    else FirstFailure(checks[1..])
  }

  /** A chain succeeds iff every check passes; otherwise it reports the
      message of the earliest failing check. */
  lemma {:induction false} FirstFailureSpec(checks: seq<Check>)
    ensures FirstFailure(checks).isValid <==> forall k :: 0 <= k < |checks| ==> checks[k].passes
    ensures FirstFailure(checks).isValid ==> FirstFailure(checks).error == []
    ensures !FirstFailure(checks).isValid ==>
      exists k :: 0 <= k < |checks| && !checks[k].passes && FirstFailure(checks).error == checks[k].message
                  && forall j :: 0 <= j < k ==> checks[j].passes
  {
    if |checks| > 0 && checks[0].passes {
      FirstFailureSpec(checks[1..]);
      if !FirstFailure(checks).isValid {
        var k :| 0 <= k < |checks[1..]| && !checks[1..][k].passes && FirstFailure(checks[1..]).error == checks[1..][k].message
                 && forall j :: 0 <= j < k ==> checks[1..][j].passes;
        assert forall j :: 0 <= j < k + 1 ==> checks[j].passes by {
          forall j | 0 <= j < k + 1 ensures checks[j].passes {
            if j > 0 {
              assert checks[j] == checks[1..][j - 1];
            }
          }
        }
      }
    }
  }

  /** One step of a chain, from any position. */
  lemma FirstFailureAt(checks: seq<Check>, k: nat)
    requires k < |checks|
    ensures FirstFailure(checks[k..]) ==
      if !checks[k].passes then Failure(checks[k].message) else FirstFailure(checks[k + 1..])
  {
    assert checks[k..][1..] == checks[k + 1..];
  }

  const ShortCodeMessage := "Invalid BusinessShortCode format"
  const PasswordMessage := "Password cannot be empty"
  const TimestampMessage := "Invalid timestamp format"
  const PartyAMessage := "Invalid PartyA phone number format. Must be 12 digits starting with 2547"
  const PhoneMessage := "Invalid phone number format. Must be 12 digits starting with 2547"
  const PartyBMessage := "PartyB must match BusinessShortCode for PayBill transactions"
  const UrlMessage := "Invalid callback URL format. Must be HTTPS with valid domain"
  const AmountMessage := "Amount must be a positive number"
  const AccountReferenceMessage := "AccountReference must not be empty and cannot exceed 12 characters"
  const TransactionDescMessage := "TransactionDesc must not be empty and cannot exceed 13 characters"

  /** `validateSTKPushRequest(request)`. */
  function ValidateSTKPushRequest(r: STKPushRequest): ValidationResult
  {
    if !IsShortCode(r.businessShortCode) then Failure(ShortCodeMessage)
    else if |r.password| == 0 then Failure(PasswordMessage)
    else if !IsValid(r.timestamp) then Failure(TimestampMessage)
    else if !IsSafaricomPhone(r.partyA) then Failure(PartyAMessage)
    else if !IsSafaricomPhone(r.phoneNumber) then Failure(PhoneMessage)
    else if r.partyB != r.businessShortCode then Failure(PartyBMessage)
    else if !IsHttpsCallbackUrl(r.callBackURL) then Failure(UrlMessage)
    else if !IsPositiveAmount(r.amount) then Failure(AmountMessage)
    else if |r.accountReference| == 0 || |r.accountReference| > 12 then Failure(AccountReferenceMessage)
    else if |r.transactionDesc| == 0 || |r.transactionDesc| > 13 then Failure(TransactionDescMessage)
    else Success()
  }

  /** The ten requirements, in the order they are checked. */
  function Requirements(r: STKPushRequest): seq<Check>
  {
    [ Check(IsShortCode(r.businessShortCode), ShortCodeMessage),
      Check(|r.password| > 0, PasswordMessage),
      Check(IsValid(r.timestamp), TimestampMessage),
      Check(IsSafaricomPhone(r.partyA), PartyAMessage),
      Check(IsSafaricomPhone(r.phoneNumber), PhoneMessage),
      Check(r.partyB == r.businessShortCode, PartyBMessage),
      Check(IsHttpsCallbackUrl(r.callBackURL), UrlMessage),
      Check(IsPositiveAmount(r.amount), AmountMessage),
      Check(ValidAccountReferenceLength(r.accountReference), AccountReferenceMessage),
      Check(ValidTransactionDescLength(r.transactionDesc), TransactionDescMessage) ]
  }

  /** The validator is the ordered chain of the ten requirements. */
  lemma ValidateIsChain(r: STKPushRequest)
    ensures ValidateSTKPushRequest(r) == FirstFailure(Requirements(r))
  {
    var c := Requirements(r);
    ChainOfTen(c);
    assert c[0].passes == IsShortCode(r.businessShortCode) && c[1].passes == (|r.password| > 0);
    assert c[2].passes == IsValid(r.timestamp) && c[3].passes == IsSafaricomPhone(r.partyA);
    assert c[4].passes == IsSafaricomPhone(r.phoneNumber) && c[5].passes == (r.partyB == r.businessShortCode);
    assert c[6].passes == IsHttpsCallbackUrl(r.callBackURL) && c[7].passes == IsPositiveAmount(r.amount);
    assert c[8].passes == ValidAccountReferenceLength(r.accountReference);
    assert c[9].passes == ValidTransactionDescLength(r.transactionDesc);
  }

  /** A chain of ten checks, written out. */
  lemma ChainOfTen(c: seq<Check>)
    requires |c| == 10
    ensures FirstFailure(c) ==
      if !c[0].passes then Failure(c[0].message)
      else if !c[1].passes then Failure(c[1].message)
      else if !c[2].passes then Failure(c[2].message)
      else if !c[3].passes then Failure(c[3].message)
      else if !c[4].passes then Failure(c[4].message)
      else if !c[5].passes then Failure(c[5].message)
      else if !c[6].passes then Failure(c[6].message)
      else if !c[7].passes then Failure(c[7].message)
      else if !c[8].passes then Failure(c[8].message)
      else if !c[9].passes then Failure(c[9].message)
      else Success()
  {
    assert c[0..] == c && c[10..] == [];
    FirstFailureAt(c, 0);
    FirstFailureAt(c, 1);
    FirstFailureAt(c, 2);
    FirstFailureAt(c, 3);
    FirstFailureAt(c, 4);
    FirstFailureAt(c, 5);
    FirstFailureAt(c, 6);
    FirstFailureAt(c, 7);
    FirstFailureAt(c, 8);
    FirstFailureAt(c, 9);
  }

  /** A request is accepted, with an empty error, iff it meets all ten
      requirements; a refusal always carries one of the ten messages, that of
      the first requirement the request misses. */
  lemma ValidateAcceptsExactly(r: STKPushRequest)
    ensures ValidateSTKPushRequest(r).isValid <==>
      && IsShortCode(r.businessShortCode)
      && |r.password| > 0
      && IsValid(r.timestamp)
      && IsSafaricomPhone(r.partyA)
      && IsSafaricomPhone(r.phoneNumber)
      && r.partyB == r.businessShortCode
      && IsHttpsCallbackUrl(r.callBackURL)
      && IsPositiveAmount(r.amount)
      && ValidAccountReferenceLength(r.accountReference)
      && ValidTransactionDescLength(r.transactionDesc)
    ensures ValidateSTKPushRequest(r).isValid ==> ValidateSTKPushRequest(r).error == []
    ensures !ValidateSTKPushRequest(r).isValid ==>
      exists k :: 0 <= k < |Requirements(r)| && !Requirements(r)[k].passes
                  && ValidateSTKPushRequest(r).error == Requirements(r)[k].message
                  && forall j :: 0 <= j < k ==> Requirements(r)[j].passes
    ensures !ValidateSTKPushRequest(r).isValid ==> |ValidateSTKPushRequest(r).error| > 0
  {
    ValidateIsChain(r);
    FirstFailureSpec(Requirements(r));
  }

  /** The short code takes five or six digits: 174379 and 17437 pass, 1743790 does not. */
  lemma ShortCodeExamples()
    ensures IsShortCode("174379") && IsShortCode("17437") && !IsShortCode("1743790")
  {
  }

  /** PartyB has to repeat the short code whatever the transaction type:
      a request differing only in PartyB is refused with the PartyB message
      whenever the checks before it pass. */
  lemma PartyBMustEqualShortCode(r: STKPushRequest)
    requires IsShortCode(r.businessShortCode) && |r.password| > 0 && IsValid(r.timestamp)
    requires IsSafaricomPhone(r.partyA) && IsSafaricomPhone(r.phoneNumber)
    requires r.partyB != r.businessShortCode
    ensures ValidateSTKPushRequest(r) == Failure(PartyBMessage)
  {
  }

  /** A phone that `formatPhoneNumber` produces passes the phone check
      exactly when its fourth digit is 7. */
  lemma FormattedPhoneCheck(p: string)
    requires IsNormalizedPhone(p)
    ensures IsSafaricomPhone(p) <==> p[3] == '7'
  {
    assert p[..3] == "254";
    SafaricomPhoneIsKenyan(p);
  }

  /** A URL of the usual shape, "https://" then a host label, a dot, a
      top-level domain, a slash and a path (such as
      "https://example.com/callback"), is a valid callback URL. */
  lemma CallbackUrlAccepted(host: string, tld: string, path: string)
    requires IsLabel(host) && IsTld(tld, None) && AllPathChars(path)
    ensures IsHttpsCallbackUrl("https://" + host + "." + tld + "/" + path)
  {
    var u := "https://" + host + "." + tld + "/" + path;
    var labels := [host];
    assert labels[1..] == [];
    assert DottedLabels(labels) == host + ".";
    assert u == "https://" + HostPath(labels, tld, path);
    assert WellFormedParts(labels, tld, path, None);
    HttpsUrlLanguage(u);
  }

  /** A callback URL with no slash after "https://" (such as
      "https://example.com") is refused: a request that passes the six
      earlier checks fails with the URL message. */
  lemma CallbackUrlNeedsPath(r: STKPushRequest)
    requires IsShortCode(r.businessShortCode) && |r.password| > 0 && IsValid(r.timestamp)
    requires IsSafaricomPhone(r.partyA) && IsSafaricomPhone(r.phoneNumber)
    requires r.partyB == r.businessShortCode
    requires |r.callBackURL| >= 8 && r.callBackURL[..8] == "https://"
    requires forall k :: 8 <= k < |r.callBackURL| ==> r.callBackURL[k] != '/'
    ensures !IsHttpsCallbackUrl(r.callBackURL)
    ensures ValidateSTKPushRequest(r) == Failure(UrlMessage)
  {
    UrlWithoutPathFails(r.callBackURL);
  }

  /** Every field the validator constrains to a pattern is seven-bit text:
      the short code, PartyB (equal to it), the timestamp, both phone
      numbers, the callback URL and the amount. */
  lemma ValidatedFieldsAscii(r: STKPushRequest)
    requires ValidateSTKPushRequest(r).isValid
    ensures IsAscii(r.businessShortCode) && IsAscii(r.partyB) && IsAscii(r.timestamp)
    ensures IsAscii(r.partyA) && IsAscii(r.phoneNumber)
    ensures IsAscii(r.callBackURL) && IsAscii(r.amount)
  {
    ValidateAcceptsExactly(r);
    assert IsAscii(r.businessShortCode) && IsAscii(r.partyB) by {
      DigitsAreAscii(r.businessShortCode);
    }
    assert IsAscii(r.timestamp) by {
      DigitsAreAscii(r.timestamp);
    }
    assert IsAscii(r.partyA) && IsAscii(r.phoneNumber) by {
      SafaricomPhoneAscii(r.partyA);
      SafaricomPhoneAscii(r.phoneNumber);
    }
    assert IsAscii(r.callBackURL) by {
      HttpsUrlAscii(r.callBackURL);
    }
    assert IsAscii(r.amount) by {
      PositiveAmountAscii(r.amount);
    }
  }
}
