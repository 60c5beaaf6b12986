/** The second `validateSTKPushRequest`, defined in
    src/mpesa/stk/validation/validator.cpp: the same kind of chain, in a
    different order, with looser phone and URL rules, a format check on
    PartyB instead of the equality, and no password or timestamp checks. */
module ValidatorAlt {
  import opened CppStd
  import opened Request
  import opened Patterns
  import Validator

  const ShortCodeMessage := "Invalid BusinessShortCode format - must be 5-6 digits"
  const AmountMessage := "Invalid amount format - must be positive integer"
  const PartyAMessage := "Invalid PartyA phone number - must be format: 254XXXXXXXXX"
  const PhoneMessage := "Invalid phone number - must be format: 254XXXXXXXXX"
  const PartyBMessage := "Invalid PartyB format - must match BusinessShortCode format"
  const UrlMessage := "Invalid callback URL format"
  const AccountReferenceMessage := "AccountReference exceeds maximum length of 12 characters"
  const TransactionDescMessage := "TransactionDesc exceeds maximum length of 13 characters"

  /** `validateSTKPushRequest(request)` of the source file. */
  function ValidateSTKPushRequest(r: STKPushRequest): Validator.ValidationResult
  {
    if !IsShortCode(r.businessShortCode) then Validator.Failure(ShortCodeMessage)
    else if !IsPositiveAmount(r.amount) then Validator.Failure(AmountMessage)
    else if !IsKenyanPhone(r.partyA) then Validator.Failure(PartyAMessage)
    else if !IsKenyanPhone(r.phoneNumber) then Validator.Failure(PhoneMessage)
    else if !IsShortCode(r.partyB) then Validator.Failure(PartyBMessage)
    else if !IsHttpCallbackUrl(r.callBackURL) then Validator.Failure(UrlMessage)
    else if !ValidAccountReferenceLength(r.accountReference) then Validator.Failure(AccountReferenceMessage)
    else if !ValidTransactionDescLength(r.transactionDesc) then Validator.Failure(TransactionDescMessage)
    else Validator.Success()
  }

  /** The eight requirements, in the order they are checked. */
  function Requirements(r: STKPushRequest): seq<Validator.Check>
  {
    [ Validator.Check(IsShortCode(r.businessShortCode), ShortCodeMessage),
      Validator.Check(IsPositiveAmount(r.amount), AmountMessage),
      Validator.Check(IsKenyanPhone(r.partyA), PartyAMessage),
      Validator.Check(IsKenyanPhone(r.phoneNumber), PhoneMessage),
      Validator.Check(IsShortCode(r.partyB), PartyBMessage),
      Validator.Check(IsHttpCallbackUrl(r.callBackURL), UrlMessage),
      Validator.Check(ValidAccountReferenceLength(r.accountReference), AccountReferenceMessage),
      Validator.Check(ValidTransactionDescLength(r.transactionDesc), TransactionDescMessage) ]
  }

  /** This validator is the ordered chain of its eight requirements. */
  lemma ValidateIsChain(r: STKPushRequest)
    ensures ValidateSTKPushRequest(r) == Validator.FirstFailure(Requirements(r))
  {
    var c := Requirements(r);
    assert c[0..] == c && c[8..] == [];
    Validator.FirstFailureAt(c, 0);
    Validator.FirstFailureAt(c, 1);
    Validator.FirstFailureAt(c, 2);
    Validator.FirstFailureAt(c, 3);
    Validator.FirstFailureAt(c, 4);
    Validator.FirstFailureAt(c, 5);
    Validator.FirstFailureAt(c, 6);
    Validator.FirstFailureAt(c, 7);
  }

  /** A request is accepted iff it meets all eight requirements; a refusal
      carries the message of the first requirement it misses, never empty. */
  lemma ValidateAcceptsExactly(r: STKPushRequest)
    ensures ValidateSTKPushRequest(r).isValid <==>
      && IsShortCode(r.businessShortCode)
      && IsPositiveAmount(r.amount)
      && IsKenyanPhone(r.partyA)
      && IsKenyanPhone(r.phoneNumber)
      && IsShortCode(r.partyB)
      && IsHttpCallbackUrl(r.callBackURL)
      && ValidAccountReferenceLength(r.accountReference)
      && ValidTransactionDescLength(r.transactionDesc)
    ensures ValidateSTKPushRequest(r).isValid ==> ValidateSTKPushRequest(r).error == []
    ensures !ValidateSTKPushRequest(r).isValid ==>
      exists k :: 0 <= k < |Requirements(r)| && !Requirements(r)[k].passes
                  && ValidateSTKPushRequest(r).error == Requirements(r)[k].message
                  && forall j :: 0 <= j < k ==> Requirements(r)[j].passes
    ensures !ValidateSTKPushRequest(r).isValid ==> |ValidateSTKPushRequest(r).error| > 0
  {
    ValidateIsChain(r);
    Validator.FirstFailureSpec(Requirements(r));
  }

  /** Password and timestamp are never looked at. */
  lemma IgnoresPasswordAndTimestamp(r: STKPushRequest, password: string, timestamp: string)
    ensures ValidateSTKPushRequest(r.(password := password, timestamp := timestamp)) == ValidateSTKPushRequest(r)
  {
  }

  /** PartyB only has to look like a short code; it need not equal the
      request's own short code. */
  lemma PartyBNeedNotMatch(r: STKPushRequest, other: string)
    requires ValidateSTKPushRequest(r).isValid && IsShortCode(other)
    ensures ValidateSTKPushRequest(r.(partyB := other)).isValid
  {
    ValidateAcceptsExactly(r);
    ValidateAcceptsExactly(r.(partyB := other));
  }

  /** Whatever the header validator accepts, this one accepts too, except
      that it may refuse the callback URL (a plain-http scheme is the only
      thing it adds; a top-level domain over six letters is refused). */
  lemma HeaderAcceptedIsAcceptedHereUpToUrl(r: STKPushRequest)
    requires Validator.ValidateSTKPushRequest(r).isValid
    ensures ValidateSTKPushRequest(r).isValid || ValidateSTKPushRequest(r).error == UrlMessage
  {
    Validator.ValidateAcceptsExactly(r);
    SafaricomPhoneIsKenyan(r.partyA);
    SafaricomPhoneIsKenyan(r.phoneNumber);
  }

  /** A `2541…` phone number passes here and is refused by the header validator. */
  lemma PhoneRulesDiffer()
    ensures IsKenyanPhone("254112345678") && !IsSafaricomPhone("254112345678")
  {
    var p := "254112345678";
    assert p[..3] == "254" && p[3] == '1';
    assert AllDigits(p[3..]);
    SafaricomPhoneIsKenyan(p);
  }

  /** Every phone that `formatPhoneNumber` produces passes this validator's phone check. */
  lemma FormattedPhonePasses(p: string)
    requires IsNormalizedPhone(p)
    ensures IsKenyanPhone(p)
  {
    assert p[..3] == "254";
  }
}
