/** The STK Push request (include/mpesa/stk/request.hpp): its fields, the
    transaction type, phone-number normalisation, the length checks and the
    serialisation to the API's field names. */
module Request {
  import opened CppStd
  import opened Json

  datatype TransactionType = CustomerPayBillOnline | CustomerBuyGoodsOnline

  /** `transactionTypeToString`: the API's name of each type. */
  function TransactionTypeToString(t: TransactionType): (r: string)
    ensures t == CustomerPayBillOnline <==> r == "CustomerPayBillOnline"
    ensures t == CustomerBuyGoodsOnline <==> r == "CustomerBuyGoodsOnline"
  {
    match t
    case CustomerPayBillOnline => "CustomerPayBillOnline"
    case CustomerBuyGoodsOnline => "CustomerBuyGoodsOnline"
  }

  // ---------------------------------------------------------------- phone numbers

  /** The digits of `s`, in order: what erase(remove_if(!isdigit)) leaves. */
  function DigitsOf(s: string): (d: string)
    ensures AllDigits(d) && |d| <= |s|
  {
    if |s| == 0 then []
    else if IsDigit(s[|s| - 1]) then DigitsOf(s[..|s| - 1]) + [s[|s| - 1]]
    else DigitsOf(s[..|s| - 1])
  }

  /** A string of digits is its own digit subsequence. */
  lemma {:induction false} DigitsOfDigits(s: string)
    requires AllDigits(s)
    ensures DigitsOf(s) == s
  {
    if |s| > 0 {
      DigitsOfDigits(s[..|s| - 1]);
      assert s[..|s| - 1] + [s[|s| - 1]] == s;
    }
  }

  /** The erase/remove_if pass over the local copy, one character at a time. */
  method RemoveNonDigits(phone: string) returns (formatted: string)
    ensures formatted == DigitsOf(phone)
  {
    formatted := [];
    var i := 0;
    while i < |phone|
      invariant 0 <= i <= |phone|
      invariant formatted == DigitsOf(phone[..i])
    {
      assert phone[..i + 1][..i] == phone[..i];
      if IsDigit(phone[i]) {
        formatted := formatted + [phone[i]];
      }
      i := i + 1;
    }
    assert phone[..i] == phone;
  }

  const InvalidPhoneFormat: string := "Invalid phone number format. Expected format: 254XXXXXXXXX"
  const InvalidPhoneLength: string := "Invalid phone number length. Must be 12 digits in format 254XXXXXXXXX"

  /** The prefix handling and final length check, applied to the digits. */
  function NormalizeDigits(d: string): (r: Outcome<string>)
    requires AllDigits(d)
  {
    var prefixed :=
      if IsPrefix("254", d) then Returns(d)
      else if IsPrefix("0", d) then Returns("254" + d[1..])
      else if |d| == 9 then Returns("254" + d)
      else Throws(RuntimeError(InvalidPhoneFormat));
    if prefixed.Throws? then prefixed
    else if |prefixed.value| != 12 then Throws(RuntimeError(InvalidPhoneLength))
    else prefixed
  }

  /** A normalised phone number: 12 ASCII digits beginning with 254. */
  predicate IsNormalizedPhone(p: string)
  {
    |p| == 12 && AllDigits(p) && IsPrefix("254", p)
  }

  /** `formatPhoneNumber`: strips every non-digit, then normalises the prefix. */
  method FormatPhoneNumber(phone: string) returns (r: Outcome<string>)
    ensures r == NormalizeDigits(DigitsOf(phone))
    ensures r.Returns? ==> IsNormalizedPhone(r.value)
    ensures r.Throws? ==> r.error.RuntimeError?
  {
    var formatted := RemoveNonDigits(phone);
    if IsPrefix("254", formatted) {
      // already in international form
    } else if IsPrefix("0", formatted) {
      formatted := "254" + formatted[1..];
    } else if |formatted| == 9 {
      formatted := "254" + formatted;
    } else {
      return Throws(RuntimeError(InvalidPhoneFormat));
    }
    if |formatted| != 12 {
      return Throws(RuntimeError(InvalidPhoneLength));
    }
    r := Returns(formatted);
    NormalizedShape(DigitsOf(phone));
  }

  /** Which digit strings are accepted, and what each becomes: a 254 prefix is
      kept, a leading 0 becomes 254, nine bare digits get 254 in front; the
      result is always 12 digits starting with 254; anything else throws. */
  lemma NormalizedShape(d: string)
    requires AllDigits(d)
    ensures NormalizeDigits(d).Returns? <==>
      (IsPrefix("254", d) && |d| == 12)
      || (!IsPrefix("254", d) && IsPrefix("0", d) && |d| == 10)
      || (!IsPrefix("254", d) && !IsPrefix("0", d) && |d| == 9)
    ensures NormalizeDigits(d).Returns? ==> IsNormalizedPhone(NormalizeDigits(d).value)
    ensures IsPrefix("254", d) && NormalizeDigits(d).Returns? ==> NormalizeDigits(d).value == d
    ensures !IsPrefix("254", d) && IsPrefix("0", d) && NormalizeDigits(d).Returns? ==>
      NormalizeDigits(d).value == "254" + d[1..]
    ensures !IsPrefix("254", d) && !IsPrefix("0", d) && NormalizeDigits(d).Returns? ==>
      NormalizeDigits(d).value == "254" + d
    ensures NormalizeDigits(d).Throws? ==> NormalizeDigits(d).error.What() in {InvalidPhoneFormat, InvalidPhoneLength}
  {
    var r := NormalizeDigits(d);
    if r.Returns? {
      var p := r.value;
      assert p[..3] == "254";
      forall i | 0 <= i < |p| ensures IsDigit(p[i]) {
        if !IsPrefix("254", d) && p == "254" + d[1..] && i >= 3 {
          assert p[i] == d[i - 2];
        } else if !IsPrefix("254", d) && p == "254" + d && i >= 3 {
          assert p[i] == d[i - 3];
        }
      }
    }
  }

  /** Normalising a normalised number changes nothing. */
  lemma FormatIdempotent(phone: string)
    requires NormalizeDigits(DigitsOf(phone)).Returns?
    ensures var q := NormalizeDigits(DigitsOf(phone)).value;
            NormalizeDigits(DigitsOf(q)) == Returns(q)
  {
    NormalizedShape(DigitsOf(phone));
    var q := NormalizeDigits(DigitsOf(phone)).value;
    DigitsOfDigits(q);
  }

  /** The documented examples: 0712345678 and +254712345678 both become
      254712345678. */
  lemma FormatExamples()
    ensures NormalizeDigits(DigitsOf("0712345678")) == Returns("254712345678")
    ensures NormalizeDigits(DigitsOf("+254712345678")) == Returns("254712345678")
  {
    DigitsOfDigits("0712345678");
    DigitsOfPrefix("+", "254712345678");
    assert "+" + "254712345678" == "+254712345678";
    assert "0712345678"[..3][0] == '0';
    assert "0712345678"[..1] == "0";
    assert "254" + "0712345678"[1..] == "254712345678";
    assert IsPrefix("254", "254712345678");
  }

  /** A seven-digit number is refused. */
  lemma FormatRejectsSevenDigits()
    ensures NormalizeDigits(DigitsOf("1234567")).Throws?
  {
    DigitsOfDigits("1234567");
    assert "1234567"[..3][0] == '1' && "1234567"[..1][0] == '1';
  }

  /** Non-digits in front do not reach the digit subsequence. */
  lemma {:induction false} DigitsOfPrefix(junk: string, s: string)
    requires forall i :: 0 <= i < |junk| ==> !IsDigit(junk[i])
    requires AllDigits(s)
    ensures DigitsOf(junk + s) == s
    decreases |s|
  {
    if |s| == 0 {
      assert junk + s == junk;
      NoDigits(junk);
    } else {
      assert (junk + s)[..|junk + s| - 1] == junk + s[..|s| - 1];
      DigitsOfPrefix(junk, s[..|s| - 1]);
      assert s[..|s| - 1] + [s[|s| - 1]] == s;
    }
  }

  lemma {:induction false} NoDigits(junk: string)
    requires forall i :: 0 <= i < |junk| ==> !IsDigit(junk[i])
    ensures DigitsOf(junk) == []
  {
    if |junk| > 0 {
      NoDigits(junk[..|junk| - 1]);
    }
  }

  // ---------------------------------------------------------------- lengths

  /** `validate_account_reference_length`. */
  predicate ValidAccountReferenceLength(reference: string)
  {
    |reference| > 0 && |reference| <= 12
  }

  /** `validate_transaction_desc_length`. */
  predicate ValidTransactionDescLength(desc: string)
  {
    |desc| > 0 && |desc| <= 13
  }

  // ---------------------------------------------------------------- the request

  datatype STKPushRequest = STKPushRequest(
    businessShortCode: string,
    password: string,
    timestamp: string,
    transactionType: TransactionType,
    amount: string,
    partyA: string,
    partyB: string,
    phoneNumber: string,
    callBackURL: string,
    accountReference: string,
    transactionDesc: string)

  /** The eleven API field names, in the order the library's object keeps them. */
  const ApiFieldNames: seq<string> := [
    "AccountReference", "Amount", "BusinessShortCode", "CallBackURL", "PartyA", "PartyB",
    "Password", "PhoneNumber", "Timestamp", "TransactionDesc", "TransactionType"]

  /** The value sent under each of the eleven names, position for position. */
  function ApiFieldValues(r: STKPushRequest): (vs: seq<string>)
    ensures |vs| == |ApiFieldNames|
  {
    [r.accountReference, r.amount, r.businessShortCode, r.callBackURL, r.partyA, r.partyB,
     r.password, r.phoneNumber, r.timestamp, r.transactionDesc, TransactionTypeToString(r.transactionType)]
  }

  /** `toJson`: the request as a JSON object under the API's field names. */
  function ToJson(r: STKPushRequest): (j: Json)
    ensures j.JObject? && Keys(j.members) == ApiFieldNames
  {
    var vs := ApiFieldValues(r);
    JObject(seq(|ApiFieldNames|, i requires 0 <= i < |ApiFieldNames| => Member(ApiFieldNames[i], JString(vs[i]))))
  }

  /** The eleven names are pairwise distinct, so each lookup finds its own member. */
  lemma ToJsonField(r: STKPushRequest, k: nat)
    requires k < |ApiFieldNames|
    ensures StringField(ToJson(r), ApiFieldNames[k]) == Returns(ApiFieldValues(r)[k])
  {
    var ms := ToJson(r).members;
    forall i | 0 <= i < k ensures ms[i].key != ApiFieldNames[k] {
      assert ms[i].key == ApiFieldNames[i];
      NamesDiffer(i, k);
    }
    FindFirst(ms, ApiFieldNames[k], k);
  }

  /** No two names share both their length and their last letter. */
  lemma NamesDiffer(i: nat, k: nat)
    requires i < k < |ApiFieldNames|
    ensures ApiFieldNames[i] != ApiFieldNames[k]
  {
    var a, b := ApiFieldNames[i], ApiFieldNames[k];
    assert |a| != |b| || a[|a| - 1] != b[|b| - 1];
  }

  /** `toJson` binds exactly the eleven API names, each to the matching field,
      with the transaction type spelled by TransactionTypeToString. */
  lemma ToJsonFields(r: STKPushRequest)
    ensures Keys(ToJson(r).members) == ApiFieldNames
    ensures forall k :: 0 <= k < |ApiFieldNames| ==> StringField(ToJson(r), ApiFieldNames[k]) == Returns(ApiFieldValues(r)[k])
    ensures StringField(ToJson(r), "TransactionType") == Returns(TransactionTypeToString(r.transactionType))
    ensures StringField(ToJson(r), "Timestamp") == Returns(r.timestamp)
    ensures StringField(ToJson(r), "Password") == Returns(r.password)
    ensures StringField(ToJson(r), "AccountReference") == Returns(r.accountReference)
    ensures StringField(ToJson(r), "Amount") == Returns(r.amount)
    ensures StringField(ToJson(r), "BusinessShortCode") == Returns(r.businessShortCode)
    ensures StringField(ToJson(r), "CallBackURL") == Returns(r.callBackURL)
    ensures StringField(ToJson(r), "PartyA") == Returns(r.partyA)
    ensures StringField(ToJson(r), "PartyB") == Returns(r.partyB)
    ensures StringField(ToJson(r), "PhoneNumber") == Returns(r.phoneNumber)
    ensures StringField(ToJson(r), "TransactionDesc") == Returns(r.transactionDesc)
  {
    forall k | 0 <= k < |ApiFieldNames|
      ensures StringField(ToJson(r), ApiFieldNames[k]) == Returns(ApiFieldValues(r)[k])
    {
      ToJsonField(r, k);
    }
    assert ApiFieldNames[10] == "TransactionType" && ApiFieldNames[8] == "Timestamp" && ApiFieldNames[6] == "Password";
    assert ApiFieldNames[0] == "AccountReference" && ApiFieldNames[1] == "Amount" && ApiFieldNames[2] == "BusinessShortCode";
    assert ApiFieldNames[3] == "CallBackURL" && ApiFieldNames[4] == "PartyA" && ApiFieldNames[5] == "PartyB";
    assert ApiFieldNames[7] == "PhoneNumber" && ApiFieldNames[9] == "TransactionDesc";
  }

  /** The API's field names are seven-bit text. */
  lemma ApiFieldNamesAscii()
    ensures forall k :: 0 <= k < |ApiFieldNames| ==> IsAscii(ApiFieldNames[k])
  {
    forall k | 0 <= k < |ApiFieldNames| ensures IsAscii(ApiFieldNames[k]) {
      LettersAreAscii(ApiFieldNames[k]);
    }
  }

  /** So are the transaction type names. */
  lemma TransactionTypeAscii(t: TransactionType)
    ensures IsAscii(TransactionTypeToString(t))
  {
    LettersAreAscii(TransactionTypeToString(t));
  }

  lemma LettersAreAscii(w: string)
    requires forall i :: 0 <= i < |w| ==> 'A' <= w[i] <= 'z'
    ensures IsAscii(w)
  {
  }

  lemma ToJsonMember(r: STKPushRequest, k: nat)
    requires k < |ApiFieldNames|
    ensures ToJson(r).members[k] == Member(ApiFieldNames[k], JString(ApiFieldValues(r)[k]))
  {
  }

  /** `toJson().dump()` of a request whose other fields are seven-bit
      text: it fails exactly when the account reference or the description
      is not UTF-8, and the account reference, written first, is the one
      reported when both are not. */
  lemma ToJsonDump(r: STKPushRequest)
    requires IsAscii(r.amount) && IsAscii(r.businessShortCode) && IsAscii(r.callBackURL)
    requires IsAscii(r.partyA) && IsAscii(r.partyB) && IsAscii(r.password)
    requires IsAscii(r.phoneNumber) && IsAscii(r.timestamp)
    ensures DumpCheck(ToJson(r)) ==
      if CheckUtf8(r.accountReference).Throws? then CheckUtf8(r.accountReference) else CheckUtf8(r.transactionDesc)
  {
    DumpFirstMember(r);
    DumpAfterFirstMember(r);
  }

  /** The dump starts with the account reference. */
  lemma DumpFirstMember(r: STKPushRequest)
    ensures DumpCheck(ToJson(r)) ==
      if CheckUtf8(r.accountReference).Throws? then CheckUtf8(r.accountReference) else DumpCheckMembers(ToJson(r).members[1..])
  {
    var ms := ToJson(r).members;
    assert ms[0..] == ms;
    ToJsonMember(r, 0);
    ApiFieldNamesAscii();
    DumpMemberStep(ms, 0);
  }

  /** After the account reference, only the description can fail. */
  lemma DumpAfterFirstMember(r: STKPushRequest)
    requires IsAscii(r.amount) && IsAscii(r.businessShortCode) && IsAscii(r.callBackURL)
    requires IsAscii(r.partyA) && IsAscii(r.partyB) && IsAscii(r.password)
    requires IsAscii(r.phoneNumber) && IsAscii(r.timestamp)
    ensures DumpCheckMembers(ToJson(r).members[1..]) == CheckUtf8(r.transactionDesc)
  {
    var ms := ToJson(r).members;
    ToJsonMember(r, 9);
    ApiFieldNamesAscii();
    DumpMemberStep(ms, 9);
    DumpSkipsFields(r);
  }

  /** The members between the account reference and the description, and
      the transaction type after it, are seven-bit text. */
  lemma DumpSkipsFields(r: STKPushRequest)
    requires IsAscii(r.amount) && IsAscii(r.businessShortCode) && IsAscii(r.callBackURL)
    requires IsAscii(r.partyA) && IsAscii(r.partyB) && IsAscii(r.password)
    requires IsAscii(r.phoneNumber) && IsAscii(r.timestamp)
    ensures DumpCheckMembers(ToJson(r).members[1..]) == DumpCheckMembers(ToJson(r).members[9..])
    ensures DumpCheckMembers(ToJson(r).members[10..]) == Returns(())
  {
    var ms := ToJson(r).members;
    var vs := ApiFieldValues(r);
    ApiFieldNamesAscii();
    TransactionTypeAscii(r.transactionType);
    forall k | 1 <= k < 11 && k != 9 ensures AsciiStringMember(ms[k]) {
      ToJsonMember(r, k);
      assert IsAscii(vs[k]);
    }
    DumpSkipsAscii(ms, 1, 9);
    DumpSkipsAscii(ms, 10, 11);
    assert ms[11..] == [];
  }
}
