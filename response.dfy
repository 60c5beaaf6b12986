/** The STK push response and callback records, with the typed lookups on
    callback metadata. */
module Response {
  import opened CppStd
  import opened Json
  import opened ErrorCodes

  /** The immediate answer to a push request. */
  datatype STKPushResponse = STKPushResponse(
    merchantRequestID: string,
    checkoutRequestID: string,
    responseCode: string,
    responseDescription: string,
    customerMessage: string)

  /** `std::variant<std::string, double, int64_t>`: exactly one of the three. */
  datatype MetadataValue = Text(s: string) | Real(d: Double) | Integer(i: int)

  /** `CallbackMetadataItem`. */
  datatype CallbackMetadataItem = CallbackMetadataItem(name: string, value: MetadataValue)

  /** The first item with the given name, if any. */
  function FindItem(items: seq<CallbackMetadataItem>, name: string): Option<MetadataValue>
  {
    if |items| == 0 then None
    else if items[0].name == name then Some(items[0].value)
    else FindItem(items[1..], name)
  }

  /** FindItem finds the value of the first item carrying the name, and
      nothing when no item carries it. */
  lemma {:induction false} FindItemFirst(items: seq<CallbackMetadataItem>, name: string, k: nat)
    requires k <= |items|
    requires forall j :: 0 <= j < k ==> items[j].name != name
    ensures k < |items| && items[k].name == name ==> FindItem(items, name) == Some(items[k].value)
    ensures k == |items| ==> FindItem(items, name) == None
  {
    if k > 0 {
      FindItemFirst(items[1..], name, k - 1);
    }
  }

  /** `STKCallback`: the result of a push, as delivered to the callback URL.
      The result code is whatever integer was delivered. */
  datatype STKCallback = STKCallback(
    merchantRequestID: string,
    checkoutRequestID: string,
    resultCode: STKPushErrorCode,
    resultDesc: string,
    callbackMetadata: Option<seq<CallbackMetadataItem>>)
  {
    /** `getMetadataValue(name)` before the type test: the value of the first
        item with that name, when there is metadata at all. */
    function MetadataValueNamed(name: string): (r: Option<MetadataValue>)
      ensures callbackMetadata.None? ==> r.None?
      ensures r.Some? ==> exists k :: 0 <= k < |callbackMetadata.value| &&
                            callbackMetadata.value[k].name == name && callbackMetadata.value[k].value == r.value
    {
      match callbackMetadata
      case None => None
      case Some(items) => FindItemWitness(items, name); FindItem(items, name)
    }

    /** `getMetadataValue<std::string>(name)`. */
    function GetText(name: string): (r: Option<string>)
      ensures r.Some? <==> MetadataValueNamed(name).Some? && MetadataValueNamed(name).value.Text?
      ensures r.Some? ==> MetadataValueNamed(name).value == Text(r.value)
    {
      match MetadataValueNamed(name)
      case Some(Text(s)) => Some(s)
      case _ => None
    }

    /** `getMetadataValue<double>(name)`. */
    function GetReal(name: string): (r: Option<Double>)
      ensures r.Some? <==> MetadataValueNamed(name).Some? && MetadataValueNamed(name).value.Real?
      ensures r.Some? ==> MetadataValueNamed(name).value == Real(r.value)
    {
      match MetadataValueNamed(name)
      case Some(Real(d)) => Some(d)
      case _ => None
    }

    /** `getMetadataValue<int64_t>(name)`. */
    function GetInteger(name: string): (r: Option<int>)
      ensures r.Some? <==> MetadataValueNamed(name).Some? && MetadataValueNamed(name).value.Integer?
      ensures r.Some? ==> MetadataValueNamed(name).value == Integer(r.value)
    {
      match MetadataValueNamed(name)
      case Some(Integer(i)) => Some(i)
      case _ => None
    }

    /** `getAmount()`. */
    function GetAmount(): Option<Double>
    {
      GetReal("Amount")
    }

    /** `getMpesaReceiptNumber()`. */
    function GetMpesaReceiptNumber(): Option<string>
    {
      GetText("MpesaReceiptNumber")
    }

    /** `getTransactionDate()`. */
    function GetTransactionDate(): Option<int>
    {
      GetInteger("TransactionDate")
    }

    /** `getPhoneNumber()`. */
    function GetPhoneNumber(): Option<string>
    {
      GetText("PhoneNumber")
    }
  }

  /** The witness for the first-match lookup. */
  lemma {:induction false} FindItemWitness(items: seq<CallbackMetadataItem>, name: string)
    ensures FindItem(items, name).Some? ==>
      exists k :: 0 <= k < |items| && items[k].name == name && items[k].value == FindItem(items, name).value
  {
    if |items| > 0 && items[0].name != name {
      FindItemWitness(items[1..], name);
      if FindItem(items, name).Some? {
        var k :| 0 <= k < |items[1..]| && items[1..][k].name == name && items[1..][k].value == FindItem(items, name).value;
        assert items[k + 1] == items[1..][k];
      }
    }
  }

  /** The accessors never fail: a missing item, absent metadata and a value
      of another type all read as empty. At most one typed lookup of a name
      yields a value. */
  lemma TypedLookupsExclusive(cb: STKCallback, name: string)
    ensures cb.callbackMetadata.None? ==> cb.GetText(name).None? && cb.GetReal(name).None? && cb.GetInteger(name).None?
    ensures !(cb.GetText(name).Some? && cb.GetReal(name).Some?)
    ensures !(cb.GetText(name).Some? && cb.GetInteger(name).Some?)
    ensures !(cb.GetReal(name).Some? && cb.GetInteger(name).Some?)
  {
  }

  /** The typed accessors read the items the API names: a receipt number
      delivered as text is found, and a phone number delivered as an integer
      (the API's usual form) reads as empty through the text accessor. */
  lemma AccessorExamples(receipt: string, phone: int, amount: Double)
    ensures var cb := STKCallback("m", "c", Success, "ok", Some([
      CallbackMetadataItem("Amount", Real(amount)),
      CallbackMetadataItem("MpesaReceiptNumber", Text(receipt)),
      CallbackMetadataItem("PhoneNumber", Integer(phone))]));
      cb.GetAmount() == Some(amount) && cb.GetMpesaReceiptNumber() == Some(receipt)
      && cb.GetPhoneNumber() == None && cb.GetTransactionDate() == None
  {
    var items := [
      CallbackMetadataItem("Amount", Real(amount)),
      CallbackMetadataItem("MpesaReceiptNumber", Text(receipt)),
      CallbackMetadataItem("PhoneNumber", Integer(phone))];
    FindItemFirst(items, "Amount", 0);
    FindItemFirst(items, "MpesaReceiptNumber", 1);
    FindItemFirst(items, "PhoneNumber", 2);
    FindItemFirst(items, "TransactionDate", 3);
  }
}
