/** `CallbackParser::parseCallback`: the callback body decoded into an
    `STKCallback`. The body arrives already parsed (or with the parser's
    error text), and the library's serialiser `dump()` is a parameter. */
module Callback {
  import opened CppStd
  import opened Json
  import opened ErrorCodes
  import opened Response

  const FailurePrefix := "Failed to parse callback: "

  /** The value typing of one metadata item, tried in order: a float is kept
      as a double, an integer as an int64, a string as itself, and anything
      else as its serialised JSON text. */
  function DecodeValue(v: Json, dump: Json -> string): (m: MetadataValue)
    ensures v.JFloat? ==> m == Real(v.d)
    ensures IsNumberInteger(v) ==> m == Integer(GetInt64(v))
    ensures v.JString? ==> m == Text(v.s)
    ensures !(v.JFloat? || IsNumberInteger(v) || v.JString?) ==> m == Text(dump(v))
  {
    if IsNumberFloat(v) then Real(v.d)
    else if IsNumberInteger(v) then Integer(GetInt64(v))
    else if v.JString? then Text(v.s)
    else Text(dump(v))
  }

  /** One item of the `Item` array, read through a const reference: its
      `Name` as a string and its `Value` typed by DecodeValue. */
  function DecodeItem(item: Json, dump: Json -> string): Outcome<CallbackMetadataItem>
  {
    var name :- IndexConst(item, "Name");
    var nameText :- GetString(name);
    var value :- IndexConst(item, "Value");
    Returns(CallbackMetadataItem(nameText, DecodeValue(value, dump)))
  }

  /** The items decoded in order; the first item that fails decides the error. */
  function DecodeItems(elements: seq<Json>, dump: Json -> string): Outcome<seq<CallbackMetadataItem>>
  {
    if |elements| == 0 then Returns([])
    else
      var init :- DecodeItems(elements[..|elements| - 1], dump);
      var last :- DecodeItem(elements[|elements| - 1], dump);
      Returns(init + [last])
  }

  /** `j[key].get<int>()` on a mutable value. */
  function IntField(j: Json, key: string): (r: Outcome<int>)
    ensures Contains(j, key) ==> r == GetInt(Find(j.members, key).value)
  {
    var v :- Index(j, key);
    GetInt(v)
  }

  /** The `Item` array of the metadata, when both keys are there. */
  predicate HasMetadata(cb: Json)
  {
    Contains(cb, "CallbackMetadata") && Contains(Find(cb.members, "CallbackMetadata").value, "Item")
  }

  function MetadataItems(cb: Json): Json
    requires HasMetadata(cb)
  {
    Find(Find(cb.members, "CallbackMetadata").value.members, "Item").value
  }

  /** The fixed path `Body.stkCallback`, the four scalar fields, then the
      metadata when `CallbackMetadata.Item` is present. */
  function CallbackFromJson(json: Json, dump: Json -> string): Outcome<STKCallback>
  {
    var body :- Index(json, "Body");
    var cb :- Index(body, "stkCallback");
    var merchant :- StringField(cb, "MerchantRequestID");
    var checkout :- StringField(cb, "CheckoutRequestID");
    var code :- IntField(cb, "ResultCode");
    var desc :- StringField(cb, "ResultDesc");
    if HasMetadata(cb) then
      var items :- DecodeItems(Elements(MetadataItems(cb)), dump);
      Returns(STKCallback(merchant, checkout, code as STKPushErrorCode, desc, Some(items)))
    else
      Returns(STKCallback(merchant, checkout, code as STKPushErrorCode, desc, None))
  }

  /** `parseCallback`: any exception, the parser's included, is rethrown as a
      runtime_error carrying the prefix and the original text. */
  function ParseCallbackSpec(body: Payload, dump: Json -> string): Outcome<STKCallback>
  {
    match body
    case Malformed(what) => Throws(RuntimeError(FailurePrefix + what))
    case Parsed(json) =>
      match CallbackFromJson(json, dump)
      case Returns(cb) => Returns(cb)
      case Throws(e) => Throws(RuntimeError(FailurePrefix + e.What()))
  }

  /** A failing item fails every longer list with the same error. */
  lemma {:induction false} DecodeItemsFailingPrefix(elements: seq<Json>, i: nat, dump: Json -> string)
    requires i < |elements|
    requires DecodeItems(elements[..i], dump).Returns?
    requires DecodeItem(elements[i], dump).Throws?
    ensures DecodeItems(elements, dump) == Throws(DecodeItem(elements[i], dump).error)
    decreases |elements|
  {
    if i + 1 == |elements| {
      assert elements[..|elements| - 1] == elements[..i];
    } else {
      var init := elements[..|elements| - 1];
      assert init[..i] == elements[..i] && init[i] == elements[i];
      DecodeItemsFailingPrefix(init, i, dump);
    }
  }

  /** The item loop: each element decoded and appended in turn. */
  method DecodeItemsLoop(elements: seq<Json>, dump: Json -> string) returns (r: Outcome<seq<CallbackMetadataItem>>)
    ensures r == DecodeItems(elements, dump)
  {
    var items: seq<CallbackMetadataItem> := [];
    var i := 0;
    while i < |elements|
      invariant 0 <= i <= |elements|
      invariant DecodeItems(elements[..i], dump) == Returns(items)
    {
      var item := DecodeItem(elements[i], dump);
      if item.Throws? {
        DecodeItemsFailingPrefix(elements, i, dump);
        return Throws(item.error);
      }
      assert elements[..i + 1][..i] == elements[..i];
      items := items + [item.value];
      i := i + 1;
    }
    assert elements[..i] == elements;
    return Returns(items);
  }

  /** `parseCallback(jsonStr)`. */
  method ParseCallback(body: Payload, dump: Json -> string) returns (r: Outcome<STKCallback>)
    ensures r == ParseCallbackSpec(body, dump)
  {
    if body.Malformed? {
      return Throws(RuntimeError(FailurePrefix + body.what));
    }
    var parsed := ParseFields(body.json, dump);
    if parsed.Throws? {
      return Throws(RuntimeError(FailurePrefix + parsed.error.What()));
    }
    return parsed;
  }

  /** The body of the try block, before exceptions are rewrapped. */
  method ParseFields(json: Json, dump: Json -> string) returns (r: Outcome<STKCallback>)
    ensures r == CallbackFromJson(json, dump)
  {
    var body :- Index(json, "Body");
    var cb :- Index(body, "stkCallback");
    var merchant :- StringField(cb, "MerchantRequestID");
    var checkout :- StringField(cb, "CheckoutRequestID");
    var code :- IntField(cb, "ResultCode");
    var desc :- StringField(cb, "ResultDesc");
    var metadata: Option<seq<CallbackMetadataItem>> := None;
    if HasMetadata(cb) {
      var items :- DecodeItemsLoop(Elements(MetadataItems(cb)), dump);
      metadata := Some(items);
    }
    return Returns(STKCallback(merchant, checkout, code as STKPushErrorCode, desc, metadata));
  }

  // ---------------------------------------------------------------- properties

  /** Decoding keeps the array's order and length, copies every name
      verbatim and types every value by DecodeValue. */
  lemma {:induction false} DecodeItemsShape(elements: seq<Json>, dump: Json -> string)
    requires DecodeItems(elements, dump).Returns?
    ensures |DecodeItems(elements, dump).value| == |elements|
    ensures forall k :: 0 <= k < |elements| ==> DecodeItem(elements[k], dump) == Returns(DecodeItems(elements, dump).value[k])
  {
    if |elements| > 0 {
      var init := elements[..|elements| - 1];
      DecodeItemsShape(init, dump);
      forall k | 0 <= k < |elements| - 1
        ensures DecodeItem(elements[k], dump) == Returns(DecodeItems(elements, dump).value[k])
      {
        assert elements[k] == init[k];
      }
    }
  }

  /** An item decodes exactly when it is an object with a string `Name` and
      some `Value`; the name is copied and the value typed by DecodeValue. */
  lemma DecodeItemSpec(item: Json, dump: Json -> string)
    ensures DecodeItem(item, dump).Returns? <==>
      Contains(item, "Name") && Find(item.members, "Name").value.JString? && Contains(item, "Value")
    ensures DecodeItem(item, dump).Returns? ==>
      DecodeItem(item, dump).value ==
        CallbackMetadataItem(Find(item.members, "Name").value.s, DecodeValue(Find(item.members, "Value").value, dump))
  {
  }

  /** The stkCallback object under Body, as the parser reads it (absent keys read as null). */
  function StkCallbackOf(json: Json): Outcome<Json>
  {
    var body :- Index(json, "Body");
    Index(body, "stkCallback")
  }

  /** A successful parse copies the three strings verbatim, keeps the raw
      result code without passing it through `from_int`, and has metadata
      exactly when `CallbackMetadata.Item` is present. */
  lemma ParsedFields(json: Json, dump: Json -> string)
    requires CallbackFromJson(json, dump).Returns?
    ensures StkCallbackOf(json).Returns?
    ensures var cb := StkCallbackOf(json).value; var r := CallbackFromJson(json, dump).value;
      && StringField(cb, "MerchantRequestID") == Returns(r.merchantRequestID)
      && StringField(cb, "CheckoutRequestID") == Returns(r.checkoutRequestID)
      && StringField(cb, "ResultDesc") == Returns(r.resultDesc)
      && IntField(cb, "ResultCode") == Returns(ToInt(r.resultCode))
      && (r.callbackMetadata.Some? <==> HasMetadata(cb))
      && (r.callbackMetadata.Some? ==> DecodeItems(Elements(MetadataItems(cb)), dump) == Returns(r.callbackMetadata.value))
  {
  }

  /** A result code the enumeration does not name survives decoding as is. */
  lemma UnknownResultCodeKept(json: Json, dump: Json -> string)
    requires CallbackFromJson(json, dump).Returns?
    ensures var r := CallbackFromJson(json, dump).value;
      !IsEnumerator(r.resultCode) ==> FromInt(ToInt(r.resultCode)) != r.resultCode
  {
    FromIntToInt(CallbackFromJson(json, dump).value.resultCode);
  }

  /** Every failure, a parse error included, is a runtime_error whose message
      starts with the prefix and goes on with the original text. */
  lemma FailuresArePrefixed(body: Payload, dump: Json -> string)
    ensures ParseCallbackSpec(body, dump).Throws? ==>
      && ParseCallbackSpec(body, dump).error.RuntimeError?
      && IsPrefix(FailurePrefix, ParseCallbackSpec(body, dump).error.message)
    ensures body.Malformed? ==> ParseCallbackSpec(body, dump) == Throws(RuntimeError(FailurePrefix + body.what))
    ensures body.Parsed? ==> (ParseCallbackSpec(body, dump).Returns? <==> CallbackFromJson(body.json, dump).Returns?)
  {
    var r := ParseCallbackSpec(body, dump);
    if r.Throws? {
      assert r.error.message[..|FailurePrefix|] == FailurePrefix;
    }
  }

  /** A missing MerchantRequestID is a failure: the inserted null is not a string. */
  lemma MissingMerchantIdFails(json: Json, dump: Json -> string)
    requires StkCallbackOf(json).Returns?
    requires !Contains(StkCallbackOf(json).value, "MerchantRequestID")
    ensures CallbackFromJson(json, dump).Throws?
  {
  }
}
