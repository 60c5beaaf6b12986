/** `mpesa::stk::STKPushClient`: one STK push dispatch. The request is
    stamped with the client's fixed timestamp and a derived password,
    validated, sent with a bearer token, and the outcome classified into a
    `Result`; each dispatch bumps exactly one of two counters. The task runs
    here sequentially, and both libcurl exchanges (the token request, made
    only when the cache cannot answer, and the push itself) are inputs. */
module Client {
  import opened AuthTypes
  import opened CppStd
  import opened Json
  import opened Base64
  import opened Transport
  import opened Request
  import opened Response
  import Timestamp
  import Validator
  import Authentication

  // ---------------------------------------------------------------- Result<T>

  const VALUE_OF_FAILURE := "Cannot access value of failed result"
  const ERROR_OF_SUCCESS := "Cannot access error of successful result"

  /** `Result<T>`: a successful value or an error message. */
  datatype Result<T> = Succeeded(val: T) | Failed(message: string)
  {
    /** `success()`. */
    function IsSuccess(): (b: bool)
      ensures b <==> Value().Returns?
    {
      Succeeded?
    }

    /** `value()`: the value, or a runtime_error on a failed result. */
    function Value(): (r: Outcome<T>)
      ensures Succeeded? ==> r == Returns(val)
      ensures Failed? ==> r == Throws(RuntimeError(VALUE_OF_FAILURE))
    {
      if Succeeded? then Returns(val) else Throws(RuntimeError(VALUE_OF_FAILURE))
    }

    /** `error()`: the message, or a runtime_error on a successful result. */
    function Error(): (r: Outcome<string>)
      ensures Failed? ==> r == Returns(message)
      ensures Succeeded? ==> r == Throws(RuntimeError(ERROR_OF_SUCCESS))
    {
      if Failed? then Returns(message) else Throws(RuntimeError(ERROR_OF_SUCCESS))
    }
  }

  /** Exactly one of `value()` and `error()` answers, and each gives back
      what the result was built with. */
  lemma ResultAccessors<T>(x: Result<T>, v: T, e: string)
    ensures x.Value().Returns? != x.Error().Returns?
    ensures Succeeded(v).IsSuccess() && Succeeded(v).Value() == Returns(v)
    ensures !Result<T>.Failed(e).IsSuccess() && Result<T>.Failed(e).Error() == Returns(e)
  {
  }

  // ---------------------------------------------------------------- password

  /** `generatePassword`: the base64 of short code, passkey and timestamp. */
  function GeneratePassword(businessShortCode: string, passkey: string, timestamp: string): (password: string)
    ensures Decode(password) == Some(Octets(businessShortCode) + Octets(passkey) + Octets(timestamp))
    ensures |password| == 4 * ((|businessShortCode| + |passkey| + |timestamp| + 2) / 3)
  {
    OctetsOfThree(businessShortCode, passkey, timestamp);
    Base64Encode(businessShortCode + passkey + timestamp)
  }

  /** The request as the dispatch stamps it: the password derived from its
      short code, the passkey and the client's timestamp, and that timestamp;
      nothing else changes. */
  function Stamp(request: STKPushRequest, passkey: string, timestamp: string): (stamped: STKPushRequest)
    ensures stamped.timestamp == timestamp
    ensures Decode(stamped.password) == Some(Octets(request.businessShortCode) + Octets(passkey) + Octets(timestamp))
    ensures stamped.(password := request.password, timestamp := request.timestamp) == request
  {
    request.(password := GeneratePassword(request.businessShortCode, passkey, timestamp), timestamp := timestamp)
  }

  // ---------------------------------------------------------------- the exchange

  const STKPUSH_AUTH_ENDPOINT := "/mpesa/stkpush/v1/processrequest"
  const BEARER_PREFIX := "Authorization: Bearer "
  const JSON_CONTENT := "Content-Type: application/json"
  const CURL_INIT_FAILURE := "Failed to initialize CURL"
  const REQUEST_ERROR := "Request error: "
  const CURL_ERROR := "CURL error: "
  const HTTP_STATUS_ERROR := "HTTP error: "
  const JSON_ERROR := "JSON parse error: "

  /** The push request: a POST of the request's JSON to the environment's
      endpoint, with the bearer token and the JSON content type. */
  function PushRequest(config: AuthConfig, token: string, stamped: STKPushRequest): HttpRequest
  {
    HttpRequest("POST", Authentication.BaseUrl(config.sandbox) + STKPUSH_AUTH_ENDPOINT,
                [BEARER_PREFIX + token, JSON_CONTENT], Some(ToJson(stamped)))
  }

  /** A body that did not parse, as the exception the parser throws. */
  function ParsedBody(body: Payload): Outcome<Json>
  {
    match body
    case Malformed(what) => Throws(JsonException(what))
    case Parsed(json) => Returns(json)
  }

  /** The error text built for an HTTP error status, when the body is JSON
      holding `errorMessage` and `errorCode` as strings. */
  function ApiErrorText(body: Payload): Outcome<string>
  {
    var json :- ParsedBody(body);
    var message :- StringField(json, "errorMessage");
    var code :- StringField(json, "errorCode");
    Returns("API Error: " + message + " (Code: " + code + ")")
  }

  /** The message of an HTTP error status: the API's own message and code,
      and the bare status when anything about them throws. */
  function HttpErrorMessage(httpCode: int, body: Payload): string
  {
    match ApiErrorText(body)
    case Returns(text) => text
    case Throws(_) => HTTP_STATUS_ERROR + IntToString(httpCode)
  }

  /** The five response fields, each read as a string. */
  function ResponseFromJson(json: Json): Outcome<STKPushResponse>
  {
    var merchant :- StringField(json, "MerchantRequestID");
    var checkout :- StringField(json, "CheckoutRequestID");
    var code :- StringField(json, "ResponseCode");
    var description :- StringField(json, "ResponseDescription");
    var message :- StringField(json, "CustomerMessage");
    Returns(STKPushResponse(merchant, checkout, code, description, message))
  }

  /** The success branch's `try` block: parse, then read the fields. */
  function SuccessBody(body: Payload): Outcome<STKPushResponse>
  {
    var json :- ParsedBody(body);
    ResponseFromJson(json)
  }

  /** How a performed push is classified: the transport error, an HTTP error
      status, or the parsed response (a JSON exception becomes a failure). */
  function PushOutcome(res: int, resText: string, httpCode: int, body: Payload): Result<STKPushResponse>
  {
    if res != CURLE_OK then Failed(CURL_ERROR + resText)
    else if httpCode >= 400 then Failed(HttpErrorMessage(httpCode, body))
    else
      match SuccessBody(body)
      case Returns(response) => Succeeded(response)
      case Throws(e) => if e.JsonException? then Failed(JSON_ERROR + e.What()) else Failed(REQUEST_ERROR + e.What())
  }

  /** What one dispatch returns, and the request it hands to libcurl. */
  datatype Dispatch = Dispatch(result: Result<STKPushResponse>, sent: Option<HttpRequest>)

  /** Whether the task gets as far as asking for a token: the request is
      valid and the libcurl handle was created. */
  predicate ReachesToken(stamped: STKPushRequest, pushExchange: Exchange)
  {
    Validator.ValidateSTKPushRequest(stamped).isValid && !pushExchange.CurlInitFailed?
  }

  /** The dispatch task for a stamped request: validation, the libcurl
      handle, then the token and the exchange; anything thrown on the way is
      reported by the outer handler as a request error. */
  function DispatchSpec(stamped: STKPushRequest, config: AuthConfig, s: Authentication.TokenState, now: int,
                        tokenExchange: Exchange, pushExchange: Exchange): Dispatch
  {
    var validation := Validator.ValidateSTKPushRequest(stamped);
    if !validation.isValid then Dispatch(Failed(validation.error), None)
    else if pushExchange.CurlInitFailed? then Dispatch(Failed(REQUEST_ERROR + CURL_INIT_FAILURE), None)
    else SendSpec(stamped, config, s, now, tokenExchange, pushExchange)
  }

  /** The task once validation passed and the handle exists: the bearer
      token, the request's serialisation, then the exchange. A request the
      serialiser refuses (text that is not UTF-8) fails through the outer
      handler after the token was fetched, and nothing is sent. */
  function SendSpec(stamped: STKPushRequest, config: AuthConfig, s: Authentication.TokenState, now: int,
                    tokenExchange: Exchange, pushExchange: Exchange): Dispatch
    requires pushExchange.Performed?
  {
    match Authentication.AccessTokenSpec(s, now, tokenExchange)
    case Throws(e) => Dispatch(Failed(REQUEST_ERROR + e.What()), None)
    case Returns(token) =>
      match DumpCheck(ToJson(stamped))
      case Throws(e) => Dispatch(Failed(REQUEST_ERROR + e.What()), None)
      case Returns(_) =>
        Dispatch(PushOutcome(pushExchange.res, pushExchange.resText, pushExchange.httpCode, pushExchange.body),
                 Some(PushRequest(config, token, stamped)))
  }

  /** The token state a dispatch leaves in the shared `Auth`. */
  function TokenStateAfter(stamped: STKPushRequest, s: Authentication.TokenState, now: int,
                           tokenExchange: Exchange, pushExchange: Exchange): Authentication.TokenState
  {
    if ReachesToken(stamped, pushExchange) then Authentication.AfterAccessToken(s, now, tokenExchange) else s
  }

  /** `STKPushClient`: a reference to the token manager, a timestamp fixed
      at construction, and the two counters. The counters are
      `std::atomic<int>`, whose increments wrap around. */
  class STKPushClient {
    const auth: Authentication.Auth
    const timestamp: string
    var successCount: int
    var failureCount: int

    /** `STKPushClient(auth)`, constructed at UTC time `now`. */
    constructor (auth: Authentication.Auth, now: Timestamp.UtcTime)
      requires Timestamp.IsCalendarTime(now)
      ensures this.auth == auth
      ensures timestamp == Timestamp.Generate(now)
      ensures successCount == 0 && failureCount == 0
    {
      var stamp := Timestamp.Generate(now);
      this.auth := auth;
      timestamp := stamp;
      successCount := 0;
      failureCount := 0;
    }

    /** `getSuccessCount()`. */
    function GetSuccessCount(): (n: int)
      reads this
      ensures n == successCount
    {
      successCount
    }

    /** `getFailureCount()`. */
    function GetFailureCount(): (n: int)
      reads this
      ensures n == failureCount
    {
      failureCount
    }

    /** `initiateSTKPush(request)` run to completion at time `now`. */
    method InitiateSTKPush(request: STKPushRequest, now: int, tokenExchange: Exchange, pushExchange: Exchange)
      returns (r: Result<STKPushResponse>, sent: Option<HttpRequest>)
      modifies this, auth
      ensures var stamped := Stamp(request, auth.config.stkPasskey, timestamp);
        && Dispatch(r, sent) == DispatchSpec(stamped, auth.config, old(auth.State()), now, tokenExchange, pushExchange)
        && auth.State() == TokenStateAfter(stamped, old(auth.State()), now, tokenExchange, pushExchange)
      ensures r.Succeeded? ==> successCount == Wrap32(old(successCount) + 1) && failureCount == old(failureCount)
      ensures r.Failed? ==> failureCount == Wrap32(old(failureCount) + 1) && successCount == old(successCount)
    {
      var stamped := request;
      stamped := stamped.(password := GeneratePassword(stamped.businessShortCode, auth.config.stkPasskey, timestamp));
      stamped := stamped.(timestamp := timestamp);
      assert stamped == Stamp(request, auth.config.stkPasskey, timestamp);

      var validation := Validator.ValidateSTKPushRequest(stamped);
      if !validation.isValid {
        failureCount := Wrap32(failureCount + 1);
        return Failed(validation.error), None;
      }
      if pushExchange.CurlInitFailed? {
        failureCount := Wrap32(failureCount + 1);
        return Failed(REQUEST_ERROR + CURL_INIT_FAILURE), None;
      }
      r, sent := Send(stamped, now, tokenExchange, pushExchange);
    }

    /** The rest of the task: the bearer token, the exchange and its
        classification. */
    method Send(stamped: STKPushRequest, now: int, tokenExchange: Exchange, pushExchange: Exchange)
      returns (r: Result<STKPushResponse>, sent: Option<HttpRequest>)
      requires pushExchange.Performed?
      modifies this, auth
      ensures Dispatch(r, sent) == SendSpec(stamped, auth.config, old(auth.State()), now, tokenExchange, pushExchange)
      ensures auth.State() == Authentication.AfterAccessToken(old(auth.State()), now, tokenExchange)
      ensures r.Succeeded? ==> successCount == Wrap32(old(successCount) + 1) && failureCount == old(failureCount)
      ensures r.Failed? ==> failureCount == Wrap32(old(failureCount) + 1) && successCount == old(successCount)
    {
      var url := auth.GetBaseUrl() + STKPUSH_AUTH_ENDPOINT;
      var token := auth.GetAccessToken(now, tokenExchange);
      if token.Throws? {
        failureCount := Wrap32(failureCount + 1);
        return Failed(REQUEST_ERROR + token.error.What()), None;
      }
      var headers := [BEARER_PREFIX + token.value, JSON_CONTENT];
      var payload := ToJson(stamped);
      var dumped := DumpCheck(payload);
      if dumped.Throws? {
        failureCount := Wrap32(failureCount + 1);
        return Failed(REQUEST_ERROR + dumped.error.What()), None;
      }
      sent := Some(HttpRequest("POST", url, headers, Some(payload)));

      if pushExchange.res != CURLE_OK {
        failureCount := Wrap32(failureCount + 1);
        return Failed(CURL_ERROR + pushExchange.resText), sent;
      }
      if pushExchange.httpCode >= 400 {
        failureCount := Wrap32(failureCount + 1);
        var apiError := ApiErrorText(pushExchange.body);
        if apiError.Returns? {
          return Failed(apiError.value), sent;
        }
        return Failed(HTTP_STATUS_ERROR + IntToString(pushExchange.httpCode)), sent;
      }
      var response := SuccessBody(pushExchange.body);
      if response.Throws? {
        failureCount := Wrap32(failureCount + 1);
        if response.error.JsonException? {
          return Failed(JSON_ERROR + response.error.What()), sent;
        }
        return Failed(REQUEST_ERROR + response.error.What()), sent;
      }
      successCount := Wrap32(successCount + 1);
      return Succeeded(response.value), sent;
    }
  }

  // ---------------------------------------------------------------- properties

  lemma OctetsOfThree(a: string, b: string, c: string)
    ensures Octets(a + b + c) == Octets(a) + Octets(b) + Octets(c)
  {
    OctetsAppend(a, b);
    OctetsAppend(a + b, c);
  }

  /** The password decodes to short code, passkey and timestamp, byte for
      byte; it is empty only when all three are. */
  lemma PasswordDecodes(businessShortCode: string, passkey: string, timestamp: string)
    ensures Decode(GeneratePassword(businessShortCode, passkey, timestamp)) ==
      Some(Octets(businessShortCode + passkey + timestamp))
    ensures |GeneratePassword(businessShortCode, passkey, timestamp)| == 0 <==>
      |businessShortCode| + |passkey| + |timestamp| == 0
  {
    OctetsOfThree(businessShortCode, passkey, timestamp);
  }

  /** Stamping with a valid timestamp always satisfies the validator's
      password and timestamp requirements, so a stamped request is never
      refused for either. */
  lemma StampSatisfiesPasswordAndTimestamp(request: STKPushRequest, passkey: string, timestamp: string)
    requires Timestamp.IsValid(timestamp)
    ensures |Stamp(request, passkey, timestamp).password| > 0
    ensures Timestamp.IsValid(Stamp(request, passkey, timestamp).timestamp)
    ensures Validator.ValidateSTKPushRequest(Stamp(request, passkey, timestamp)).error != Validator.PasswordMessage
    ensures Validator.ValidateSTKPushRequest(Stamp(request, passkey, timestamp)).error != Validator.TimestampMessage
  {
    var stamped := Stamp(request, passkey, timestamp);
    Timestamp.IsValidIff(timestamp);
    assert |stamped.password| > 0;
    RefusalNotForStamp(stamped);
  }

  /** A request with a password and a valid timestamp is refused, if at
      all, with a message of another length than the password and the
      timestamp messages. */
  lemma RefusalNotForStamp(stamped: STKPushRequest)
    requires |stamped.password| > 0 && Timestamp.IsValid(stamped.timestamp)
    ensures |Validator.ValidateSTKPushRequest(stamped).error| != |Validator.PasswordMessage|
    ensures |Validator.ValidateSTKPushRequest(stamped).error| != |Validator.TimestampMessage|
  {
  }

  /** A request the validator refuses fails with the validator's message;
      nothing is sent and the token manager is not consulted. */
  lemma ValidationFailureSendsNothing(stamped: STKPushRequest, config: AuthConfig, s: Authentication.TokenState, now: int,
                                      tokenExchange: Exchange, pushExchange: Exchange)
    requires !Validator.ValidateSTKPushRequest(stamped).isValid
    ensures DispatchSpec(stamped, config, s, now, tokenExchange, pushExchange) ==
      Dispatch(Failed(Validator.ValidateSTKPushRequest(stamped).error), None)
    ensures TokenStateAfter(stamped, s, now, tokenExchange, pushExchange) == s
    ensures |DispatchSpec(stamped, config, s, now, tokenExchange, pushExchange).result.message| > 0
  {
    Validator.ValidateAcceptsExactly(stamped);
  }

  /** A token that cannot be had fails the dispatch through the outer
      handler: a refused refresh reads "Request error: Failed to get access
      token", and nothing is sent. */
  lemma TokenFailureReported(stamped: STKPushRequest, config: AuthConfig, s: Authentication.TokenState, now: int,
                             tokenExchange: Exchange, pushExchange: Exchange)
    requires ReachesToken(stamped, pushExchange)
    requires Authentication.AccessTokenSpec(s, now, tokenExchange).Throws?
    ensures DispatchSpec(stamped, config, s, now, tokenExchange, pushExchange) ==
      Dispatch(Failed(REQUEST_ERROR + Authentication.AccessTokenSpec(s, now, tokenExchange).error.What()), None)
    ensures Authentication.AccessTokenSpec(s, now, tokenExchange).error.AuthenticationError? ==>
      DispatchSpec(stamped, config, s, now, tokenExchange, pushExchange).result ==
        Failed(REQUEST_ERROR + Authentication.TOKEN_FAILURE)
  {
    Authentication.AccessTokenErrorMessage(s, now, tokenExchange);
  }

  /** A request the serialiser refuses fails after the token was fetched,
      with the outer handler's prefix and nlohmann's `type_error.316` text,
      and nothing is sent. */
  lemma UnserialisableRequestFails(stamped: STKPushRequest, config: AuthConfig, s: Authentication.TokenState, now: int,
                                   tokenExchange: Exchange, pushExchange: Exchange)
    requires ReachesToken(stamped, pushExchange)
    requires Authentication.AccessTokenSpec(s, now, tokenExchange).Returns?
    requires DumpCheck(ToJson(stamped)).Throws?
    ensures DispatchSpec(stamped, config, s, now, tokenExchange, pushExchange) ==
      Dispatch(Failed(REQUEST_ERROR + DumpCheck(ToJson(stamped)).error.What()), None)
    ensures IsPrefix(REQUEST_ERROR + TYPE_ERROR_316, DispatchSpec(stamped, config, s, now, tokenExchange, pushExchange).result.message)
    ensures TokenStateAfter(stamped, s, now, tokenExchange, pushExchange) == Authentication.AfterAccessToken(s, now, tokenExchange)
  {
    var e := DumpCheck(ToJson(stamped)).error;
    DumpCheckError(ToJson(stamped));
    assert (REQUEST_ERROR + e.What())[..|REQUEST_ERROR + TYPE_ERROR_316|] == REQUEST_ERROR + TYPE_ERROR_316;
  }

  /** Of a request the validator accepts and that was stamped, only the
      account reference and the description can stop the serialiser: it
      fails exactly when one of them is not UTF-8, on the account reference
      first. */
  lemma StampedRequestDump(request: STKPushRequest, passkey: string, timestamp: string)
    requires Validator.ValidateSTKPushRequest(Stamp(request, passkey, timestamp)).isValid
    ensures DumpCheck(ToJson(Stamp(request, passkey, timestamp))) ==
      if CheckUtf8(request.accountReference).Throws? then CheckUtf8(request.accountReference)
      else CheckUtf8(request.transactionDesc)
    ensures IsAscii(request.accountReference) && IsAscii(request.transactionDesc) ==>
      DumpCheck(ToJson(Stamp(request, passkey, timestamp))).Returns?
  {
    var stamped := Stamp(request, passkey, timestamp);
    Validator.ValidatedFieldsAscii(stamped);
    PasswordAscii(request.businessShortCode, passkey, timestamp);
    Request.ToJsonDump(stamped);
    if IsAscii(request.accountReference) && IsAscii(request.transactionDesc) {
      AsciiSerialises(request.accountReference);
      AsciiSerialises(request.transactionDesc);
    }
  }

  /** The password is base64 text, hence seven-bit. */
  lemma PasswordAscii(businessShortCode: string, passkey: string, timestamp: string)
    ensures IsAscii(GeneratePassword(businessShortCode, passkey, timestamp))
  {
    var bytes := Octets(businessShortCode + passkey + timestamp);
    EncodeAlphabet(bytes);
    assert GeneratePassword(businessShortCode, passkey, timestamp) == Encode(bytes);
  }

  /** An account reference that is the single byte 0xFF stops the
      serialiser with nlohmann's message for it. */
  lemma NonUtf8AccountReference()
    ensures CheckUtf8("\U{FF}") == Throws(JsonException(TYPE_ERROR_316 + "invalid UTF-8 byte at index 0: 0xFF"))
  {
    var b := Octets("\U{FF}");
    assert b == [0xFF];
    Utf8.LoneByte(0xFF);
  }

  /** End to end: a valid request whose account reference is the single
      byte 0xFF fails, once the token is in hand, with "Request error:
      [json.exception.type_error.316] invalid UTF-8 byte at index 0: 0xFF". */
  lemma NonUtf8ReferenceReported(request: STKPushRequest, config: AuthConfig, s: Authentication.TokenState, now: int,
                                 timestamp: string, tokenExchange: Exchange, pushExchange: Exchange)
    requires request.accountReference == "\U{FF}"
    requires ReachesToken(Stamp(request, config.stkPasskey, timestamp), pushExchange)
    requires Authentication.AccessTokenSpec(s, now, tokenExchange).Returns?
    ensures DispatchSpec(Stamp(request, config.stkPasskey, timestamp), config, s, now, tokenExchange, pushExchange) ==
      Dispatch(Failed(REQUEST_ERROR + (TYPE_ERROR_316 + "invalid UTF-8 byte at index 0: 0xFF")), None)
  {
    var stamped := Stamp(request, config.stkPasskey, timestamp);
    var text := TYPE_ERROR_316 + "invalid UTF-8 byte at index 0: 0xFF";
    assert DumpCheck(ToJson(stamped)) == Throws(JsonException(text)) by {
      StampedRequestDump(request, config.stkPasskey, timestamp);
      NonUtf8AccountReference();
    }
    UnserialisableRequestFails(stamped, config, s, now, tokenExchange, pushExchange);
  }

  /** With a token in hand, the request sent is a POST of the stamped
      request's JSON to the environment's push endpoint, carrying that token
      as bearer and the JSON content type; the payload's Password and
      Timestamp are the stamped ones. */
  lemma SentRequestShape(stamped: STKPushRequest, config: AuthConfig, s: Authentication.TokenState, now: int,
                         tokenExchange: Exchange, pushExchange: Exchange)
    requires ReachesToken(stamped, pushExchange)
    requires Authentication.AccessTokenSpec(s, now, tokenExchange).Returns?
    requires DumpCheck(ToJson(stamped)).Returns?
    ensures var d := DispatchSpec(stamped, config, s, now, tokenExchange, pushExchange);
      && d.sent.Some?
      && d.sent.value.verb == "POST"
      && d.sent.value.url == Authentication.BaseUrl(config.sandbox) + STKPUSH_AUTH_ENDPOINT
      && d.sent.value.headers == [BEARER_PREFIX + Authentication.AccessTokenSpec(s, now, tokenExchange).value, JSON_CONTENT]
      && d.sent.value.body == Some(ToJson(stamped))
      && StringField(d.sent.value.body.value, "Password") == Returns(stamped.password)
      && StringField(d.sent.value.body.value, "Timestamp") == Returns(stamped.timestamp)
  {
    ToJsonFields(stamped);
  }

  /** Every exception the success branch meets is a JSON exception, so it is
      always reported as a JSON parse error, never by the outer handler. */
  lemma SuccessBodyThrowsJson(body: Payload)
    ensures SuccessBody(body).Throws? ==> SuccessBody(body).error.JsonException?
    ensures body.Malformed? ==> SuccessBody(body) == Throws(JsonException(body.what))
  {
  }

  /** The failures of a performed push: the transport's message, then the
      API's message and code for an error status with such a body, the bare
      status otherwise, and the JSON error for an unreadable success body. */
  lemma PushFailures(res: int, resText: string, httpCode: int, body: Payload)
    ensures res != CURLE_OK ==> PushOutcome(res, resText, httpCode, body) == Failed(CURL_ERROR + resText)
    ensures res == CURLE_OK && httpCode >= 400 && body.Parsed?
            && StringField(body.json, "errorMessage").Returns? && StringField(body.json, "errorCode").Returns? ==>
      PushOutcome(res, resText, httpCode, body) ==
        Failed("API Error: " + StringField(body.json, "errorMessage").value + " (Code: " + StringField(body.json, "errorCode").value + ")")
    ensures res == CURLE_OK && httpCode >= 400 &&
            !(body.Parsed? && StringField(body.json, "errorMessage").Returns? && StringField(body.json, "errorCode").Returns?) ==>
      PushOutcome(res, resText, httpCode, body) == Failed(HTTP_STATUS_ERROR + IntToString(httpCode))
    ensures res == CURLE_OK && httpCode < 400 && SuccessBody(body).Throws? ==>
      PushOutcome(res, resText, httpCode, body) == Failed(JSON_ERROR + SuccessBody(body).error.What())
  {
    SuccessBodyThrowsJson(body);
  }

  /** A push succeeds exactly when the transfer worked, the status is below
      400 and the body is JSON with the five fields as strings; the response
      then holds those strings verbatim. */
  lemma PushSucceedsIff(res: int, resText: string, httpCode: int, body: Payload)
    ensures PushOutcome(res, resText, httpCode, body).Succeeded? <==>
      && res == CURLE_OK && httpCode < 400 && body.Parsed?
      && StringField(body.json, "MerchantRequestID").Returns?
      && StringField(body.json, "CheckoutRequestID").Returns?
      && StringField(body.json, "ResponseCode").Returns?
      && StringField(body.json, "ResponseDescription").Returns?
      && StringField(body.json, "CustomerMessage").Returns?
    ensures PushOutcome(res, resText, httpCode, body).Succeeded? ==>
      PushOutcome(res, resText, httpCode, body).val == STKPushResponse(
        StringField(body.json, "MerchantRequestID").value,
        StringField(body.json, "CheckoutRequestID").value,
        StringField(body.json, "ResponseCode").value,
        StringField(body.json, "ResponseDescription").value,
        StringField(body.json, "CustomerMessage").value)
  {
  }

  /** The response as the API sends it, its keys in the sorted order an
      nlohmann object keeps. */
  function ResponseJson(r: STKPushResponse): Json
  {
    JObject([
      Member("CheckoutRequestID", JString(r.checkoutRequestID)),
      Member("CustomerMessage", JString(r.customerMessage)),
      Member("MerchantRequestID", JString(r.merchantRequestID)),
      Member("ResponseCode", JString(r.responseCode)),
      Member("ResponseDescription", JString(r.responseDescription))])
  }

  /** Reading a response the API sends gives back every field. */
  lemma ResponseRoundTrip(r: STKPushResponse)
    ensures ResponseFromJson(ResponseJson(r)) == Returns(r)
    ensures PushOutcome(CURLE_OK, "No error", 200, Parsed(ResponseJson(r))) == Succeeded(r)
  {
    ResponseFieldsRead(ResponseJson(r), r);
  }

  lemma ResponseFieldsRead(json: Json, r: STKPushResponse)
    requires json == ResponseJson(r)
    ensures StringField(json, "MerchantRequestID") == Returns(r.merchantRequestID)
    ensures StringField(json, "CheckoutRequestID") == Returns(r.checkoutRequestID)
    ensures StringField(json, "ResponseCode") == Returns(r.responseCode)
    ensures StringField(json, "ResponseDescription") == Returns(r.responseDescription)
    ensures StringField(json, "CustomerMessage") == Returns(r.customerMessage)
  {
    FindFirst(json.members, "CheckoutRequestID", 0);
    FindFirst(json.members, "CustomerMessage", 1);
    FindFirst(json.members, "MerchantRequestID", 2);
    FindFirst(json.members, "ResponseCode", 3);
    FindFirst(json.members, "ResponseDescription", 4);
  }

  /** The timestamp a client generates at construction is valid, so no
      request it stamps is refused for its password or its timestamp. */
  lemma ConstructedStampAccepted(request: STKPushRequest, passkey: string, now: Timestamp.UtcTime)
    requires Timestamp.IsCalendarTime(now)
    ensures Validator.ValidateSTKPushRequest(Stamp(request, passkey, Timestamp.Generate(now))).error != Validator.PasswordMessage
    ensures Validator.ValidateSTKPushRequest(Stamp(request, passkey, Timestamp.Generate(now))).error != Validator.TimestampMessage
  {
    Timestamp.GenerateRoundTrip(now);
    StampSatisfiesPasswordAndTimestamp(request, passkey, Timestamp.Generate(now));
  }
}
