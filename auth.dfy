/** `mpesa::Auth`: the OAuth token manager. It keeps the current token,
    its expiry and the last error, reuses the token while it is live and
    otherwise asks the token endpoint for a new one, classifying whatever
    goes wrong into the `AuthErrorCode` taxonomy. The clock is the `now`
    parameter (seconds since the epoch); the libcurl exchange is an input. */
module Authentication {
  import opened AuthTypes
  import opened CppStd
  import opened Json
  import opened Base64
  import opened Transport

  const SANDBOX_URL := "https://sandbox.safaricom.co.ke"
  const PRODUCTION_URL := "https://api.safaricom.co.ke"
  const AUTH_ENDPOINT := "/oauth/v1/generate"
  const GRANT_QUERY := "?grant_type=client_credentials"
  const BASIC_PREFIX := "Authorization: Basic "
  const TOKEN_FAILURE := "Failed to get access token"

  /** The base URL of an environment. */
  function BaseUrl(sandbox: bool): (u: string)
    ensures u == SANDBOX_URL <==> sandbox
    ensures IsPrefix("https://", u)
  {
    if sandbox then SANDBOX_URL else PRODUCTION_URL
  }

  /** `createAuthHeader`: basic authentication with the base64 of
      `key:secret`. */
  function BasicAuthHeader(config: AuthConfig): (h: string)
    ensures IsPrefix(BASIC_PREFIX, h)
    ensures Decode(h[|BASIC_PREFIX|..]) == Some(Octets(config.consumerKey + ":" + config.consumerSecret))
  {
    var h := BASIC_PREFIX + Base64Encode(config.consumerKey + ":" + config.consumerSecret);
    assert h[|BASIC_PREFIX|..] == Base64Encode(config.consumerKey + ":" + config.consumerSecret);
    h
  }

  /** The token request `refreshToken` hands to libcurl: a GET of the
      generate endpoint with the client-credentials grant and one header. */
  function TokenRequest(config: AuthConfig): HttpRequest
  {
    HttpRequest("GET", BaseUrl(config.sandbox) + AUTH_ENDPOINT + GRANT_QUERY, [BasicAuthHeader(config)], None)
  }

  // ---------------------------------------------------------------- error tables

  /** `map_curl_error`: the four transport failures the SDK names, and
      NETWORK_ERROR for every other CURLcode. */
  function MapCurlError(code: int): (e: AuthErrorCode)
    ensures Band(e) == 1
    ensures e == DNS_ERROR <==> code == CURLE_COULDNT_RESOLVE_HOST
    ensures e == CONNECTION_ERROR <==> code == CURLE_COULDNT_CONNECT
    ensures e == TIMEOUT_ERROR <==> code == CURLE_OPERATION_TIMEDOUT
    ensures e == SSL_ERROR <==> code == CURLE_SSL_CONNECT_ERROR
  {
    if code == CURLE_COULDNT_RESOLVE_HOST then DNS_ERROR
    else if code == CURLE_COULDNT_CONNECT then CONNECTION_ERROR
    else if code == CURLE_OPERATION_TIMEDOUT then TIMEOUT_ERROR
    else if code == CURLE_SSL_CONNECT_ERROR then SSL_ERROR
    else NETWORK_ERROR
  }

  /** The M-Pesa error codes with a code of their own; any other is API_ERROR. */
  function MpesaErrorFor(errorCode: string): (e: AuthErrorCode)
    ensures e != SUCCESS
    ensures Band(e) == 2 || Band(e) == 3
  {
    if errorCode == "400.008.02" then INVALID_GRANT_TYPE
    else if errorCode == "400.008.01" then INVALID_AUTH_TYPE
    else if errorCode == "401.002.01" then INVALID_CREDENTIALS
    else if errorCode == "500.001.1001" then SERVER_ERROR
    else API_ERROR
  }

  /** `map_mpesa_error`: SUCCESS when the body has no `errorCode`; otherwise
      the code read as a string (which throws when it is not one). */
  function MapMpesaError(response: Json): (r: Outcome<AuthErrorCode>)
    ensures r == Returns(SUCCESS) <==> !Contains(response, "errorCode")
    ensures Contains(response, "errorCode") ==>
      (r.Returns? <==> Find(response.members, "errorCode").value.JString?)
    ensures r.Returns? && Contains(response, "errorCode") ==>
      r.value == MpesaErrorFor(Find(response.members, "errorCode").value.s)
  {
    if !Contains(response, "errorCode") then Returns(SUCCESS)
    else
      var errorCode :- GetString(Find(response.members, "errorCode").value);
      Returns(MpesaErrorFor(errorCode))
  }

  // ---------------------------------------------------------------- refreshToken

  /** The token fields of a body without API error: `access_token` and
      `expires_in` read as strings, the lifetime converted with std::stoi. */
  function TokenFields(json: Json): Outcome<AuthResponse>
  {
    var token :- StringField(json, "access_token");
    var expires :- StringField(json, "expires_in");
    var seconds :- Stoi(expires);
    Returns(DefaultAuthResponse().(accessToken := token, expiresIn := seconds))
  }

  /** The body of the `try` block once the response has parsed: the API
      error check, then the token fields. */
  function TokenFromBody(json: Json): Outcome<AuthResponse>
  {
    var mpesaError :- MapMpesaError(json);
    if mpesaError != SUCCESS then Returns(ErrorResponse(mpesaError)) else TokenFields(json)
  }

  /** The `catch (const nlohmann::json::exception&)` handler: a JSON
      exception becomes PARSE_ERROR; anything else passes through. */
  function CatchJson(r: Outcome<AuthResponse>): Outcome<AuthResponse>
  {
    if r.Throws? && r.error.JsonException? then Returns(ErrorResponse(PARSE_ERROR)) else r
  }

  /** The `try` block of `refreshToken`: a body that is not JSON, and any
      JSON exception while reading it, is reported as PARSE_ERROR; the
      std::stoi exceptions are not JSON exceptions and escape. */
  function TryBody(body: Payload): Outcome<AuthResponse>
  {
    match body
    case Malformed(_) => Returns(ErrorResponse(PARSE_ERROR))
    case Parsed(json) => CatchJson(TokenFromBody(json))
  }

  /** The reads of the `try` block, one after the other; the first that
      throws ends them. */
  method ReadTokenBody(json: Json) returns (r: Outcome<AuthResponse>)
    ensures r == TokenFromBody(json)
  {
    var mpesaError := MapMpesaError(json);
    if mpesaError.Throws? {
      return Throws(mpesaError.error);
    }
    if mpesaError.value != SUCCESS {
      return Returns(ErrorResponse(mpesaError.value));
    }
    r := ReadTokenFields(json);
  }

  /** The token fields of a body without API error. */
  method ReadTokenFields(json: Json) returns (r: Outcome<AuthResponse>)
    ensures r == TokenFields(json)
  {
    var token := StringField(json, "access_token");
    if token.Throws? {
      return Throws(token.error);
    }
    var expires := StringField(json, "expires_in");
    if expires.Throws? {
      return Throws(expires.error);
    }
    var seconds := Stoi(expires.value);
    if seconds.Throws? {
      return Throws(seconds.error);
    }
    return Returns(DefaultAuthResponse().(accessToken := token.value, expiresIn := seconds.value));
  }

  /** `refreshToken` classifying one exchange. */
  function RefreshSpec(exchange: Exchange): Outcome<AuthResponse>
  {
    match exchange
    case CurlInitFailed => Returns(ErrorResponse(INITIALIZATION_ERROR))
    case Performed(res, _, httpCode, body) =>
      if res != CURLE_OK then Returns(ErrorResponse(MapCurlError(res)))
      else if httpCode >= 400 then Returns(ErrorResponse(HTTP_ERROR))
      else TryBody(body)
  }

  /** `refreshToken` as written: after the JSON handler runs, control reaches
      the end of the function without a return statement, so no response is
      produced (None). */
  function RefreshAsWritten(exchange: Exchange): Option<Outcome<AuthResponse>>
  {
    match exchange
    case CurlInitFailed => Some(Returns(ErrorResponse(INITIALIZATION_ERROR)))
    case Performed(res, _, httpCode, body) =>
      if res != CURLE_OK then Some(Returns(ErrorResponse(MapCurlError(res))))
      else if httpCode >= 400 then Some(Returns(ErrorResponse(HTTP_ERROR)))
      else
        match body
        case Malformed(_) => None
        case Parsed(json) =>
          var r := TokenFromBody(json);
          if r.Throws? && r.error.JsonException? then None else Some(r)
  }

  /** The token state of an `Auth`: `current_token_`, `token_expiry_`
      (seconds) and `last_error_`. */
  datatype TokenState = TokenState(token: Option<string>, expiry: int, lastError: AuthErrorCode)

  /** A fresh `Auth`: no token, the epoch as expiry, SUCCESS as last error. */
  const Initial := TokenState(None, 0, SUCCESS)

  /** `isTokenValid` on a state: the clock is before the expiry, whether or
      not a token is held. */
  predicate Live(s: TokenState, now: int)
  {
    now < s.expiry
  }

  /** The state after `refreshToken` at time `now` produced `r`: a success
      stores the token and its expiry; a classified failure records only its
      code; an escaping exception changes nothing. */
  function AfterRefresh(s: TokenState, now: int, r: Outcome<AuthResponse>): TokenState
  {
    match r
    case Throws(_) => s
    case Returns(response) =>
      if response.errorCode == SUCCESS then TokenState(Some(response.accessToken), now + response.expiresIn, SUCCESS)
      else s.(lastError := response.errorCode)
  }

  // ---------------------------------------------------------------- getAccessToken

  /** Whether `getAccessToken` can answer from the cache. */
  predicate Cached(s: TokenState, now: int)
  {
    s.token.Some? && Live(s, now)
  }

  /** `getAccessToken`: the cached token while it is live; otherwise a
      refresh, whose non-SUCCESS code is raised as an AuthenticationError. */
  function AccessTokenSpec(s: TokenState, now: int, exchange: Exchange): Outcome<string>
  {
    if Cached(s, now) then Returns(s.token.value)
    else
      match RefreshSpec(exchange)
      case Throws(e) => Throws(e)
      case Returns(response) =>
        if response.errorCode != SUCCESS then Throws(AuthenticationError(TOKEN_FAILURE, response.errorCode))
        else Returns(response.accessToken)
  }

  /** The state `getAccessToken` leaves behind. */
  function AfterAccessToken(s: TokenState, now: int, exchange: Exchange): TokenState
  {
    if Cached(s, now) then s else AfterRefresh(s, now, RefreshSpec(exchange))
  }

  /** `Auth`: the configuration is fixed at construction; the token fields
      change as tokens are fetched. */
  class Auth {
    const config: AuthConfig
    var currentToken: Option<string>
    var tokenExpiry: int
    var lastError: AuthErrorCode

    function State(): TokenState
      reads this
    {
      TokenState(currentToken, tokenExpiry, lastError)
    }

    /** `Auth(const AuthConfig&)`. */
    constructor (config: AuthConfig)
      ensures this.config == config
      ensures State() == Initial
    {
      this.config := config;
      currentToken := None;
      tokenExpiry := 0;
      lastError := SUCCESS;
    }

    /** `Auth(consumer_key, consumer_secret, sandbox = true)`. */
    constructor FromCredentials(consumerKey: string, consumerSecret: string, sandbox: bool := true)
      ensures config == ConfigFromCredentials(consumerKey, consumerSecret, sandbox)
      ensures State() == Initial
    {
      config := ConfigFromCredentials(consumerKey, consumerSecret, sandbox);
      currentToken := None;
      tokenExpiry := 0;
      lastError := SUCCESS;
    }

    /** `isTokenValid()`. */
    function IsTokenValid(now: int): (valid: bool)
      reads this
      ensures valid <==> Live(State(), now)
    {
      now < tokenExpiry
    }

    /** `getBaseUrl()`. */
    function GetBaseUrl(): (u: string)
      ensures u == SANDBOX_URL <==> config.sandbox
      ensures u == PRODUCTION_URL <==> !config.sandbox
    {
      BaseUrl(config.sandbox)
    }

    /** `createAuthHeader()`. */
    function CreateAuthHeader(): (h: string)
      ensures IsPrefix(BASIC_PREFIX, h)
      ensures Decode(h[|BASIC_PREFIX|..]) == Some(Octets(config.consumerKey + ":" + config.consumerSecret))
    {
      BasicAuthHeader(config)
    }

    /** `getLastError()`. */
    function GetLastError(): (e: AuthErrorCode)
      reads this
      ensures e == State().lastError
    {
      lastError
    }

    /** `updateLastError(code)`. */
    method UpdateLastError(code: AuthErrorCode)
      modifies this
      ensures State() == old(State()).(lastError := code)
    {
      lastError := code;
    }

    /** `refreshToken()` at time `now`, where `exchange` is what libcurl
        reports for the request it was given (`sent`, absent when the handle
        could not be created). */
    method RefreshToken(now: int, exchange: Exchange) returns (r: Outcome<AuthResponse>, sent: Option<HttpRequest>)
      modifies this
      ensures r == RefreshSpec(exchange)
      ensures State() == AfterRefresh(old(State()), now, r)
      ensures sent == if exchange.CurlInitFailed? then None else Some(TokenRequest(config))
    {
      if exchange.CurlInitFailed? {
        UpdateLastError(INITIALIZATION_ERROR);
        return Returns(ErrorResponse(INITIALIZATION_ERROR)), None;
      }
      var url := GetBaseUrl() + AUTH_ENDPOINT;
      var authHeader := CreateAuthHeader();
      url := url + GRANT_QUERY;
      sent := Some(HttpRequest("GET", url, [authHeader], None));

      if exchange.res != CURLE_OK {
        var error := MapCurlError(exchange.res);
        UpdateLastError(error);
        return Returns(ErrorResponse(error)), sent;
      }
      if exchange.httpCode >= 400 {
        UpdateLastError(HTTP_ERROR);
        return Returns(ErrorResponse(HTTP_ERROR)), sent;
      }

      r := TryTokenBody(now, exchange.body);
    }

    /** The `try` block of `refreshToken` on the response body. */
    method TryTokenBody(now: int, body: Payload) returns (r: Outcome<AuthResponse>)
      modifies this
      ensures r == TryBody(body)
      ensures State() == AfterRefresh(old(State()), now, r)
    {
      if body.Malformed? {
        UpdateLastError(PARSE_ERROR);
        return Returns(ErrorResponse(PARSE_ERROR));
      }
      r := ReadTokenBody(body.json);
      if r.Throws? {
        if r.error.JsonException? {
          UpdateLastError(PARSE_ERROR);
          r := Returns(ErrorResponse(PARSE_ERROR));
        }
        return;
      }
      if r.value.errorCode == SUCCESS {
        currentToken := Some(r.value.accessToken);
        tokenExpiry := now + r.value.expiresIn;
      }
      UpdateLastError(r.value.errorCode);
    }

    /** `getAccessToken()` at time `now`; `exchange` is consulted only when
        a refresh is needed. */
    method GetAccessToken(now: int, exchange: Exchange) returns (r: Outcome<string>)
      modifies this
      ensures r == AccessTokenSpec(old(State()), now, exchange)
      ensures State() == AfterAccessToken(old(State()), now, exchange)
    {
      if currentToken.None? || !IsTokenValid(now) {
        var response, _ := RefreshToken(now, exchange);
        if response.Throws? {
          return Throws(response.error);
        }
        if response.value.errorCode != SUCCESS {
          return Throws(AuthenticationError(TOKEN_FAILURE, response.value.errorCode));
        }
      }
      return Returns(currentToken.value);
    }
  }

  // ---------------------------------------------------------------- properties

  /** The token request goes to the environment's generate endpoint over
      https with the client-credentials grant, and its only header carries
      the credentials in base64. */
  lemma TokenRequestShape(config: AuthConfig)
    ensures TokenRequest(config).verb == "GET" && TokenRequest(config).body.None?
    ensures TokenRequest(config).url == BaseUrl(config.sandbox) + AUTH_ENDPOINT + GRANT_QUERY
    ensures IsPrefix("https://", TokenRequest(config).url)
    ensures |TokenRequest(config).headers| == 1
    ensures Decode(TokenRequest(config).headers[0][|BASIC_PREFIX|..]) == Some(Octets(config.consumerKey + ":" + config.consumerSecret))
  {
    var u := TokenRequest(config).url;
    var b := BaseUrl(config.sandbox);
    assert u[..8] == b[..8];
  }

  /** The four documented M-Pesa codes (auth.h pairs each enumerator with
      one) map to their enumerators. */
  lemma DocumentedMpesaCodes()
    ensures MpesaErrorFor("400.008.02") == INVALID_GRANT_TYPE
    ensures MpesaErrorFor("400.008.01") == INVALID_AUTH_TYPE
    ensures MpesaErrorFor("401.002.01") == INVALID_CREDENTIALS
    ensures MpesaErrorFor("500.001.1001") == SERVER_ERROR
  {
  }

  /** Every failure `refreshToken` reports is classified by stage: a handle
      that cannot be created, a transport failure, an HTTP error status, a
      body that is not JSON. Its response then holds the defaults and the code. */
  lemma RefreshFailureStages(exchange: Exchange)
    ensures exchange.CurlInitFailed? ==> RefreshSpec(exchange) == Returns(ErrorResponse(INITIALIZATION_ERROR))
    ensures exchange.Performed? && exchange.res != CURLE_OK ==>
      RefreshSpec(exchange) == Returns(ErrorResponse(MapCurlError(exchange.res)))
    ensures exchange.Performed? && exchange.res == CURLE_OK && exchange.httpCode >= 400 ==>
      RefreshSpec(exchange) == Returns(ErrorResponse(HTTP_ERROR))
    ensures exchange.Performed? && exchange.res == CURLE_OK && exchange.httpCode < 400 && exchange.body.Malformed? ==>
      RefreshSpec(exchange) == Returns(ErrorResponse(PARSE_ERROR))
    ensures RefreshSpec(exchange).Returns? && RefreshSpec(exchange).value.errorCode != SUCCESS ==>
      RefreshSpec(exchange).value == ErrorResponse(RefreshSpec(exchange).value.errorCode)
  {
  }

  /** `refreshToken` succeeds exactly when the transfer worked, the status is
      below 400, and the JSON body has no `errorCode`, a string
      `access_token` and a string `expires_in` that std::stoi reads; the
      response then carries that token and lifetime. */
  lemma RefreshSucceedsIff(exchange: Exchange)
    ensures (RefreshSpec(exchange).Returns? && RefreshSpec(exchange).value.errorCode == SUCCESS) <==>
      && exchange.Performed? && exchange.res == CURLE_OK && exchange.httpCode < 400
      && exchange.body.Parsed?
      && !Contains(exchange.body.json, "errorCode")
      && StringField(exchange.body.json, "access_token").Returns?
      && StringField(exchange.body.json, "expires_in").Returns?
      && Stoi(StringField(exchange.body.json, "expires_in").value).Returns?
    ensures RefreshSpec(exchange).Returns? && RefreshSpec(exchange).value.errorCode == SUCCESS ==>
      && RefreshSpec(exchange).value.accessToken == StringField(exchange.body.json, "access_token").value
      && RefreshSpec(exchange).value.expiresIn == Stoi(StringField(exchange.body.json, "expires_in").value).value
  {
    if exchange.Performed? && exchange.res == CURLE_OK && exchange.httpCode < 400 && exchange.body.Parsed? {
      var json := exchange.body.json;
      if Contains(json, "errorCode") {
        assert MapMpesaError(json) != Returns(SUCCESS);
      }
    }
  }

  /** The body of a token response of the usual shape, the lifetime
      written in decimal as the API sends it. */
  function TokenBody(token: string, lifetime: nat): Json
  {
    JObject([Member("access_token", JString(token)), Member("expires_in", JString(NatToString(lifetime)))])
  }

  /** Such a body yields that token and lifetime, and the state then holds
      the token until `now + lifetime`. */
  lemma TokenRoundTrip(token: string, lifetime: nat, now: int, s: TokenState)
    requires lifetime <= INT_MAX
    ensures RefreshSpec(Performed(CURLE_OK, "No error", 200, Parsed(TokenBody(token, lifetime)))) == Returns(AuthResponse(token, lifetime, SUCCESS))
    ensures AfterRefresh(s, now, Returns(AuthResponse(token, lifetime, SUCCESS))) == TokenState(Some(token), now + lifetime, SUCCESS)
  {
    TokenBodyRead(TokenBody(token, lifetime), token, lifetime);
  }

  lemma TokenBodyRead(body: Json, token: string, lifetime: nat)
    requires lifetime <= INT_MAX
    requires body == TokenBody(token, lifetime)
    ensures TokenFromBody(body) == Returns(AuthResponse(token, lifetime, SUCCESS))
  {
    FindFirst(body.members, "access_token", 0);
    FindFirst(body.members, "expires_in", 1);
    FindFirst(body.members, "errorCode", 2);
    assert MapMpesaError(body) == Returns(SUCCESS);
    assert StringField(body, "access_token") == Returns(token);
    assert StringField(body, "expires_in") == Returns(NatToString(lifetime));
    StoiOfToString(lifetime);
  }

  /** A refresh that does not succeed records its code, which is never
      SUCCESS, and keeps the token and its expiry; one that escapes with an
      exception changes nothing at all. */
  lemma FailedRefreshKeepsToken(s: TokenState, now: int, exchange: Exchange)
    requires !(RefreshSpec(exchange).Returns? && RefreshSpec(exchange).value.errorCode == SUCCESS)
    ensures AfterRefresh(s, now, RefreshSpec(exchange)).token == s.token
    ensures AfterRefresh(s, now, RefreshSpec(exchange)).expiry == s.expiry
    ensures RefreshSpec(exchange).Returns? ==>
      AfterRefresh(s, now, RefreshSpec(exchange)).lastError == RefreshSpec(exchange).value.errorCode != SUCCESS
    ensures RefreshSpec(exchange).Throws? ==> AfterRefresh(s, now, RefreshSpec(exchange)) == s
  {
  }

  /** A std::stoi failure is the only exception that leaves `refreshToken`. */
  lemma RefreshThrowsOnlyStoi(exchange: Exchange)
    requires RefreshSpec(exchange).Throws?
    ensures RefreshSpec(exchange).error.InvalidArgument? || RefreshSpec(exchange).error.OutOfRange?
    ensures exchange.Performed? && exchange.body.Parsed?
    ensures Stoi(StringField(exchange.body.json, "expires_in").value) == Throws(RefreshSpec(exchange).error)
  {
    var json := exchange.body.json;
    var mpesaError := MapMpesaError(json);
    assert mpesaError.Returns? && mpesaError.value == SUCCESS;
  }

  /** While the held token is live, `getAccessToken` returns it whatever the
      network would have said, and changes nothing. */
  lemma CachedTokenServed(s: TokenState, now: int, exchange: Exchange, other: Exchange)
    requires s.token.Some? && now < s.expiry
    ensures AccessTokenSpec(s, now, exchange) == Returns(s.token.value)
    ensures AccessTokenSpec(s, now, exchange) == AccessTokenSpec(s, now, other)
    ensures AfterAccessToken(s, now, exchange) == s
  {
  }

  /** Without a live token, `getAccessToken` refreshes: a non-SUCCESS code is
      raised as an AuthenticationError carrying exactly that code, and a
      success returns the new token, which is then the one held. */
  lemma AccessTokenRefreshes(s: TokenState, now: int, exchange: Exchange)
    requires !Cached(s, now)
    ensures RefreshSpec(exchange).Returns? && RefreshSpec(exchange).value.errorCode != SUCCESS ==>
      && AccessTokenSpec(s, now, exchange) == Throws(AuthenticationError(TOKEN_FAILURE, RefreshSpec(exchange).value.errorCode))
      && AccessTokenSpec(s, now, exchange).error.GetErrorCode() == AfterAccessToken(s, now, exchange).lastError
    ensures RefreshSpec(exchange).Throws? ==> AccessTokenSpec(s, now, exchange) == Throws(RefreshSpec(exchange).error)
    ensures AccessTokenSpec(s, now, exchange).Returns? ==>
      && RefreshSpec(exchange) == Returns(AuthResponse(AccessTokenSpec(s, now, exchange).value, RefreshSpec(exchange).value.expiresIn, SUCCESS))
      && AfterAccessToken(s, now, exchange).token == Some(AccessTokenSpec(s, now, exchange).value)
  {
  }

  /** An AuthenticationError out of `getAccessToken` never carries SUCCESS,
      and every token it returns is the token held afterwards. */
  lemma AccessTokenConsistent(s: TokenState, now: int, exchange: Exchange)
    ensures AccessTokenSpec(s, now, exchange).Throws? && AccessTokenSpec(s, now, exchange).error.AuthenticationError? ==>
      AccessTokenSpec(s, now, exchange).error.code != SUCCESS
    ensures AccessTokenSpec(s, now, exchange).Returns? ==>
      AfterAccessToken(s, now, exchange).token == Some(AccessTokenSpec(s, now, exchange).value)
  {
  }

  /** The AuthenticationError of `getAccessToken` always reads "Failed to
      get access token"; any other exception it lets through is std::stoi's. */
  lemma AccessTokenErrorMessage(s: TokenState, now: int, exchange: Exchange)
    requires AccessTokenSpec(s, now, exchange).Throws?
    ensures AccessTokenSpec(s, now, exchange).error.AuthenticationError? ==>
      AccessTokenSpec(s, now, exchange).error.What() == TOKEN_FAILURE
    ensures !AccessTokenSpec(s, now, exchange).error.AuthenticationError? ==>
      AccessTokenSpec(s, now, exchange).error.InvalidArgument? || AccessTokenSpec(s, now, exchange).error.OutOfRange?
  {
    if RefreshSpec(exchange).Throws? {
      RefreshThrowsOnlyStoi(exchange);
    }
  }

  /** A token fetched at `now` serves every later call before its expiry
      from the cache, whatever those calls' exchanges would be. */
  lemma FetchedTokenReused(s: TokenState, now: int, exchange: Exchange, later: int, laterExchange: Exchange)
    requires AccessTokenSpec(s, now, exchange).Returns?
    requires later < AfterAccessToken(s, now, exchange).expiry
    ensures AccessTokenSpec(AfterAccessToken(s, now, exchange), later, laterExchange) == AccessTokenSpec(s, now, exchange)
  {
    AccessTokenConsistent(s, now, exchange);
  }

  /** A fresh `Auth` has no token, so its first `getAccessToken` always goes
      to the network. */
  lemma FreshAuthRefreshes(now: int, exchange: Exchange)
    ensures !Cached(Initial, now)
    ensures AfterAccessToken(Initial, now, exchange) == AfterRefresh(Initial, now, RefreshSpec(exchange))
  {
  }

  /** `refreshToken` as written and as modelled agree wherever the written
      code returns a value. */
  lemma RefreshAsWrittenAgrees(exchange: Exchange)
    ensures RefreshAsWritten(exchange).Some? ==> RefreshAsWritten(exchange).value == RefreshSpec(exchange)
    ensures RefreshAsWritten(exchange).None? ==> RefreshSpec(exchange) == Returns(ErrorResponse(PARSE_ERROR))
  {
  }

  /** A 200 reply whose body is not JSON reaches the end of `refreshToken`
      as written without a value to return. */
  lemma RefreshAsWrittenFallsOff(what: string)
    ensures RefreshAsWritten(Performed(CURLE_OK, "No error", 200, Malformed(what))).None?
    ensures RefreshSpec(Performed(CURLE_OK, "No error", 200, Malformed(what))) == Returns(ErrorResponse(PARSE_ERROR))
  {
  }

  /** The fall-through is not limited to bodies that fail to parse: on any
      status below 400, every JSON exception raised while the body is read
      (a null or array body, a missing or non-string `access_token` or
      `expires_in`, a non-string `errorCode`) ends `refreshToken` as written
      without a value, where the model reports PARSE_ERROR. */
  lemma RefreshAsWrittenFallsOffOnJsonErrors(code: int)
    requires code < 400
    ensures RefreshAsWritten(Performed(CURLE_OK, "No error", code, Parsed(JNull))).None?
    ensures RefreshAsWritten(Performed(CURLE_OK, "No error", code, Parsed(JArray([])))).None?
    ensures RefreshAsWritten(Performed(CURLE_OK, "No error", code, Parsed(JObject([])))).None?
    ensures RefreshAsWritten(Performed(CURLE_OK, "No error", code,
              Parsed(JObject([Member("access_token", JInteger(-1))])))).None?
    ensures RefreshAsWritten(Performed(CURLE_OK, "No error", code,
              Parsed(JObject([Member("errorCode", JBoolean(true))])))).None?
    ensures RefreshSpec(Performed(CURLE_OK, "No error", code, Parsed(JObject([])))) == Returns(ErrorResponse(PARSE_ERROR))
  {
    RefreshAsWrittenFallsOffOnNonObjects(code);
    RefreshAsWrittenFallsOffOnBadFields(code);
  }

  lemma RefreshAsWrittenFallsOffOnNonObjects(code: int)
    requires code < 400
    ensures RefreshAsWritten(Performed(CURLE_OK, "No error", code, Parsed(JNull))).None?
    ensures RefreshAsWritten(Performed(CURLE_OK, "No error", code, Parsed(JArray([])))).None?
    ensures RefreshAsWritten(Performed(CURLE_OK, "No error", code, Parsed(JObject([])))).None?
    ensures RefreshSpec(Performed(CURLE_OK, "No error", code, Parsed(JObject([])))) == Returns(ErrorResponse(PARSE_ERROR))
  {
  }

  lemma RefreshAsWrittenFallsOffOnBadFields(code: int)
    requires code < 400
    ensures RefreshAsWritten(Performed(CURLE_OK, "No error", code,
              Parsed(JObject([Member("access_token", JInteger(-1))])))).None?
    ensures RefreshAsWritten(Performed(CURLE_OK, "No error", code,
              Parsed(JObject([Member("errorCode", JBoolean(true))])))).None?
  {
    assert Find([Member("access_token", JInteger(-1))], "access_token") == Some(JInteger(-1));
    assert Find([Member("errorCode", JBoolean(true))], "errorCode") == Some(JBoolean(true));
  }
}
