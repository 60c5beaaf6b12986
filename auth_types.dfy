/** The value types declared in include/mpesa/auth.h: the authentication error
    taxonomy, the token-endpoint response and the configuration record. */
module AuthTypes {

  /** The closed error taxonomy, banded by hundreds. */
  datatype AuthErrorCode =
    | SUCCESS
    | NETWORK_ERROR | DNS_ERROR | CONNECTION_ERROR | TIMEOUT_ERROR | SSL_ERROR
    | INVALID_CREDENTIALS | INVALID_GRANT_TYPE | INVALID_AUTH_TYPE | TOKEN_EXPIRED
    | SERVER_ERROR | HTTP_ERROR | API_ERROR
    | INITIALIZATION_ERROR | CONFIG_ERROR | PARSE_ERROR
    | INTERNAL_ERROR

  /** The integer each enumerator is declared with. */
  function CodeValue(c: AuthErrorCode): int
  {
    match c
    case SUCCESS => 0
    case NETWORK_ERROR => 100
    case DNS_ERROR => 101
    case CONNECTION_ERROR => 102
    case TIMEOUT_ERROR => 103
    case SSL_ERROR => 104
    case INVALID_CREDENTIALS => 200
    case INVALID_GRANT_TYPE => 201
    case INVALID_AUTH_TYPE => 202
    case TOKEN_EXPIRED => 203
    case SERVER_ERROR => 300
    case HTTP_ERROR => 301
    case API_ERROR => 302
    case INITIALIZATION_ERROR => 400
    case CONFIG_ERROR => 401
    case PARSE_ERROR => 402
    case INTERNAL_ERROR => 500
  }

  /** The band a code belongs to: 0 for success, 1 network, 2 authentication,
      3 server, 4 client, 5 internal. */
  function Band(c: AuthErrorCode): nat
  {
    match c
    case SUCCESS => 0
    case NETWORK_ERROR | DNS_ERROR | CONNECTION_ERROR | TIMEOUT_ERROR | SSL_ERROR => 1
    case INVALID_CREDENTIALS | INVALID_GRANT_TYPE | INVALID_AUTH_TYPE | TOKEN_EXPIRED => 2
    case SERVER_ERROR | HTTP_ERROR | API_ERROR => 3
    case INITIALIZATION_ERROR | CONFIG_ERROR | PARSE_ERROR => 4
    case INTERNAL_ERROR => 5
  }

  /** Every code's value lies in its band's hundred (success is exactly 0),
      and distinct enumerators carry distinct values. */
  lemma CodeValuesBanded(c: AuthErrorCode, d: AuthErrorCode)
    ensures c == SUCCESS <==> CodeValue(c) == 0
    ensures 100 * Band(c) <= CodeValue(c) < 100 * Band(c) + 100
    ensures CodeValue(c) == CodeValue(d) ==> c == d
  {
  }

  /** The token-endpoint result; the defaults are a one-hour lifetime and SUCCESS. */
  datatype AuthResponse = AuthResponse(accessToken: string, expiresIn: int, errorCode: AuthErrorCode)

  /** `AuthResponse{}`: empty token, 3600 seconds, SUCCESS. */
  function DefaultAuthResponse(): (r: AuthResponse)
    ensures r.accessToken == [] && r.expiresIn == 3600 && r.errorCode == SUCCESS
  {
    AuthResponse([], 3600, SUCCESS)
  }

  /** `AuthResponse{.error_code = c}`: the defaults with only the code replaced. */
  function ErrorResponse(c: AuthErrorCode): (r: AuthResponse)
    ensures r == DefaultAuthResponse().(errorCode := c)
  {
    AuthResponse([], 3600, c)
  }

  /** Credentials and environment. The passkey used for STK passwords is part
      of the configuration here (the client reads it from the configuration). */
  datatype AuthConfig = AuthConfig(consumerKey: string, consumerSecret: string, stkPasskey: string, sandbox: bool)

  /** A configuration built from credentials alone: sandbox by default, no passkey. */
  function ConfigFromCredentials(consumerKey: string, consumerSecret: string, sandbox: bool := true): (c: AuthConfig)
    ensures c.consumerKey == consumerKey && c.consumerSecret == consumerSecret
    ensures c.sandbox == sandbox && c.stkPasskey == []
  {
    AuthConfig(consumerKey, consumerSecret, [], sandbox)
  }
}
