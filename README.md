# M-Pesa C++ SDK: STK push core in Dafny

A model of the request-preparation, token-cache and response-decoding logic
of the M-Pesa C++ SDK. The model covers six parts:

- **The STK push request.** Its phone normalisation, length checks,
  transaction-type names and JSON form.
- **The timestamp.** The `YYYYMMDDHHMMSS` format and its permissive check.
- **The two request validators.** The header's chain of ten checks and the
  divergent chain of eight in `validator.cpp`.
- **The OAuth token manager `Auth`.** Its error taxonomy, the two
  classification tables, the token cache, and `refreshToken` over an
  abstract libcurl exchange.
- **The `STKPushClient`.** Password derivation (standard base64, section 4
  of RFC 4648), the timestamp fixed at construction, and the classification
  of one dispatch into a `Result<T>` with its two counters, including a
  request whose text the serialiser refuses because it is not UTF-8.
- **Result codes and callbacks.** The STK push result codes with
  `to_int`/`from_int` and their descriptions, and the parsing of the
  callback webhook into an `STKCallback` with typed metadata accessors.

Files and modules, one per component:

| file | module | models |
|---|---|---|
| `cpp_std.dfy` | `CppStd` | exceptions as `Outcome<T>`, `std::stoi`, `std::to_string`, integer casts |
| `json.dfy` | `Json` | the nlohmann value, the lookups the core performs on it, and the UTF-8 check of `dump()` |
| `utf8.dfy` | `Utf8` | the strict UTF-8 check nlohmann's serialiser applies to every string it writes |
| `base64.dfy` | `Base64` | standard base64 encoding with its decoder |
| `transport.dfy` | `Transport` | one libcurl exchange as an input, and the request that would be sent |
| `auth_types.dfy` | `AuthTypes` | `AuthErrorCode`, `AuthResponse`, `AuthConfig` |
| `auth.dfy` | `Authentication` | `map_curl_error`, `map_mpesa_error`, `refreshToken`, and the `Auth` class |
| `request.dfy` | `Request` | `STKPushRequest`, `formatPhoneNumber`, the length checks, `toJson` |
| `timestamp.dfy` | `Timestamp` | `TimestampGenerator::generate` and `isValid` |
| `patterns.dfy` | `Patterns` | the validators' regular expressions as predicates over ASCII |
| `validator.dfy` | `Validator` | `Validator::validateSTKPushRequest` of the header |
| `validator_alt.dfy` | `ValidatorAlt` | `validateSTKPushRequest` of `validator.cpp` |
| `error_codes.dfy` | `ErrorCodes` | `STKPushErrorCode`, `to_int`, `from_int`, `getDescription` |
| `response.dfy` | `Response` | `STKPushResponse`, `CallbackMetadataItem`, `STKCallback` and its accessors |
| `callback.dfy` | `Callback` | `CallbackParser::parseCallback` |
| `client.dfy` | `Client` | `Result<T>`, `generatePassword`, the `STKPushClient` class and one dispatch |

How the state-changing parts are modelled:

- **Token manager.** `Auth` is a class with the fields `currentToken`,
  `tokenExpiry` and `lastError`. Each method is proved against a function
  of the old state (`AfterRefresh`, `AfterAccessToken`).
- **Client.** `STKPushClient` is a class holding the `Auth` reference, the
  fixed timestamp and the two counters. `InitiateSTKPush` is proved against
  `DispatchSpec`.
- **Inputs.** The clock is a parameter `now`: seconds for the token cache,
  broken-down UTC fields for the timestamp. Each libcurl exchange is an
  `Exchange` value. It is either `CurlInitFailed`, or `Performed` with the
  CURLcode, its text, the HTTP status and the body, which is parsed JSON or
  the parser's error text.

## Model

| member | source | states |
|---|---|---|
| AuthTypes.CodeValuesBanded | include/mpesa/auth.h:12-40 | every code's value lies in its band's hundred (success is 0; network, auth, server, client, internal are 1xx..5xx) and distinct enumerators have distinct values |
| AuthTypes.DefaultAuthResponse | include/mpesa/auth.h:43-47 | the default response has an empty token, a 3600-second lifetime and SUCCESS |
| AuthTypes.ErrorResponse | include/mpesa/auth.h:43-47 | a response built with only an error code keeps the other defaults |
| AuthTypes.ConfigFromCredentials | include/mpesa/auth.h:64-74 | a configuration from credentials alone is sandbox by default and keeps the key and secret |
| CppStd.AuthenticationErrorKeepsCode | include/mpesa/auth.h:50-61 | `getErrorCode` returns the code the error was built with, and `what()` its message |
| CppStd.StoiOfToString | src/mpesa/auth.cpp:171 | `std::stoi` reads back every non-negative int written in decimal |
| CppStd.StoiRejectsNonNumbers | include/mpesa/stk/validation/timestamp.hpp:69-74 | `std::stoi` throws invalid_argument on a string with no digit |
| CppStd.Wrap32 | include/mpesa/stk/client.hpp:235-236 | the 32-bit cast stays in the int range, agrees with its argument modulo 2^32 and leaves in-range values unchanged |
| Json.Index | src/mpesa/stk/callback.cpp:32 | `operator[]` on a mutable value throws iff the value is neither an object nor null; it returns the bound value of a present key, and null for a null receiver or a missing key |
| Json.IndexConst | src/mpesa/stk/callback.cpp:48 | `operator[]` on a const value succeeds iff the key is present, with its bound value |
| Json.StringField | src/mpesa/auth.cpp:170 | reading a key as a string succeeds iff the key is present and bound to a string, and returns that string |
| Json.GetInt | src/mpesa/stk/callback.cpp:38 | `get<int>()` succeeds exactly on numbers and booleans and stays within the int range; integers and unsigned values are cast modulo 2^32 (unchanged when in range), a float is truncated toward zero and then cast, and a boolean gives 1 or 0 |
| Json.GetInt64 | src/mpesa/stk/callback.cpp:54 | `get<int64_t>()` stays in range and casts integers and unsigned values modulo 2^64, so in-range values are unchanged and an unsigned value above 2^63-1 wraps to a negative one |
| Json.Elements | src/mpesa/stk/callback.cpp:46 | a range-for visits an array's elements in order, an object's values in member order, nothing for null, and a scalar once |
| Base64.Base64Encode | src/mpesa/stk/client.cpp:298-341 | empty input gives empty output; otherwise the output has length 4*ceil(n/3) and contains no newline; it decodes back to the input's bytes |
| Base64.Base64EncodeUnique | src/mpesa/stk/client.cpp:298-341 | the output is the only text that decodes to the input's bytes, so padding bits are zero and the encoding is fully determined |
| Json.CheckUtf8 | src/mpesa/stk/client.cpp:208 | serialising a string succeeds iff its bytes are well-formed UTF-8; otherwise it throws a JSON exception whose text starts "[json.exception.type_error.316] " and names the rejected byte's index and value, or the last byte of a truncated sequence |
| Json.AsciiSerialises | src/mpesa/stk/client.cpp:208 | seven-bit text always serialises |
| Json.DumpCheckError | src/mpesa/stk/client.cpp:208 | `dump()` fails only with a `type_error.316` JSON exception |
| Json.DumpMemberStep | src/mpesa/stk/client.cpp:208 | an object member with a seven-bit key and a string value is serialised by checking that string, then the members after it |
| Json.DumpSkipsAscii | src/mpesa/stk/client.cpp:208 | members whose keys and string values are seven-bit text never make `dump()` fail |
| Utf8.Continuations | src/mpesa/stk/client.cpp:208 | the bytes a lead byte calls for: none for seven-bit bytes, at most three, and none at all (rejection) for 0x80..0xC1 and 0xF5..0xFF, following Table 3-7 of the Unicode Standard |
| Utf8.Follow | src/mpesa/stk/client.cpp:208 | continuation bytes pass iff there are enough of them and each lies in its range; a rejection points at the first byte out of range |
| Utf8.Scan | src/mpesa/stk/client.cpp:208 | a rejection points inside the text; only a non-empty text can be incomplete |
| Utf8.AsciiWellFormed | src/mpesa/stk/client.cpp:208 | seven-bit text is well formed |
| Utf8.WellFormedPrefix | src/mpesa/stk/client.cpp:208 | after a well-formed prefix the verdict is the rest's, its index shifted by the prefix length |
| Utf8.ScalarWellFormed | src/mpesa/stk/client.cpp:208 | the UTF-8 encoding of every Unicode scalar value passes the check |
| Utf8.TextWellFormed | src/mpesa/stk/client.cpp:208 | the UTF-8 encoding of every sequence of scalar values passes the check |
| Utf8.LoneByte | src/mpesa/stk/client.cpp:208 | a single byte: seven-bit passes, 0x80..0xC1 and 0xF5..0xFF are rejected at index 0, a lead byte 0xC2..0xF4 is incomplete |
| Json.Truncate | src/mpesa/stk/callback.cpp:38-39 | the cast of a double to an integer truncates toward zero: the result has the sign of the value and lies less than 1 from it, on the side of zero |
| Base64.QuadCanonical | src/mpesa/auth.cpp:25-43 | a group of four characters that decodes is the encoding of the bytes it decodes to; a padded group is only accepted last |
| Base64.DecodeCanonical | src/mpesa/auth.cpp:25-43 | any text that decodes to a byte string is that byte string's encoding, so base64 output is unique |
| Base64.DecodeEncode | src/mpesa/auth.cpp:25-43 | decoding the encoding of any byte string gives that byte string back |
| Base64.EncodeLength | src/mpesa/stk/client.cpp:303-314 | the encoding of n bytes has 4*ceil(n/3) characters |
| Base64.EncodeAlphabet | src/mpesa/stk/client.cpp:303-314 | every character of the encoding is from the standard alphabet or the padding `=`, so there is no line break |
| Base64.KnownAnswers | src/mpesa/stk/client.cpp:298-341 | "Man" encodes to "TWFu" and "Ma" to "TWE=" |
| Authentication.BaseUrl | include/mpesa/auth.h:112-114 | the base URL is the sandbox URL iff sandbox is set, and is an https URL |
| Authentication.BasicAuthHeader | src/mpesa/auth.cpp:191-195 | the header is "Authorization: Basic " followed by text that decodes to key + ":" + secret; since decoding is canonical (Base64.Base64EncodeUnique), that text is the only one that decodes so |
| Authentication.MapCurlError | src/mpesa/auth.cpp:46-59 | resolve, connect, timeout and SSL failures map to DNS, CONNECTION, TIMEOUT and SSL errors, each iff; every code lands in the network band |
| Authentication.MpesaErrorFor | src/mpesa/auth.cpp:66-83 | a present M-Pesa error code never maps to SUCCESS, and always to an auth- or server-band code |
| Authentication.MapMpesaError | src/mpesa/auth.cpp:62-84 | SUCCESS iff the body has no `errorCode`; a string code is mapped through the fixed table, and a non-string one throws |
| Authentication.ReadTokenBody | src/mpesa/auth.cpp:161-178 | reading the token body step by step computes `TokenFromBody` |
| Authentication.ReadTokenFields | src/mpesa/auth.cpp:170-175 | reading `access_token`, `expires_in` and converting the lifetime step by step computes `TokenFields` |
| Authentication.DocumentedMpesaCodes | src/mpesa/auth.cpp:69-80 | the four documented M-Pesa codes map to INVALID_GRANT_TYPE, INVALID_AUTH_TYPE, INVALID_CREDENTIALS and SERVER_ERROR |
| Authentication.TokenRequestShape | src/mpesa/auth.cpp:123-131 | the token request is a GET to base URL + `/oauth/v1/generate?grant_type=client_credentials` over https, with one Basic header carrying the credentials |
| Authentication.RefreshFailureStages | src/mpesa/auth.cpp:116-167 | each failure stage (no handle, transport error, HTTP status >= 400, unparsable body) gives the default response with its mapped code |
| Authentication.RefreshSucceedsIff | src/mpesa/auth.cpp:147-178 | a refresh succeeds iff transport, status and body are good, `errorCode` is absent, and `access_token` and a numeric `expires_in` are strings; the response carries them |
| Authentication.TokenRoundTrip | src/mpesa/auth.cpp:169-178 | a body with a token and a decimal lifetime yields exactly that token and lifetime, held until now + lifetime |
| Authentication.TokenBodyRead | src/mpesa/auth.cpp:161-171 | such a body passes `map_mpesa_error` and yields that token and lifetime |
| Authentication.FailedRefreshKeepsToken | src/mpesa/auth.cpp:147-167 | a failed refresh records its never-SUCCESS code and keeps the token and its expiry |
| Authentication.RefreshThrowsOnlyStoi | src/mpesa/auth.cpp:171 | the only exception leaving `refreshToken` is std::stoi's on `expires_in` |
| Authentication.CachedTokenServed | src/mpesa/auth.cpp:97-107 | with a token held and `now` before its expiry, the cached token is returned whatever the network says, and nothing changes |
| Authentication.AccessTokenRefreshes | src/mpesa/auth.cpp:100-105 | without a live token a refresh happens; a non-SUCCESS code is raised as AuthenticationError with exactly that code, which is also the recorded last error; a success returns the new token, which is then held |
| Authentication.AccessTokenConsistent | src/mpesa/auth.cpp:97-108 | an AuthenticationError never carries SUCCESS, and every returned token is the one held afterwards |
| Authentication.AccessTokenErrorMessage | src/mpesa/auth.cpp:103 | the AuthenticationError reads "Failed to get access token"; any other exception is std::stoi's |
| Authentication.FetchedTokenReused | src/mpesa/auth.cpp:97-113 | a token fetched at `now` serves every later call before its expiry, whatever that call's exchange |
| Authentication.FreshAuthRefreshes | include/mpesa/auth.h:106-108 | a fresh `Auth` holds no token, so its first `getAccessToken` refreshes |
| Authentication.RefreshAsWrittenAgrees | src/mpesa/auth.cpp:116-183 | the code as written and the model agree wherever the written code returns; where it does not, the model returns PARSE_ERROR |
| Authentication.RefreshAsWrittenFallsOff | src/mpesa/auth.cpp:180-182 | a 200 reply with a body that is not JSON reaches the end of `refreshToken` with nothing to return |
| Authentication.RefreshAsWrittenFallsOffOnJsonErrors | src/mpesa/auth.cpp:157-182 | on any status below 400, a null or array body, a missing or non-string `access_token`, or a non-string `errorCode` also reaches the end of `refreshToken` with nothing to return, where the model reports PARSE_ERROR |
| Authentication.Auth.constructor | src/mpesa/auth.cpp:87-94 | a new `Auth` keeps the configuration, holds no token, and has last error SUCCESS |
| Authentication.Auth.FromCredentials | src/mpesa/auth.cpp:87-94 | the credentials constructor does the same with a sandbox-by-default configuration |
| Authentication.Auth.IsTokenValid | src/mpesa/auth.cpp:111-113 | true iff `now` is before the expiry, without looking at whether a token is held |
| Authentication.Auth.GetBaseUrl | src/mpesa/auth.cpp:186-188 | the sandbox URL iff the configuration says sandbox |
| Authentication.Auth.CreateAuthHeader | src/mpesa/auth.cpp:191-195 | the Basic header of the configured credentials |
| Authentication.Auth.GetLastError | src/mpesa/auth.cpp:203-205 | returns the recorded last error |
| Authentication.Auth.UpdateLastError | src/mpesa/auth.cpp:198-200 | records the code and changes nothing else |
| Authentication.Auth.RefreshToken | src/mpesa/auth.cpp:116-183 | the response is `RefreshSpec` of the exchange, the new state is `AfterRefresh` of the old, and the token request is sent iff a handle was created |
| Authentication.Auth.TryTokenBody | src/mpesa/auth.cpp:159-182 | the try block and its JSON handler compute `TryBody` and update the state to match |
| Authentication.Auth.GetAccessToken | src/mpesa/auth.cpp:97-108 | the result is `AccessTokenSpec` of the old state and the new state is `AfterAccessToken` |
| Request.TransactionTypeToString | include/mpesa/stk/request.hpp:46-55 | PayBill and BuyGoods map to "CustomerPayBillOnline" and "CustomerBuyGoodsOnline", each iff |
| Request.DigitsOf | include/mpesa/stk/request.hpp:76-80 | the digit subsequence is all digits and no longer than the input |
| Request.DigitsOfDigits | include/mpesa/stk/request.hpp:76-80 | a digit string is its own digit subsequence |
| Request.DigitsOfPrefix | include/mpesa/stk/request.hpp:76-80 | non-digits in front do not reach the digit subsequence |
| Request.NoDigits | include/mpesa/stk/request.hpp:76-80 | a string without digits has an empty digit subsequence |
| Request.RemoveNonDigits | include/mpesa/stk/request.hpp:73-80 | the erase/remove_if pass leaves exactly the digit subsequence |
| Request.FormatPhoneNumber | include/mpesa/stk/request.hpp:72-101 | the result depends only on the digit subsequence; success is 12 ASCII digits starting 254; failure is a runtime_error |
| Request.NormalizedShape | include/mpesa/stk/request.hpp:83-100 | which digit strings are accepted: a 254 prefix is kept, a leading 0 becomes 254, 9 bare digits get 254 in front, and the result must have length 12; failures carry one of the two messages |
| Request.FormatIdempotent | include/mpesa/stk/request.hpp:83-100 | formatting a formatted number gives it back |
| Request.FormatExamples | include/mpesa/stk/request.hpp:63-68 | "0712345678" and "+254712345678" both become "254712345678" |
| Request.FormatRejectsSevenDigits | include/mpesa/stk/request.hpp:88-93 | a seven-digit number is refused |
| Request.ToJson | include/mpesa/stk/request.hpp:249-264 | the JSON is an object whose keys are exactly the eleven API names, in order |
| Request.ToJsonDump | include/mpesa/stk/request.hpp:249-264 | when every other field is seven-bit text, `toJson().dump()` fails exactly when the account reference or the description is not UTF-8, with the account reference's error when both are not |
| Request.ApiFieldNamesAscii | include/mpesa/stk/request.hpp:251-261 | the eleven API names are seven-bit text |
| Request.TransactionTypeAscii | include/mpesa/stk/request.hpp:254 | both transaction type names are seven-bit text |
| Request.ToJsonField | include/mpesa/stk/request.hpp:250-262 | each API name reads back the matching field |
| Request.ToJsonFields | include/mpesa/stk/request.hpp:249-264 | the object's keys are the eleven API names, and each name reads back its own field: AccountReference, Amount, BusinessShortCode, CallBackURL, PartyA, PartyB, Password, PhoneNumber, Timestamp and TransactionDesc the request's, TransactionType the type's API name |
| Timestamp.Pad | include/mpesa/stk/validation/timestamp.hpp:47 | a padded field has exactly its width in digits |
| Timestamp.PadValue | include/mpesa/stk/validation/timestamp.hpp:47 | a padded number reads back as itself |
| Timestamp.Format | include/mpesa/stk/validation/timestamp.hpp:45-50 | the formatted fields are 14 ASCII digits |
| Timestamp.Generate | include/mpesa/stk/validation/timestamp.hpp:34-51 | `generate` writes 14 ASCII digits |
| Timestamp.ReadFieldsOfDigits | include/mpesa/stk/validation/timestamp.hpp:69-74 | on 14 digits every conversion returns the value of its digits, so the handler of `isValid` is never reached |
| Timestamp.IsValidIff | include/mpesa/stk/validation/timestamp.hpp:64-86 | `isValid` holds iff the string is 14 digits and month, day, hour, minute and second are each in range |
| Timestamp.IsValidByDigits | include/mpesa/stk/validation/timestamp.hpp:66-80 | the same with each two-digit field spelled out |
| Timestamp.FormatRoundTrip | include/mpesa/stk/validation/timestamp.hpp:45-50 | formatted fields read back unchanged, and `isValid` accepts them iff they are in range |
| Timestamp.GenerateRoundTrip | include/mpesa/stk/validation/timestamp.hpp:34-86 | what `generate` writes is accepted by `isValid` and reads back as the time formatted |
| Timestamp.GenerateInjective | include/mpesa/stk/validation/timestamp.hpp:34-51 | distinct instants give distinct timestamps |
| Timestamp.IsValidIgnoresCalendar | include/mpesa/stk/validation/timestamp.hpp:77 | February 31st passes |
| Timestamp.IsValidIgnoresYear | include/mpesa/stk/validation/timestamp.hpp:69 | year 0000 passes |
| Timestamp.IsValidRejectsMonth13 | include/mpesa/stk/validation/timestamp.hpp:76 | month 13 is refused |
| Patterns.PositiveAmountValue | include/mpesa/stk/validation/validator.hpp:69 | a digit string is a positive amount iff it is non-empty and does not start with 0 |
| Patterns.SafaricomPhoneIsKenyan | src/mpesa/stk/validation/validator.cpp:18 | every 2547 number matches the 254 pattern, and a 254 number is a 2547 number iff its fourth digit is 7 |
| Patterns.HostPathMatchesLanguage | include/mpesa/stk/validation/validator.hpp:71-76 | the URL matcher after the scheme accepts exactly the labels-dot-TLD-slash-path language of the pattern |
| Patterns.HttpsUrlLanguage | include/mpesa/stk/validation/validator.hpp:71-76 | the header's URL check accepts exactly the https strings its pattern describes |
| Patterns.HttpUrlLanguage | src/mpesa/stk/validation/validator.cpp:20-24 | the source-file URL check accepts exactly the http or https strings its pattern describes, with a TLD of 2 to 6 letters |
| Patterns.UrlWithoutPathFails | include/mpesa/stk/validation/validator.hpp:71-76 | an https URL with no slash after the host is refused by both checks |
| Patterns.HttpsUrlWithShortTldIsHttpUrl | src/mpesa/stk/validation/validator.cpp:20-24 | a URL the header accepts whose TLD has at most six letters passes the source-file check too |
| Patterns.PlainHttpOnlyInSourceFileCheck | src/mpesa/stk/validation/validator.cpp:21 | a plain-http URL passes only the source-file check |
| Patterns.LongTldOnlyInHeaderCheck | src/mpesa/stk/validation/validator.cpp:22 | an https URL with a TLD of seven letters or more passes only the header check |
| Patterns.UrlChecksDiffer | src/mpesa/stk/validation/validator.cpp:20-24 | concrete URLs separate the two checks in both directions |
| Validator.Success | include/mpesa/stk/validation/validator.hpp:41-45 | a success is valid with an empty error |
| Validator.Failure | include/mpesa/stk/validation/validator.hpp:47-52 | a failure is invalid and carries its message |
| Validator.FirstFailureSpec | include/mpesa/stk/validation/validator.hpp:78-127 | a chain succeeds iff every check passes, and otherwise reports the message of the earliest failing check |
| Validator.ValidatedFieldsAscii | include/mpesa/stk/validation/validator.hpp:78-127 | a request the validator accepts has seven-bit short code, PartyB, timestamp, PartyA, phone number, callback URL and amount |
| Patterns.PositiveAmountAscii | include/mpesa/stk/validation/validator.hpp:69 | an amount the pattern accepts is seven-bit text |
| Patterns.SafaricomPhoneAscii | include/mpesa/stk/validation/validator.hpp:70 | a phone number the pattern accepts is seven-bit text |
| Patterns.HttpsUrlAscii | include/mpesa/stk/validation/validator.hpp:71-76 | a callback URL the pattern accepts is seven-bit text |
| Validator.ValidateIsChain | include/mpesa/stk/validation/validator.hpp:78-127 | the validator is the ordered chain: short code, password, timestamp, partyA, phone, partyB, URL, amount, account reference, description |
| Validator.ValidateAcceptsExactly | include/mpesa/stk/validation/validator.hpp:66-128 | accepted with an empty error iff all ten requirements hold; a refusal carries the non-empty message of the first one missed |
| Validator.ShortCodeExamples | include/mpesa/stk/validation/validator.hpp:68 | "174379" and "17437" are short codes and "1743790" is not |
| Validator.PartyBMustEqualShortCode | include/mpesa/stk/validation/validator.hpp:103-105 | a partyB different from the short code is refused whatever the transaction type |
| Validator.FormattedPhoneCheck | include/mpesa/stk/validation/validator.hpp:70 | a formatted phone passes the header's check iff its fourth digit is 7 |
| Validator.CallbackUrlAccepted | include/mpesa/stk/validation/validator.hpp:71-76 | every URL of the usual shape, "https://", a host label, a dot, a top-level domain, a slash and a path (such as "https://example.com/callback"), passes |
| Validator.CallbackUrlNeedsPath | include/mpesa/stk/validation/validator.hpp:108-110 | a callback URL with no slash after "https://" (such as "https://example.com") is refused, and a request that passes the six earlier checks then fails with the URL message |
| ValidatorAlt.ValidateIsChain | src/mpesa/stk/validation/validator.cpp:26-64 | this validator is the ordered chain: short code, amount, partyA, phone, partyB, URL, account reference, description |
| ValidatorAlt.ValidateAcceptsExactly | src/mpesa/stk/validation/validator.cpp:15-65 | accepted iff all eight requirements hold; a refusal carries the non-empty message of the first one missed |
| ValidatorAlt.IgnoresPasswordAndTimestamp | src/mpesa/stk/validation/validator.cpp:26-64 | password and timestamp do not affect the verdict |
| ValidatorAlt.PartyBNeedNotMatch | src/mpesa/stk/validation/validator.cpp:46-48 | any short-code-shaped partyB is accepted, equal to the short code or not |
| ValidatorAlt.HeaderAcceptedIsAcceptedHereUpToUrl | src/mpesa/stk/validation/validator.cpp:26-64 | whatever the header validator accepts is accepted here or refused only for its URL |
| ValidatorAlt.PhoneRulesDiffer | src/mpesa/stk/validation/validator.cpp:37-43 | "254112345678" passes here and fails the header's phone check |
| ValidatorAlt.FormattedPhonePasses | src/mpesa/stk/validation/validator.cpp:37-43 | every number `formatPhoneNumber` produces passes this phone check |
| ErrorCodes.ToInt | include/mpesa/stk/validation/error_codes.hpp:52-54 | `to_int` stays within the int range |
| ErrorCodes.FromInt | include/mpesa/stk/validation/error_codes.hpp:61-74 | `from_int` always yields a declared enumerator |
| ErrorCodes.DeclaredValues | include/mpesa/stk/validation/error_codes.hpp:22-54 | each enumerator's integer is the declared one, e.g. UserCanceled 1032 and Unknown -1 |
| ErrorCodes.FromIntRecognisesKnownCodes | include/mpesa/stk/validation/error_codes.hpp:61-73 | `from_int` avoids Unknown iff the integer is one of the nine known codes, and then returns the code with that integer |
| ErrorCodes.FromIntToInt | include/mpesa/stk/validation/error_codes.hpp:52-74 | `from_int(to_int(c)) == c` for every enumerator including Unknown; any other cast value comes back as Unknown |
| ErrorCodes.ToIntFromInt | include/mpesa/stk/validation/error_codes.hpp:61-73 | `to_int(from_int(n)) == n` iff n is a known code or -1; otherwise it is -1 |
| ErrorCodes.Description | include/mpesa/stk/validation/error_codes.hpp:88-111 | every code, named or not, has a non-empty description |
| ErrorCodes.DescriptionCatchAll | include/mpesa/stk/validation/error_codes.hpp:108-109 | the catch-all sentence is given iff the code is not one of the nine known codes |
| ErrorCodes.DescriptionsDistinct | include/mpesa/stk/validation/error_codes.hpp:89-109 | the ten enumerators have pairwise distinct descriptions |
| Response.FindItemFirst | include/mpesa/stk/response.hpp:93-94 | the lookup finds the value of the first item with the name, and nothing when no item has it |
| Response.FindItemWitness | include/mpesa/stk/response.hpp:93-94 | a found value belongs to an item with that name |
| Response.STKCallback.MetadataValueNamed | include/mpesa/stk/response.hpp:93-94 | absent metadata gives nothing; a value found belongs to an item with that name |
| Response.STKCallback.GetText | include/mpesa/stk/response.hpp:93-94 | a string is returned iff the named value exists and holds a string, and it is that string |
| Response.STKCallback.GetReal | include/mpesa/stk/response.hpp:93-94 | a double is returned iff the named value exists and holds a double, and it is that double |
| Response.STKCallback.GetInteger | include/mpesa/stk/response.hpp:93-94 | an int64 is returned iff the named value exists and holds an int64, and it is that integer |
| Response.TypedLookupsExclusive | include/mpesa/stk/response.hpp:43-46 | absent metadata gives nothing to every accessor, and at most one typed lookup of a name yields a value |
| Response.AccessorExamples | include/mpesa/stk/response.hpp:62-84 | the four named accessors read Amount as a double, the receipt and phone as strings, and the date as an int64; a phone delivered as an integer reads as empty |
| Callback.DecodeValue | src/mpesa/stk/callback.cpp:51-60 | a float becomes a double, an integer an int64, a string itself, anything else its serialised text |
| Callback.IntField | src/mpesa/stk/callback.cpp:37-38 | a present key is read with `get<int>()` |
| Callback.DecodeItemsFailingPrefix | src/mpesa/stk/callback.cpp:46-63 | the first item that fails decides the error of the whole list |
| Callback.DecodeItemsLoop | src/mpesa/stk/callback.cpp:44-63 | the item loop with `push_back` computes `DecodeItems` |
| Callback.DecodeItemsShape | src/mpesa/stk/callback.cpp:46-62 | decoded items keep the array's order and count, each item decoded on its own |
| Callback.DecodeItemSpec | src/mpesa/stk/callback.cpp:47-60 | an item decodes iff it has a string Name and some Value; the name is copied and the value typed |
| Callback.ParseFields | src/mpesa/stk/callback.cpp:31-68 | the try block computes `CallbackFromJson` |
| Callback.ParseCallback | src/mpesa/stk/callback.cpp:29-72 | `parseCallback` computes `ParseCallbackSpec` |
| Callback.ParsedFields | src/mpesa/stk/callback.cpp:32-65 | a parse copies the three strings verbatim, keeps the raw result code, and has metadata iff `CallbackMetadata.Item` exists, decoded from it |
| Callback.UnknownResultCodeKept | src/mpesa/stk/callback.cpp:37-38 | a result code that names no enumerator is kept, not normalised to Unknown |
| Callback.FailuresArePrefixed | src/mpesa/stk/callback.cpp:69-71 | every failure, parse errors included, is a runtime_error starting "Failed to parse callback: " |
| Callback.MissingMerchantIdFails | src/mpesa/stk/callback.cpp:35 | a missing MerchantRequestID is a failure |
| Client.Result.IsSuccess | include/mpesa/stk/client.hpp:77 | `success()` iff `value()` answers |
| Client.Result.Value | include/mpesa/stk/client.hpp:86-89 | the value of a success; a runtime_error on a failure |
| Client.Result.Error | include/mpesa/stk/client.hpp:98-101 | the message of a failure; a runtime_error on a success |
| Client.ResultAccessors | include/mpesa/stk/client.hpp:65-101 | exactly one of `value()` and `error()` answers, each giving back what the result was built with |
| Client.GeneratePassword | src/mpesa/stk/client.cpp:144-151 | the password decodes to short code, passkey and timestamp byte for byte, with length 4*ceil(n/3); since decoding is canonical (Base64.Base64EncodeUnique), that text is the only one that decodes so |
| Client.PasswordDecodes | src/mpesa/stk/client.cpp:144-151 | the same for the concatenation; the password is empty iff all three parts are |
| Client.Stamp | src/mpesa/stk/client.cpp:177-182 | stamping sets the timestamp and a password decoding to short code + passkey + timestamp, and changes nothing else |
| Client.StampSatisfiesPasswordAndTimestamp | src/mpesa/stk/client.cpp:177-194 | with a valid timestamp, a stamped request is never refused for its password or timestamp |
| Client.RefusalNotForStamp | include/mpesa/stk/validation/validator.hpp:84-91 | a request with a password and a valid timestamp is never refused with the password or timestamp message |
| Client.ConstructedStampAccepted | src/mpesa/stk/client.cpp:116-117 | the timestamp fixed at construction never makes a stamped request fail on password or timestamp |
| Client.ValidationFailureSendsNothing | src/mpesa/stk/client.cpp:190-194 | a refused request fails with the validator's non-empty message, sends nothing and leaves the token state |
| Client.TokenFailureReported | src/mpesa/stk/client.cpp:260-263 | a token that cannot be had fails the dispatch as "Request error: " + its message, and nothing is sent |
| Client.SentRequestShape | src/mpesa/stk/client.cpp:199-213 | with a token and a request the serialiser accepts, a POST of the stamped request's JSON goes to base URL + push endpoint with the bearer and content-type headers |
| Client.UnserialisableRequestFails | src/mpesa/stk/client.cpp:199-208 | once the token is in hand, a request whose JSON `dump()` refuses fails as "Request error: " + nlohmann's `type_error.316` text, sends nothing, and leaves the token state after `getAccessToken` |
| Client.StampedRequestDump | src/mpesa/stk/client.cpp:208 | for a stamped request the validator accepts, `dump()` fails exactly when the account reference or the description is not UTF-8, reporting the account reference first; seven-bit text in both always serialises |
| Client.PasswordAscii | src/mpesa/stk/client.cpp:144-151 | the generated password is seven-bit text |
| Client.NonUtf8AccountReference | src/mpesa/stk/client.cpp:208 | a string made of the single byte 0xFF is refused with "[json.exception.type_error.316] invalid UTF-8 byte at index 0: 0xFF" |
| Client.NonUtf8ReferenceReported | src/mpesa/stk/client.cpp:199-262 | a valid request whose account reference is the byte 0xFF fails, once the token is in hand, with "Request error: [json.exception.type_error.316] invalid UTF-8 byte at index 0: 0xFF" and sends nothing |
| Client.SuccessBodyThrowsJson | src/mpesa/stk/client.cpp:242-258 | every exception of the success branch is a JSON exception |
| Client.PushFailures | src/mpesa/stk/client.cpp:225-258 | transport error gives "CURL error: ..."; status >= 400 gives "API Error: msg (Code: c)" when readable, else "HTTP error: status"; a bad success body gives "JSON parse error: ..." |
| Client.PushSucceedsIff | src/mpesa/stk/client.cpp:242-253 | success iff transport ok, status below 400 and all five fields are strings; they are copied verbatim |
| Client.ResponseRoundTrip | src/mpesa/stk/client.cpp:243-253 | a response as the API sends it is read back field for field |
| Client.ResponseFieldsRead | src/mpesa/stk/client.cpp:246-250 | each of the five names reads back its field |
| Client.STKPushClient.constructor | src/mpesa/stk/client.cpp:116-119 | keeps the auth reference, fixes the timestamp generated at construction, and starts both counters at 0 |
| Client.STKPushClient.GetSuccessCount | include/mpesa/stk/client.hpp:217 | reads the success counter |
| Client.STKPushClient.GetFailureCount | include/mpesa/stk/client.hpp:225 | reads the failure counter |
| Client.STKPushClient.InitiateSTKPush | src/mpesa/stk/client.cpp:175-265 | the result and the sent request are `DispatchSpec` of the stamped request (validation, handle, token, serialisation, exchange); the token state follows `TokenStateAfter`; exactly one counter is incremented |
| Client.STKPushClient.Send | src/mpesa/stk/client.cpp:199-262 | after validation and handle creation: `SendSpec` of the old token state (a token failure or a `dump()` failure gives "Request error: " + its message and sends nothing), the token state after `getAccessToken`, and exactly one counter incremented |

## Left out

- Concurrency is not modelled. `std::async`, `std::future`, the atomics and the token mutex are replaced by one sequential dispatch. Two dispatches never interleave in the model.
- libcurl is an input. An exchange is `CurlInitFailed` or `Performed(code, text, status, body)`. The `CurlWrapper` and its timeouts, `WriteCallback`, `curl_global_init`/`curl_global_cleanup` and the header lists are not modelled. `curl_easy_strerror` is part of the input (the text).
- OpenSSL is not modelled. The BIO pipeline in `Base64Encode` and `base64_encode` is replaced by a standard base64 encoder with its decoder. The OpenSSL failure exceptions are not modelled.
- nlohmann JSON is modelled only as far as needed. Parsing itself is the `Payload` input: parsed JSON, or the parser's error text. `dump()` of a metadata value is a function parameter. Objects keep their members in the library's iteration order. For the request's `dump()` the model keeps only whether it succeeds and its `type_error.316` message (the strict UTF-8 check over keys and strings); the serialised text itself, with its escapes, is not modelled, and `Transport.HttpRequest` carries the JSON value instead.
- The clock is a parameter.
  - `TimestampGenerator::generate` formats a given `UtcTime`, which is required to be a calendar date with a four-digit year.
  - The token cache uses one `now` per call, both for the validity test and for the new expiry.
- Timestamp.Generate: years outside 1000..9999 are not modelled, because `strftime` would write them with another number of digits.
- Floating-point values are opaque. Metadata doubles and `getAmount` are carried without arithmetic. A float's conversion by `get<int>()` truncates toward zero.
- Json.GetInt: a float whose truncation lies outside the int range is undefined behaviour in C++ (`static_cast<int>` of such a double); the model wraps it modulo 2^32 like an integer, which the source does not promise.
- Not modelled (file and environment loading): `AuthConfig::from_file`, `AuthConfig::from_env` and `load_request_from_file`.
- Not modelled (declared only, or demonstration code): `STKPushClient::log` and the example program.
- The passkey is a field of `AuthConfig`. `client.cpp:179` reads `getConfig().stk_passkey`, but `auth.h` declares neither.
- `createStkPushAuthHeader` calls the non-const `getAccessToken` from a const method (`client.cpp:282`). The model lets the dispatch update the token manager.
- A const `operator[]` with a missing key is undefined behaviour in nlohmann. The model reports it as `at()` would, with out_of_range.403.
- `getMetadataValue` is declared but its definition is not part of this model. The model takes the first item with the name.
- `validator.cpp` defines `Validator::validateSTKPushRequest` a second time, besides the inline definition in `validator.hpp`, so the two cannot be linked into one program. The model keeps both, as `Validator` and `ValidatorAlt`.
- Authentication.Auth.RefreshToken: on any status below 400, whenever reading the body throws a JSON exception, the model returns PARSE_ERROR. The source records PARSE_ERROR and then falls off the end of the function (see Findings). This covers a body that is not JSON, a null or array body, a missing or non-string `access_token` or `expires_in`, and a non-string `errorCode`.
- Characters are bytes. A `string` stands for a `std::string`, one character per byte. Characters at or above 256 have no counterpart in the source: `Octets` folds them modulo 256, and the length checks (`AccountReference`, `TransactionDesc`, the password) count characters where the source counts bytes, so a multi-byte UTF-8 text is not measured as the source measures it.

## Findings

| source | as written | input that shows it | evidently intended | confidence | as-written member | corrected member |
|---|---|---|---|---|---|---|
| src/mpesa/auth.cpp:180-182 | the JSON exception handler of `refreshToken` records PARSE_ERROR and then reaches the end of a value-returning function without a return, which is undefined behaviour | any status below 400 with a body whose reading throws a JSON exception: a body that is not JSON, a null or array body, a missing or non-string `access_token` or `expires_in`, or a non-string `errorCode` | return `AuthResponse{.error_code = PARSE_ERROR}` like every other failure path | not executed | Authentication.RefreshAsWrittenFallsOff, Authentication.RefreshAsWrittenFallsOffOnJsonErrors | Authentication.RefreshAsWrittenAgrees |
