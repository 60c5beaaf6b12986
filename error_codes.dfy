/** The result codes of an STK push (`STKPushErrorCode`), their integer
    conversions and their descriptions. The enumeration has `int` as its
    underlying type, so besides the ten named enumerators it can hold any
    other `int` produced by a cast. */
module ErrorCodes {
  import opened CppStd

  /** A value of `enum class STKPushErrorCode : int`. */
  newtype STKPushErrorCode = x: int | -0x8000_0000 <= x <= 0x7fff_ffff

  const Success: STKPushErrorCode := 0
  const InsufficientBalance: STKPushErrorCode := 1
  const InvalidInitiator: STKPushErrorCode := 2001
  const TransactionExpired: STKPushErrorCode := 1019
  const SubscriberLocked: STKPushErrorCode := 1001
  const UserCanceled: STKPushErrorCode := 1032
  const PushRequestError: STKPushErrorCode := 1025
  const SystemError: STKPushErrorCode := 9999
  const DSTimeout: STKPushErrorCode := 1037
  const Unknown: STKPushErrorCode := -1

  /** The nine codes the API reports, each with its own enumerator. */
  const KnownCodes: seq<STKPushErrorCode> := [
    Success, InsufficientBalance, InvalidInitiator, TransactionExpired, SubscriberLocked,
    UserCanceled, PushRequestError, SystemError, DSTimeout]

  /** The ten declared enumerators. */
  predicate IsEnumerator(c: STKPushErrorCode)
  {
    c in KnownCodes || c == Unknown
  }

  /** `to_int`: the underlying integer. */
  function ToInt(c: STKPushErrorCode): (n: int)
    ensures INT_MIN <= n <= INT_MAX
  {
    c as int
  }

  /** `from_int`: the enumerator declared with that integer; anything else is Unknown. */
  function FromInt(n: int): (c: STKPushErrorCode)
    requires INT_MIN <= n <= INT_MAX
    ensures IsEnumerator(c)
  {
    match n
    case 0 => Success
    case 1 => InsufficientBalance
    case 2001 => InvalidInitiator
    case 1019 => TransactionExpired
    case 1001 => SubscriberLocked
    case 1032 => UserCanceled
    case 1025 => PushRequestError
    case 9999 => SystemError
    case 1037 => DSTimeout
    case _ => Unknown
  }

  /** The declared integers, for instance 1032 for UserCanceled and -1 for Unknown. */
  lemma DeclaredValues()
    ensures ToInt(Success) == 0 && ToInt(InsufficientBalance) == 1 && ToInt(InvalidInitiator) == 2001
    ensures ToInt(TransactionExpired) == 1019 && ToInt(SubscriberLocked) == 1001
    ensures ToInt(UserCanceled) == 1032 && ToInt(PushRequestError) == 1025
    ensures ToInt(SystemError) == 9999 && ToInt(DSTimeout) == 1037 && ToInt(Unknown) == -1
  {
  }

  /** `from_int` recognises exactly the nine known codes. */
  lemma FromIntRecognisesKnownCodes(n: int)
    requires INT_MIN <= n <= INT_MAX
    ensures FromInt(n) != Unknown <==> n as STKPushErrorCode in KnownCodes
    ensures FromInt(n) != Unknown ==> ToInt(FromInt(n)) == n
  {
  }

  /** Every enumerator survives the round trip through its integer, Unknown
      included; a cast value that is no enumerator comes back as Unknown. */
  lemma FromIntToInt(c: STKPushErrorCode)
    ensures IsEnumerator(c) ==> FromInt(ToInt(c)) == c
    ensures !IsEnumerator(c) ==> FromInt(ToInt(c)) == Unknown
  {
  }

  /** The integer comes back unchanged iff it is a known code or -1; any
      other integer comes back as -1. */
  lemma ToIntFromInt(n: int)
    requires INT_MIN <= n <= INT_MAX
    ensures ToInt(FromInt(n)) == n <==> (n as STKPushErrorCode in KnownCodes || n == -1)
    ensures ToInt(FromInt(n)) != n ==> ToInt(FromInt(n)) == -1
  {
  }

  const UnknownDescription := "Unknown error occurred."

  /** `ErrorDescription::getDescription`: a fixed sentence per known code,
      and the catch-all for Unknown and for every value without an enumerator. */
  function Description(c: STKPushErrorCode): (d: string)
    ensures |d| > 0
  {
    if c == Success then "The service request is processed successfully."
    else if c == InsufficientBalance then "The balance is insufficient for the transaction."
    else if c == InvalidInitiator then "The initiator information is invalid."
    else if c == TransactionExpired then "Transaction has expired."
    else if c == SubscriberLocked then "Unable to lock subscriber, a transaction is already in process."
    else if c == UserCanceled then "The request was canceled by the user."
    else if c == PushRequestError then "An error occurred while sending a push request."
    else if c == SystemError then "A system error occurred."
    else if c == DSTimeout then "DS timeout, user cannot be reached."
    else UnknownDescription
  }

  /** Exactly the nine known codes have a description of their own. */
  lemma DescriptionCatchAll(c: STKPushErrorCode)
    ensures Description(c) == UnknownDescription <==> c !in KnownCodes
  {
  }

  /** The nine known codes and Unknown have pairwise distinct descriptions,
      so a description identifies its enumerator. */
  lemma DescriptionsDistinct(c: STKPushErrorCode, d: STKPushErrorCode)
    requires IsEnumerator(c) && IsEnumerator(d)
    requires Description(c) == Description(d)
    ensures c == d
  {
    DescriptionShape(c);
    DescriptionShape(d);
  }

  /** The length and fifth character of each enumerator's description:
      no two enumerators share both. */
  lemma DescriptionShape(c: STKPushErrorCode)
    ensures c == Success ==> |Description(c)| == 46
    ensures c == InsufficientBalance ==> |Description(c)| == 48
    ensures c == InvalidInitiator ==> |Description(c)| == 37 && Description(c)[4] == 'i'
    ensures c == TransactionExpired ==> |Description(c)| == 24 && Description(c)[0] == 'T'
    ensures c == SubscriberLocked ==> |Description(c)| == 63
    ensures c == UserCanceled ==> |Description(c)| == 37 && Description(c)[4] == 'r'
    ensures c == PushRequestError ==> |Description(c)| == 47
    ensures c == SystemError ==> |Description(c)| == 24 && Description(c)[0] == 'A'
    ensures c == DSTimeout ==> |Description(c)| == 35
    ensures c == Unknown ==> |Description(c)| == 23
  {
    DescriptionShapeFirst(c);
    DescriptionShapeLast(c);
  }

  lemma DescriptionShapeFirst(c: STKPushErrorCode)
    ensures c == Success ==> |Description(c)| == 46
    ensures c == InsufficientBalance ==> |Description(c)| == 48
    ensures c == InvalidInitiator ==> |Description(c)| == 37 && Description(c)[4] == 'i'
    ensures c == TransactionExpired ==> |Description(c)| == 24 && Description(c)[0] == 'T'
    ensures c == SubscriberLocked ==> |Description(c)| == 63
  {
  }

  lemma DescriptionShapeLast(c: STKPushErrorCode)
    ensures c == UserCanceled ==> |Description(c)| == 37 && Description(c)[4] == 'r'
    ensures c == PushRequestError ==> |Description(c)| == 47
    ensures c == SystemError ==> |Description(c)| == 24 && Description(c)[0] == 'A'
    ensures c == DSTimeout ==> |Description(c)| == 35
    ensures c == Unknown ==> |Description(c)| == 23
  {
  }
}
