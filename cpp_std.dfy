/** The pieces of the C++ standard library the SDK leans on: exceptions,
    std::optional, the ASCII digit test, std::stoi, std::to_string and the
    two's-complement integer casts. */
module CppStd {
  import opened AuthTypes

  datatype Option<+T> = None | Some(value: T)

  /** The exceptions the modelled code can throw, each with its `what()` text. */
  datatype Exception =
    | RuntimeError(message: string)                        // std::runtime_error
    | InvalidArgument(message: string)                     // std::invalid_argument
    | OutOfRange(message: string)                          // std::out_of_range
    | JsonException(message: string)                       // nlohmann::json::exception
    | AuthenticationError(message: string, code: AuthErrorCode)  // mpesa::AuthenticationError
  {
    function What(): string { message }

    /** `AuthenticationError::getErrorCode`. */
    function GetErrorCode(): AuthErrorCode
      requires AuthenticationError?
    {
      code
    }
  }

  /** The result of a C++ call that either returns a value or throws. */
  datatype Outcome<+T> = Returns(value: T) | Throws(error: Exception)
  {
    predicate IsFailure() { Throws? }

    function PropagateFailure<U>(): Outcome<U>
      requires Throws?
    {
      Throws(error)
    }

    function Extract(): T
      requires Returns?
    {
      value
    }
  }

  /** An AuthenticationError reports exactly the code it was built with. */
  lemma AuthenticationErrorKeepsCode(message: string, code: AuthErrorCode)
    ensures AuthenticationError(message, code).GetErrorCode() == code
    ensures AuthenticationError(message, code).What() == message
  {
  }

  predicate IsPrefix(p: string, s: string)
  {
    |p| <= |s| && s[..|p|] == p
  }

  // ---------------------------------------------------------------- digits

  /** `std::isdigit` in the C locale. */
  predicate IsDigit(c: char)
  {
    '0' <= c <= '9'
  }

  predicate AllDigits(s: string)
  {
    forall i :: 0 <= i < |s| ==> IsDigit(s[i])
  }

  /** Seven-bit text: every character below 0x80. */
  predicate IsAscii(s: string)
  {
    forall i :: 0 <= i < |s| ==> (s[i] as int) < 0x80
  }

  lemma DigitsAreAscii(s: string)
    requires AllDigits(s)
    ensures IsAscii(s)
  {
    assert forall i :: 0 <= i < |s| ==> IsDigit(s[i]);
  }

  function DigitValue(c: char): nat
    requires IsDigit(c)
  {
    (c as int) - ('0' as int)
  }

  function DigitChar(d: nat): char
    requires d < 10
  {
    (('0' as int) + d) as char
  }

  /** The value of a string of decimal digits, most significant first. */
  function DigitsValue(s: string): nat
    requires AllDigits(s)
  {
    if |s| == 0 then 0 else 10 * DigitsValue(s[..|s| - 1]) + DigitValue(s[|s| - 1])
  }

  /** `std::to_string` of a non-negative value: decimal, no leading zeros. */
  function NatToString(n: nat): (s: string)
    ensures 1 <= |s| && AllDigits(s)
    ensures s[0] == '0' ==> n == 0
  {
    if n < 10 then [DigitChar(n)] else NatToString(n / 10) + [DigitChar(n % 10)]
  }

  /** `std::to_string` of a (possibly negative) integer. */
  function IntToString(n: int): string
  {
    if n < 0 then "-" + NatToString(-n) else NatToString(n)
  }

  /** Reading back what NatToString writes gives the number again. */
  lemma {:induction false} NatToStringValue(n: nat)
    ensures DigitsValue(NatToString(n)) == n
    ensures |NatToString(n)| <= 1 || n >= 10
  {
    if n >= 10 {
      var s := NatToString(n);
      assert s[..|s| - 1] == NatToString(n / 10);
      NatToStringValue(n / 10);
    }
  }

  /** A string of k digits is worth less than 10^k. */
  lemma {:induction false} DigitsValueBound(s: string)
    requires AllDigits(s)
    ensures DigitsValue(s) < Pow10(|s|)
  {
    if |s| > 0 {
      DigitsValueBound(s[..|s| - 1]);
    }
  }

  function Pow10(k: nat): (p: nat)
    ensures p >= 1
  {
    if k == 0 then 1 else 10 * Pow10(k - 1)
  }

  // ---------------------------------------------------------------- std::stoi

  const INT_MIN: int := -0x8000_0000
  const INT_MAX: int := 0x7fff_ffff

  /** `std::isspace` in the C locale. */
  predicate IsSpace(c: char)
  {
    c == ' ' || c == '\t' || c == '\n' || c == 11 as char || c == 12 as char || c == '\r'
  }

  function SkipSpace(s: string): (r: string)
    ensures |r| <= |s| && r == s[|s| - |r|..]
    ensures |r| > 0 ==> !IsSpace(r[0])
  {
    if |s| > 0 && IsSpace(s[0]) then SkipSpace(s[1..]) else s
  }

  /** The longest prefix of `s` made of decimal digits. */
  function DigitPrefix(s: string): (d: string)
    ensures AllDigits(d) && IsPrefix(d, s)
    ensures |d| < |s| ==> !IsDigit(s[|d|])
  {
    if |s| > 0 && IsDigit(s[0]) then [s[0]] + DigitPrefix(s[1..]) else []
  }

  /** `std::stoi(s)`: strtol in base 10 (leading white space, an optional sign,
      then the longest run of digits; trailing text ignored), throwing
      invalid_argument when no digit was read and out_of_range when the value
      does not fit an `int`. */
  function Stoi(s: string): Outcome<int>
  {
    var t := SkipSpace(s);
    var negative := |t| > 0 && t[0] == '-';
    var unsigned := if |t| > 0 && (t[0] == '-' || t[0] == '+') then t[1..] else t;
    var d := DigitPrefix(unsigned);
    if |d| == 0 then Throws(InvalidArgument("stoi"))
    else
      var magnitude: int := DigitsValue(d);
      var v := if negative then -magnitude else magnitude;
      if v < INT_MIN || INT_MAX < v then Throws(OutOfRange("stoi")) else Returns(v)
  }

  lemma {:induction false} DigitPrefixOfDigits(s: string, rest: string)
    requires AllDigits(s)
    requires |rest| == 0 || !IsDigit(rest[0])
    ensures DigitPrefix(s + rest) == s
  {
    if |s| > 0 {
      assert (s + rest)[1..] == s[1..] + rest;
      DigitPrefixOfDigits(s[1..], rest);
    } else {
      assert s + rest == rest;
    }
  }

  /** A non-empty run of digits with a value that fits an int reads back as that value. */
  lemma StoiOfDigits(s: string)
    requires 1 <= |s| && AllDigits(s) && DigitsValue(s) <= INT_MAX
    ensures Stoi(s) == Returns(DigitsValue(s))
  {
    assert !IsSpace(s[0]);
    assert SkipSpace(s) == s;
    assert !(s[0] == '-' || s[0] == '+');
    assert s + [] == s;
    DigitPrefixOfDigits(s, []);
    assert DigitPrefix(s) == s;
  }

  /** std::stoi inverts std::to_string on the non-negative ints. */
  lemma StoiOfToString(n: nat)
    requires n <= INT_MAX
    ensures Stoi(NatToString(n)) == Returns(n)
  {
    NatToStringValue(n);
    StoiOfDigits(NatToString(n));
  }

  /** Nothing readable as a number throws invalid_argument. */
  lemma StoiRejectsNonNumbers(s: string)
    requires forall i :: 0 <= i < |s| ==> !IsDigit(s[i])
    ensures Stoi(s) == Throws(InvalidArgument("stoi"))
  {
    var t := SkipSpace(s);
    var unsigned := if |t| > 0 && (t[0] == '-' || t[0] == '+') then t[1..] else t;
    assert forall i :: 0 <= i < |unsigned| ==> !IsDigit(unsigned[i]);
  }

  // ---------------------------------------------------------------- casts

  /** `static_cast<int32_t>` of an integer (two's complement, modulo 2^32). */
  function Wrap32(n: int): (r: int)
    ensures INT_MIN <= r <= INT_MAX
    ensures (r - n) % 0x1_0000_0000 == 0
    ensures INT_MIN <= n <= INT_MAX ==> r == n
  {
    var m := n % 0x1_0000_0000;
    if m <= INT_MAX then m else m - 0x1_0000_0000
  }

  /** `static_cast<int64_t>` of an integer (two's complement, modulo 2^64). */
  function Wrap64(n: int): (r: int)
    ensures -0x8000_0000_0000_0000 <= r < 0x8000_0000_0000_0000
    ensures (r - n) % 0x1_0000_0000_0000_0000 == 0
    ensures -0x8000_0000_0000_0000 <= n < 0x8000_0000_0000_0000 ==> r == n
  {
    var m := n % 0x1_0000_0000_0000_0000;
    if m < 0x8000_0000_0000_0000 then m else m - 0x1_0000_0000_0000_0000
  }
}
