/** The JSON values of the nlohmann::json library, and the handful of its
    operations the SDK uses: `contains`, `operator[]` (the inserting and the
    const form), `get<std::string>`, `get<int>`, `get<int64_t>`, the type
    tests and iteration. Parsing and serialising text are not modelled: a body
    arrives as a `Payload`, already parsed or with the parser's error text. */
module Json {
  import opened CppStd
  import Base64
  import Utf8

  /** A finite IEEE double, carried by its exact value. Nothing computes with it
      except the truncating cast `get<int>` performs. */
  datatype Double = Double(value: real)

  /** One JSON value. An object's members are in the library's iteration order
      (its keys are unique and sorted). */
  datatype Json =
    | JNull
    | JBoolean(b: bool)
    | JInteger(i: int)        // number_integer: a negative literal, int64 range
    | JUnsigned(u: nat)       // number_unsigned: a non-negative literal, uint64 range
    | JFloat(d: Double)       // number_float
    | JString(s: string)
    | JArray(elements: seq<Json>)
    | JObject(members: seq<Member>)

  datatype Member = Member(key: string, value: Json)

  /** What `nlohmann::json::parse` made of a body: its parse_error text, or a value. */
  datatype Payload = Malformed(what: string) | Parsed(json: Json)

  /** `type_name()`. */
  function TypeName(j: Json): string
  {
    match j
    case JNull => "null"
    case JBoolean(_) => "boolean"
    case JInteger(_) | JUnsigned(_) | JFloat(_) => "number"
    case JString(_) => "string"
    case JArray(_) => "array"
    case JObject(_) => "object"
  }

  /** The value bound to `key`, if any. */
  function Find(members: seq<Member>, key: string): Option<Json>
  {
    if |members| == 0 then None
    else if members[0].key == key then Some(members[0].value)
    else Find(members[1..], key)
  }

  /** Find returns the value of the first member with the key, and None when no member has it. */
  lemma {:induction false} FindFirst(members: seq<Member>, key: string, k: nat)
    requires k <= |members|
    requires forall i :: 0 <= i < k ==> members[i].key != key
    ensures k < |members| && members[k].key == key ==> Find(members, key) == Some(members[k].value)
    ensures k == |members| ==> Find(members, key) == None
  {
    if k > 0 {
      FindFirst(members[1..], key, k - 1);
    }
  }

  /** `j.contains(key)`: false for anything but an object. */
  predicate Contains(j: Json, key: string)
  {
    j.JObject? && Find(j.members, key).Some?
  }

  /** The `what()` of type_error.302 (a conversion to the wrong type). */
  function TypeMismatch(expected: string, j: Json): Exception
  {
    JsonException("[json.exception.type_error.302] type must be " + expected + ", but is " + TypeName(j))
  }

  /** The `what()` of type_error.305 (`operator[]` with a key on a non-object). */
  function NotAnObject(j: Json): Exception
  {
    JsonException("[json.exception.type_error.305] cannot use operator[] with a string argument with " + TypeName(j))
  }

  /** `j[key]` on a mutable value: a missing key reads as null (the library
      inserts it), null reads as an empty object, anything else throws. */
  function Index(j: Json, key: string): (r: Outcome<Json>)
    ensures r.Throws? <==> !(j.JObject? || j.JNull?)
    ensures Contains(j, key) ==> r == Returns(Find(j.members, key).value)
    ensures j.JNull? || (j.JObject? && !Contains(j, key)) ==> r == Returns(JNull)
  {
    match j
    case JObject(ms) => (match Find(ms, key) case Some(v) => Returns(v) case None => Returns(JNull))
    case JNull => Returns(JNull)
    case _ => Throws(NotAnObject(j))
  }

  /** `j[key]` on a const value. A missing key is undefined behaviour in the
      library; the model reports it as `at()` does, with out_of_range.403. */
  function IndexConst(j: Json, key: string): (r: Outcome<Json>)
    ensures r.Returns? <==> Contains(j, key)
    ensures r.Returns? ==> r.value == Find(j.members, key).value
  {
    match j
    case JObject(ms) =>
      (match Find(ms, key)
       case Some(v) => Returns(v)
       case None => Throws(JsonException("[json.exception.out_of_range.403] key '" + key + "' not found")))
    case _ => Throws(NotAnObject(j))
  }

  /** `get<std::string>()` (also the implicit conversion to std::string). */
  function GetString(j: Json): (r: Outcome<string>)
    ensures r.Returns? <==> j.JString?
    ensures j.JString? ==> r.value == j.s
  {
    if j.JString? then Returns(j.s) else Throws(TypeMismatch("string", j))
  }

  /** `j[key]` on a mutable value, converted to std::string. */
  function StringField(j: Json, key: string): (r: Outcome<string>)
    ensures r.Returns? <==> Contains(j, key) && Find(j.members, key).value.JString?
    ensures r.Returns? ==> r.value == Find(j.members, key).value.s
  {
    var v :- Index(j, key);
    GetString(v)
  }

  /** `is_number_integer()`: signed and unsigned integers alike. */
  predicate IsNumberInteger(j: Json)
  {
    j.JInteger? || j.JUnsigned?
  }

  /** `is_number_float()`. */
  predicate IsNumberFloat(j: Json)
  {
    j.JFloat?
  }

  /** The C++ cast of a double to an integer type: truncation toward zero. */
  function Truncate(d: Double): (n: int)
    ensures 0.0 <= d.value ==> 0 <= n && n as real <= d.value < n as real + 1.0
    ensures d.value < 0.0 ==> n <= 0 && n as real - 1.0 < d.value <= n as real
  {
    if d.value >= 0.0 then d.value.Floor else -((-d.value).Floor)
  }

  /** `get<int>()`: any number or boolean, cast to a 32-bit int. */
  function GetInt(j: Json): (r: Outcome<int>)
    ensures r.Returns? <==> (j.JInteger? || j.JUnsigned? || j.JFloat? || j.JBoolean?)
    ensures r.Returns? ==> INT_MIN <= r.value <= INT_MAX
    ensures j.JInteger? && INT_MIN <= j.i <= INT_MAX ==> r == Returns(j.i)
    ensures j.JUnsigned? && j.u <= INT_MAX ==> r == Returns(j.u)
    ensures j.JInteger? ==> r == Returns(Wrap32(j.i))
    ensures j.JUnsigned? ==> r == Returns(Wrap32(j.u))
    ensures j.JFloat? ==> r == Returns(Wrap32(Truncate(j.d)))
    ensures j.JBoolean? ==> r == Returns(if j.b then 1 else 0)
  {
    match j
    case JInteger(i) => Returns(Wrap32(i))
    case JUnsigned(u) => Returns(Wrap32(u))
    case JFloat(d) => Returns(Wrap32(Truncate(d)))
    case JBoolean(b) => Returns(if b then 1 else 0)
    case _ => Throws(TypeMismatch("number", j))
  }

  /** `get<int64_t>()` of an integer value (unsigned values are cast). */
  function GetInt64(j: Json): (r: int)
    requires IsNumberInteger(j)
    ensures -0x8000_0000_0000_0000 <= r < 0x8000_0000_0000_0000
    ensures j.JInteger? && -0x8000_0000_0000_0000 <= j.i < 0x8000_0000_0000_0000 ==> r == j.i
    ensures j.JUnsigned? && j.u < 0x8000_0000_0000_0000 ==> r == j.u
    ensures j.JInteger? ==> r == Wrap64(j.i)
    ensures j.JUnsigned? ==> r == Wrap64(j.u)
  {
    if j.JInteger? then Wrap64(j.i) else Wrap64(j.u)
  }

  function Values(ms: seq<Member>): (vs: seq<Json>)
    ensures |vs| == |ms|
    ensures forall i :: 0 <= i < |ms| ==> vs[i] == ms[i].value
  {
    if |ms| == 0 then [] else [ms[0].value] + Values(ms[1..])
  }

  /** What a range-for over a value visits: an array's elements, an object's
      values, nothing for null, and a scalar itself once. */
  function Elements(j: Json): (r: seq<Json>)
    ensures j.JArray? ==> r == j.elements
    ensures j.JObject? ==> r == Values(j.members)
    ensures j.JNull? ==> r == []
    ensures !(j.JArray? || j.JObject? || j.JNull?) ==> r == [j]
  {
    match j
    case JArray(es) => es
    case JObject(ms) => Values(ms)
    case JNull => []
    case _ => [j]
  }

  function Keys(ms: seq<Member>): (ks: seq<string>)
    ensures |ks| == |ms|
    ensures forall i :: 0 <= i < |ms| ==> ks[i] == ms[i].key
  {
    if |ms| == 0 then [] else [ms[0].key] + Keys(ms[1..])
  }

  // ---------------------------------------------------------------- dump()

  const TYPE_ERROR_316 := "[json.exception.type_error.316] "

  function HexDigit(d: int): char
    requires 0 <= d < 16
  {
    if d < 10 then ('0' as int + d) as char else ('A' as int + (d - 10)) as char
  }

  /** A byte as two upper-case hexadecimal digits. */
  function Hex2(x: Base64.uint8): string
  {
    [HexDigit(x as int / 16), HexDigit(x as int % 16)]
  }

  /** The check `dump()` applies to each string it writes, with the strict
      error handler: the bytes of the string (one per character) must be
      well-formed UTF-8; otherwise type_error.316 names the first rejected
      byte and its index, or the last byte of a string cut short. */
  function CheckUtf8(s: string): (r: Outcome<()>)
    ensures r.Returns? <==> Utf8.Scan(Base64.Octets(s)) == Utf8.WellFormed
    ensures r.Throws? ==> r.error.JsonException? && IsPrefix(TYPE_ERROR_316, r.error.What())
  {
    var b := Base64.Octets(s);
    match Utf8.Scan(b)
    case WellFormed => Returns(())
    case RejectedAt(i) =>
      Throws(JsonException(TYPE_ERROR_316 + "invalid UTF-8 byte at index " + IntToString(i) + ": 0x" + Hex2(b[i])))
    case Incomplete =>
      Throws(JsonException(TYPE_ERROR_316 + "incomplete UTF-8 string; last byte: 0x" + Hex2(b[|b| - 1])))
  }

  /** Seven-bit text always serialises. */
  lemma AsciiSerialises(s: string)
    requires IsAscii(s)
    ensures CheckUtf8(s) == Returns(())
  {
    Utf8.AsciiWellFormed(Base64.Octets(s));
  }

  /** Whether `dump()` succeeds: every string it writes, object keys
      included, in the order it writes them, passes `CheckUtf8`; the first
      that fails decides the exception. The text written is not modelled. */
  function DumpCheck(j: Json): Outcome<()>
    decreases j, 1
  {
    match j
    case JString(s) => CheckUtf8(s)
    case JArray(es) => DumpCheckAll(es)
    case JObject(ms) => DumpCheckMembers(ms)
    case _ => Returns(())
  }

  function DumpCheckAll(es: seq<Json>): Outcome<()>
    decreases es, 0
  {
    if |es| == 0 then Returns(())
    else
      var _ :- DumpCheck(es[0]);
      DumpCheckAll(es[1..])
  }

  function DumpCheckMembers(ms: seq<Member>): Outcome<()>
    decreases ms, 0
  {
    if |ms| == 0 then Returns(())
    else
      var _ :- CheckUtf8(ms[0].key);
      var _ :- DumpCheck(ms[0].value);
      DumpCheckMembers(ms[1..])
  }

  /** A member the dump cannot fail on: a seven-bit key bound to a
      seven-bit string. */
  predicate AsciiStringMember(m: Member)
  {
    IsAscii(m.key) && m.value.JString? && IsAscii(m.value.s)
  }

  /** The dump fails only with nlohmann's UTF-8 error. */
  lemma {:induction false} DumpCheckError(j: Json)
    ensures DumpCheck(j).Throws? ==> DumpCheck(j).error.JsonException? && IsPrefix(TYPE_ERROR_316, DumpCheck(j).error.What())
    decreases j, 1
  {
    match j
    case JArray(es) => DumpCheckAllError(es);
    case JObject(ms) => DumpCheckMembersError(ms);
    case _ =>
  }

  lemma {:induction false} DumpCheckAllError(es: seq<Json>)
    ensures DumpCheckAll(es).Throws? ==> DumpCheckAll(es).error.JsonException? && IsPrefix(TYPE_ERROR_316, DumpCheckAll(es).error.What())
    decreases es, 0
  {
    if |es| > 0 {
      DumpCheckError(es[0]);
      DumpCheckAllError(es[1..]);
    }
  }

  lemma {:induction false} DumpCheckMembersError(ms: seq<Member>)
    ensures DumpCheckMembers(ms).Throws? ==> DumpCheckMembers(ms).error.JsonException? && IsPrefix(TYPE_ERROR_316, DumpCheckMembers(ms).error.What())
    decreases ms, 0
  {
    if |ms| > 0 {
      DumpCheckError(ms[0].value);
      DumpCheckMembersError(ms[1..]);
    }
  }

  /** One member whose key is seven-bit text and whose value is a string:
      the dump fails on that string or goes on to the next member. */
  lemma DumpMemberStep(ms: seq<Member>, k: nat)
    requires k < |ms| && IsAscii(ms[k].key) && ms[k].value.JString?
    ensures DumpCheckMembers(ms[k..]) ==
      if CheckUtf8(ms[k].value.s).Throws? then CheckUtf8(ms[k].value.s) else DumpCheckMembers(ms[k + 1..])
  {
    AsciiSerialises(ms[k].key);
    assert ms[k..][0] == ms[k] && ms[k..][1..] == ms[k + 1..];
  }

  /** Members whose keys and string values are all seven-bit text are
      passed over by the dump. */
  lemma {:induction false} DumpSkipsAscii(ms: seq<Member>, lo: nat, hi: nat)
    requires lo <= hi <= |ms|
    requires forall k :: lo <= k < hi ==> AsciiStringMember(ms[k])
    ensures DumpCheckMembers(ms[lo..]) == DumpCheckMembers(ms[hi..])
    decreases hi - lo
  {
    if lo < hi {
      assert AsciiStringMember(ms[lo]);
      DumpMemberStep(ms, lo);
      AsciiSerialises(ms[lo].value.s);
      DumpSkipsAscii(ms, lo + 1, hi);
    }
  }
}
