/** Standard base64 (section 4 of RFC 4648) without line breaks: what the
    OpenSSL BIO chains in Base64Encode (client.cpp) and base64_encode
    (auth.cpp) produce. A decoder is given beside it as its inverse. */
module Base64 {
  import opened CppStd

  newtype uint8 = x: int | 0 <= x < 256

  /** The bytes of a C++ string: each character is one byte. */
  function Octets(s: string): (b: seq<uint8>)
    ensures |b| == |s|
    ensures forall i :: 0 <= i < |s| ==> b[i] == ((s[i] as int) % 256) as uint8
  {
    seq(|s|, i requires 0 <= i < |s| => ((s[i] as int) % 256) as uint8)
  }

  lemma {:induction false} OctetsAppend(s: string, t: string)
    ensures Octets(s + t) == Octets(s) + Octets(t)
  {
    assert |Octets(s + t)| == |Octets(s) + Octets(t)|;
    forall i | 0 <= i < |s + t|
      ensures Octets(s + t)[i] == (Octets(s) + Octets(t))[i]
    {
      if i < |s| {
        assert (s + t)[i] == s[i];
      } else {
        assert (s + t)[i] == t[i - |s|];
      }
    }
  }

  /** The 64-character alphabet: A-Z, a-z, 0-9, '+', '/'. */
  function Sextet(i: int): (c: char)
    requires 0 <= i < 64
    ensures IsAlphabetChar(c)
  {
    if i < 26 then ('A' as int + i) as char
    else if i < 52 then ('a' as int + (i - 26)) as char
    else if i < 62 then ('0' as int + (i - 52)) as char
    else if i == 62 then '+'
    else '/'
  }

  predicate IsAlphabetChar(c: char)
  {
    ('A' <= c <= 'Z') || ('a' <= c <= 'z') || ('0' <= c <= '9') || c == '+' || c == '/'
  }

  /** The position of an alphabet character; None for anything else ('=' included). */
  function SextetIndex(c: char): (r: Option<int>)
    ensures r.Some? ==> 0 <= r.value < 64
  {
    if 'A' <= c <= 'Z' then Some(c as int - 'A' as int)
    else if 'a' <= c <= 'z' then Some(c as int - 'a' as int + 26)
    else if '0' <= c <= '9' then Some(c as int - '0' as int + 52)
    else if c == '+' then Some(62)
    else if c == '/' then Some(63)
    else None
  }

  lemma SextetRoundTrip(i: int)
    requires 0 <= i < 64
    ensures SextetIndex(Sextet(i)) == Some(i)
  {
  }

  lemma IndexSextet(c: char)
    requires SextetIndex(c).Some?
    ensures Sextet(SextetIndex(c).value) == c
  {
  }

  /** Three bytes as four characters. */
  function Quad(a: uint8, b: uint8, c: uint8): string
  {
    var x, y, z := a as int, b as int, c as int;
    [Sextet(x / 4), Sextet((x % 4) * 16 + y / 16), Sextet((y % 16) * 4 + z / 64), Sextet(z % 64)]
  }

  /** A final group of one or two bytes, padded with '='. */
  function Tail(bytes: seq<uint8>): string
    requires 1 <= |bytes| <= 2
  {
    var x := bytes[0] as int;
    if |bytes| == 1 then [Sextet(x / 4), Sextet((x % 4) * 16), '=', '=']
    else
      var y := bytes[1] as int;
      [Sextet(x / 4), Sextet((x % 4) * 16 + y / 16), Sextet((y % 16) * 4), '=']
  }

  /** The encoding: four characters per started group of three bytes, no line breaks. */
  function Encode(bytes: seq<uint8>): (r: string)
    decreases |bytes|
  {
    if |bytes| == 0 then []
    else if |bytes| <= 2 then Tail(bytes)
    else Quad(bytes[0], bytes[1], bytes[2]) + Encode(bytes[3..])
  }

  /** One group of four characters back to bytes. Padding is accepted only
      in the last group, and only when the bits it leaves over are zero, so
      every byte string has exactly one encoding that decodes to it. */
  function DecodeQuad(q: string, last: bool): Option<seq<uint8>>
    requires |q| == 4
  {
    var i0, i1, i2, i3 := SextetIndex(q[0]), SextetIndex(q[1]), SextetIndex(q[2]), SextetIndex(q[3]);
    if i0.None? || i1.None? then None
    else
      var b0 := (i0.value * 4 + i1.value / 16) as uint8;
      if last && q[2] == '=' && q[3] == '=' then (if i1.value % 16 == 0 then Some([b0]) else None)
      else if i2.None? then None
      else
        var b1 := ((i1.value % 16) * 16 + i2.value / 4) as uint8;
        if last && q[3] == '=' then (if i2.value % 4 == 0 then Some([b0, b1]) else None)
        else if i3.None? then None
        else Some([b0, b1, ((i2.value % 4) * 64 + i3.value) as uint8])
  }

  function Decode(s: string): Option<seq<uint8>>
    decreases |s|
  {
    if |s| == 0 then Some([])
    else if |s| < 4 then None
    else
      match DecodeQuad(s[..4], |s| == 4)
      case None => None
      case Some(head) =>
        match Decode(s[4..])
        case None => None
        case Some(rest) => Some(head + rest)
  }

  lemma QuadRoundTrip(a: uint8, b: uint8, c: uint8, last: bool)
    ensures DecodeQuad(Quad(a, b, c), last) == Some([a, b, c])
  {
    var x, y, z := a as int, b as int, c as int;
    var q := Quad(a, b, c);
    SextetRoundTrip(x / 4);
    SextetRoundTrip((x % 4) * 16 + y / 16);
    SextetRoundTrip((y % 16) * 4 + z / 64);
    SextetRoundTrip(z % 64);
    assert ((x % 4) * 16 + y / 16) / 16 == x % 4;
    assert ((x % 4) * 16 + y / 16) % 16 == y / 16;
    assert ((y % 16) * 4 + z / 64) / 4 == y % 16;
    assert ((y % 16) * 4 + z / 64) % 4 == z / 64;
  }

  lemma TailRoundTrip(bytes: seq<uint8>)
    requires 1 <= |bytes| <= 2
    ensures DecodeQuad(Tail(bytes), true) == Some(bytes)
  {
    var x := bytes[0] as int;
    SextetRoundTrip(x / 4);
    if |bytes| == 1 {
      SextetRoundTrip((x % 4) * 16);
      assert ((x % 4) * 16) % 16 == 0;
      assert ((x % 4) * 16) / 16 == x % 4;
      assert (x / 4) * 4 + x % 4 == x;
      assert bytes == [bytes[0]];
    } else {
      var y := bytes[1] as int;
      SextetRoundTrip((x % 4) * 16 + y / 16);
      SextetRoundTrip((y % 16) * 4);
      assert ((x % 4) * 16 + y / 16) / 16 == x % 4;
      assert ((x % 4) * 16 + y / 16) % 16 == y / 16;
      assert ((y % 16) * 4) % 4 == 0;
      assert ((y % 16) * 4) / 4 == y % 16;
      assert bytes == [bytes[0], bytes[1]];
    }
  }

  /** A lone final group decodes on its own. */
  lemma DecodeLastGroup(q: string)
    requires |q| == 4
    ensures Decode(q) == DecodeQuad(q, true)
  {
    assert q[..4] == q;
    assert q[4..] == [];
    match DecodeQuad(q, true)
    case None =>
    case Some(head) => assert head + [] == head;
  }

  /** A full group followed by more text decodes group by group. */
  lemma DecodeFirstGroup(q: string, rest: string)
    requires |q| == 4 && |rest| > 0
    requires DecodeQuad(q, false).Some? && Decode(rest).Some?
    ensures Decode(q + rest) == Some(DecodeQuad(q, false).value + Decode(rest).value)
  {
    var s := q + rest;
    assert s[..4] == q;
    assert s[4..] == rest;
  }

  /** Encoding splits into the first group and the encoding of the rest. */
  lemma EncodeGroups(bytes: seq<uint8>)
    requires |bytes| > 2
    ensures Encode(bytes) == Quad(bytes[0], bytes[1], bytes[2]) + Encode(bytes[3..])
    ensures bytes == [bytes[0], bytes[1], bytes[2]] + bytes[3..]
  {
    assert bytes[..3] == [bytes[0], bytes[1], bytes[2]];
    assert bytes == bytes[..3] + bytes[3..];
  }

  /** Decoding an encoding gives back the bytes, exactly. */
  lemma {:induction false} DecodeEncode(bytes: seq<uint8>)
    ensures Decode(Encode(bytes)) == Some(bytes)
    decreases |bytes|
  {
    if |bytes| == 0 {
    } else if |bytes| <= 2 {
      TailRoundTrip(bytes);
      DecodeLastGroup(Tail(bytes));
    } else {
      var q := Quad(bytes[0], bytes[1], bytes[2]);
      var rest := Encode(bytes[3..]);
      EncodeGroups(bytes);
      DecodeEncode(bytes[3..]);
      if |rest| == 0 {
        QuadRoundTrip(bytes[0], bytes[1], bytes[2], true);
        DecodeLastGroup(q);
        assert q + rest == q;
      } else {
        QuadRoundTrip(bytes[0], bytes[1], bytes[2], false);
        DecodeFirstGroup(q, rest);
      }
    }
  }

  /** Four characters for every started group of three bytes. */
  lemma {:induction false} EncodeLength(bytes: seq<uint8>)
    ensures |Encode(bytes)| == 4 * ((|bytes| + 2) / 3)
    decreases |bytes|
  {
    if |bytes| > 2 {
      EncodeGroups(bytes);
      EncodeLength(bytes[3..]);
    }
  }

  /** Only alphabet characters and '=' padding: no line breaks. */
  lemma {:induction false} EncodeAlphabet(bytes: seq<uint8>)
    ensures forall i :: 0 <= i < |Encode(bytes)| ==> IsAlphabetChar(Encode(bytes)[i]) || Encode(bytes)[i] == '='
    decreases |bytes|
  {
    if |bytes| > 2 {
      EncodeGroups(bytes);
      EncodeAlphabet(bytes[3..]);
      var q := Quad(bytes[0], bytes[1], bytes[2]);
      var rest := Encode(bytes[3..]);
      forall i | 0 <= i < |q + rest|
        ensures IsAlphabetChar((q + rest)[i]) || (q + rest)[i] == '='
      {
        if i >= |q| {
          assert (q + rest)[i] == rest[i - |q|];
        }
      }
    }
  }

  /** The index arithmetic of decoding, undone by that of encoding: the
      bytes rebuilt from sextets give those sextets back. */
  lemma SextetArithmetic(i0: int, i1: int, i2: int, i3: int, x: int, y: int, z: int)
    requires 0 <= i0 < 64 && 0 <= i1 < 64 && 0 <= i2 < 64 && 0 <= i3 < 64
    requires x == i0 * 4 + i1 / 16 && y == (i1 % 16) * 16 + i2 / 4 && z == (i2 % 4) * 64 + i3
    ensures x / 4 == i0 && (x % 4) * 16 + y / 16 == i1
    ensures (y % 16) * 4 + z / 64 == i2 && z % 64 == i3
    ensures i1 % 16 == 0 ==> (x % 4) * 16 == i1
    ensures i2 % 4 == 0 ==> (y % 16) * 4 == i2
  {
    var h, l, m, n := i1 / 16, i1 % 16, i2 / 4, i2 % 4;
    assert x == i0 * 4 + h && 0 <= h < 4;
    assert y == l * 16 + m && 0 <= m < 16;
    assert z == n * 64 + i3;
    assert x / 4 == i0 && x % 4 == h;
    assert y / 16 == l && y % 16 == m;
    assert z / 64 == n && z % 64 == i3;
  }

  /** Three bytes rebuilt from four sextets encode as those sextets. */
  lemma QuadOfSextets(q: string, i0: int, i1: int, i2: int, i3: int, a: uint8, b: uint8, c: uint8)
    requires 0 <= i0 < 64 && 0 <= i1 < 64 && 0 <= i2 < 64 && 0 <= i3 < 64
    requires q == [Sextet(i0), Sextet(i1), Sextet(i2), Sextet(i3)]
    requires a as int == i0 * 4 + i1 / 16 && b as int == (i1 % 16) * 16 + i2 / 4
    requires c as int == (i2 % 4) * 64 + i3
    ensures Quad(a, b, c) == q
  {
    SextetArithmetic(i0, i1, i2, i3, a as int, b as int, c as int);
  }

  /** One byte rebuilt from two sextets with zero leftover bits encodes as them. */
  lemma TailOfTwoSextets(q: string, i0: int, i1: int, a: uint8)
    requires 0 <= i0 < 64 && 0 <= i1 < 64 && i1 % 16 == 0
    requires q == [Sextet(i0), Sextet(i1), '=', '=']
    requires a as int == i0 * 4 + i1 / 16
    ensures Tail([a]) == q
  {
    SextetArithmetic(i0, i1, 0, 0, a as int, (i1 % 16) * 16, 0);
  }

  /** Two bytes rebuilt from three sextets with zero leftover bits encode as them. */
  lemma TailOfThreeSextets(q: string, i0: int, i1: int, i2: int, a: uint8, b: uint8)
    requires 0 <= i0 < 64 && 0 <= i1 < 64 && 0 <= i2 < 64 && i2 % 4 == 0
    requires q == [Sextet(i0), Sextet(i1), Sextet(i2), '=']
    requires a as int == i0 * 4 + i1 / 16 && b as int == (i1 % 16) * 16 + i2 / 4
    ensures Tail([a, b]) == q
  {
    SextetArithmetic(i0, i1, i2, 0, a as int, b as int, (i2 % 4) * 64);
  }

  /** A group that decodes to three bytes is their Quad; one that decodes
      to fewer is the final group, and it is their Tail. */
  lemma QuadCanonical(q: string, last: bool)
    requires |q| == 4 && DecodeQuad(q, last).Some?
    ensures var bs := DecodeQuad(q, last).value;
      && 1 <= |bs| <= 3
      && (|bs| == 3 ==> Quad(bs[0], bs[1], bs[2]) == q)
      && (|bs| < 3 ==> last && Tail(bs) == q)
  {
    assert q == [q[0], q[1], q[2], q[3]];
    IndexSextet(q[0]);
    IndexSextet(q[1]);
    var i0, i1 := SextetIndex(q[0]).value, SextetIndex(q[1]).value;
    var b0 := (i0 * 4 + i1 / 16) as uint8;
    if last && q[2] == '=' && q[3] == '=' {
      assert DecodeQuad(q, last) == Some([b0]);
      TailOfTwoSextets(q, i0, i1, b0);
    } else {
      IndexSextet(q[2]);
      var i2 := SextetIndex(q[2]).value;
      var b1 := ((i1 % 16) * 16 + i2 / 4) as uint8;
      if last && q[3] == '=' {
        assert DecodeQuad(q, last) == Some([b0, b1]);
        TailOfThreeSextets(q, i0, i1, i2, b0, b1);
      } else {
        IndexSextet(q[3]);
        var i3 := SextetIndex(q[3]).value;
        var b2 := ((i2 % 4) * 64 + i3) as uint8;
        assert DecodeQuad(q, last) == Some([b0, b1, b2]);
        QuadOfSextets(q, i0, i1, i2, i3, b0, b1, b2);
      }
    }
  }

  /** Decoding is canonical: the only text that decodes to a byte string is
      that string's encoding. */
  lemma {:induction false} DecodeCanonical(s: string, bytes: seq<uint8>)
    requires Decode(s) == Some(bytes)
    ensures s == Encode(bytes)
    decreases |s|
  {
    if |s| > 0 {
      var q := s[..4];
      var head := DecodeQuad(q, |s| == 4).value;
      var rest := Decode(s[4..]).value;
      assert bytes == head + rest;
      QuadCanonical(q, |s| == 4);
      if |s| == 4 {
        assert s[4..] == [] && rest == [] && bytes == head && s == q;
        if |head| == 3 {
          assert Encode(bytes) == Quad(head[0], head[1], head[2]) + Encode(bytes[3..]);
          assert bytes[3..] == [];
        }
      } else {
        DecodeCanonical(s[4..], rest);
        assert bytes[..3] == head && bytes[3..] == rest;
        assert Encode(bytes) == Quad(bytes[0], bytes[1], bytes[2]) + Encode(bytes[3..]);
        assert s == q + s[4..];
      }
    }
  }

  /** `Base64Encode` of a C++ string. */
  function Base64Encode(input: string): (r: string)
    ensures |input| == 0 ==> r == []
    ensures |r| == 4 * ((|input| + 2) / 3)
    ensures forall i :: 0 <= i < |r| ==> r[i] != '\n' && r[i] != '\r'
    ensures Decode(r) == Some(Octets(input))
  {
    DecodeEncode(Octets(input));
    EncodeLength(Octets(input));
    EncodeAlphabet(Octets(input));
    Encode(Octets(input))
  }

  /** The encoding of a string is the only text that decodes to its bytes. */
  lemma Base64EncodeUnique(input: string, t: string)
    requires Decode(t) == Some(Octets(input))
    ensures t == Base64Encode(input)
  {
    DecodeCanonical(t, Octets(input));
  }

  /** Known answers: "Man" encodes to "TWFu" and "Ma" to "TWE=". */
  lemma KnownAnswers()
    ensures Base64Encode("Man") == "TWFu"
    ensures Base64Encode("Ma") == "TWE="
  {
    KnownAnswerFull();
    KnownAnswerPadded();
  }

  lemma KnownAnswerFull()
    ensures Base64Encode("Man") == "TWFu"
  {
    OctetsOfMan();
    EncodeOfMan();
  }

  lemma OctetsOfMan()
    ensures Octets("Man") == [77, 97, 110]
  {
    assert Octets("Man")[0] == 77 && Octets("Man")[1] == 97 && Octets("Man")[2] == 110;
  }

  lemma EncodeOfMan()
    ensures Encode([77, 97, 110]) == "TWFu"
  {
    assert [77, 97, 110][3..] == [];
  }

  lemma KnownAnswerPadded()
    ensures Base64Encode("Ma") == "TWE="
  {
    assert Octets("Ma") == [77, 97] by {
      assert Octets("Ma")[0] == 77 && Octets("Ma")[1] == 97;
    }
    assert Encode([77, 97]) == "TWE=";
  }
}
