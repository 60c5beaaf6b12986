/** The strict UTF-8 check nlohmann's serialiser runs over every string it
    writes: byte by byte, it rejects the first byte that cannot continue a
    well-formed sequence (Table 3-7 of the Unicode Standard: no overlong
    forms, no surrogates, nothing above U+10FFFF), and reports a string
    that ends inside a sequence as incomplete. */
module Utf8 {
  import opened CppStd
  import opened Base64

  /** An inclusive range of byte values. */
  datatype Range = Range(lo: int, hi: int)

  const Tail := Range(0x80, 0xBF)

  /** The ranges the bytes after a lead byte must fall in, one per byte;
      None for a byte that cannot start a sequence. */
  function Continuations(lead: uint8): (rs: Option<seq<Range>>)
    ensures rs.Some? ==> |rs.value| <= 3
    ensures rs.Some? && |rs.value| == 0 <==> lead < 0x80
  {
    if lead < 0x80 then Some([])
    else if lead < 0xC2 then None
    else if lead <= 0xDF then Some([Tail])
    else if lead == 0xE0 then Some([Range(0xA0, 0xBF), Tail])
    else if lead == 0xED then Some([Range(0x80, 0x9F), Tail])
    else if lead <= 0xEF then Some([Tail, Tail])
    else if lead == 0xF0 then Some([Range(0x90, 0xBF), Tail, Tail])
    else if lead <= 0xF3 then Some([Tail, Tail, Tail])
    else if lead == 0xF4 then Some([Range(0x80, 0x8F), Tail, Tail])
    else None
  }

  /** The verdict on a byte string: well formed, rejected at a byte index,
      or cut short inside a sequence. */
  datatype Verdict = WellFormed | RejectedAt(index: nat) | Incomplete

  /** A verdict on a suffix, seen from `k` bytes earlier. */
  function Shift(v: Verdict, k: nat): Verdict
  {
    if v.RejectedAt? then RejectedAt(v.index + k) else v
  }

  /** The continuation bytes of one sequence, checked against their ranges. */
  function Follow(b: seq<uint8>, rs: seq<Range>): (v: Verdict)
    ensures v.WellFormed? ==> |rs| <= |b|
    ensures v.RejectedAt? ==> v.index < |b| && v.index < |rs|
    ensures v.Incomplete? ==> |b| < |rs|
    ensures v.WellFormed? <==> |rs| <= |b| && forall k :: 0 <= k < |rs| ==> rs[k].lo <= b[k] as int <= rs[k].hi
  {
    if |rs| == 0 then WellFormed
    else if |b| == 0 then Incomplete
    else if !(rs[0].lo <= b[0] as int <= rs[0].hi) then RejectedAt(0)
    else Shift(Follow(b[1..], rs[1..]), 1)
  }

  /** The check over a whole byte string. */
  function Scan(b: seq<uint8>): (v: Verdict)
    ensures v.RejectedAt? ==> v.index < |b|
    ensures v.Incomplete? ==> |b| > 0
    decreases |b|
  {
    if |b| == 0 then WellFormed
    else
      match Continuations(b[0])
      case None => RejectedAt(0)
      case Some(rs) =>
        var f := Follow(b[1..], rs);
        if !f.WellFormed? then Shift(f, 1)
        else Shift(Scan(b[1 + |rs|..]), 1 + |rs|)
  }

  predicate IsAsciiBytes(b: seq<uint8>)
  {
    forall k :: 0 <= k < |b| ==> b[k] < 0x80
  }

  /** Seven-bit text is always well formed. */
  lemma {:induction false} AsciiWellFormed(b: seq<uint8>)
    requires IsAsciiBytes(b)
    ensures Scan(b) == WellFormed
    decreases |b|
  {
    if |b| > 0 {
      assert b[0] < 0x80;
      AsciiWellFormed(b[1..]);
    }
  }

  /** A well-formed prefix is passed over: the verdict is the suffix's. */
  lemma {:induction false} WellFormedPrefix(a: seq<uint8>, c: seq<uint8>)
    requires Scan(a) == WellFormed
    ensures Scan(a + c) == Shift(Scan(c), |a|)
    decreases |a|
  {
    if |a| == 0 {
      assert a + c == c;
      assert Shift(Scan(c), 0) == Scan(c);
    } else {
      var ac := a + c;
      assert ac[0] == a[0];
      var rs := Continuations(a[0]).value;
      var n := 1 + |rs|;
      assert Follow(a[1..], rs).WellFormed?;
      assert ac[1..][..|rs|] == a[1..][..|rs|];
      FollowPrefix(a[1..], c, rs);
      assert ac[1..] == a[1..] + c;
      assert ac[n..] == a[n..] + c;
      WellFormedPrefix(a[n..], c);
      assert Scan(a) == Shift(Scan(a[n..]), n);
    }
  }

  /** The continuation check sees only as many bytes as it needs. */
  lemma {:induction false} FollowPrefix(a: seq<uint8>, c: seq<uint8>, rs: seq<Range>)
    requires Follow(a, rs).WellFormed?
    ensures Follow(a + c, rs).WellFormed?
  {
    assert forall k :: 0 <= k < |rs| ==> (a + c)[k] == a[k];
  }

  /** A Unicode scalar value: a code point that is not a surrogate. */
  predicate IsScalar(cp: int)
  {
    0 <= cp < 0xD800 || 0xE000 <= cp < 0x11_0000
  }

  /** The UTF-8 encoding of one scalar value. */
  function EncodeScalar(cp: int): (b: seq<uint8>)
    requires IsScalar(cp)
    ensures 1 <= |b| <= 4
  {
    if cp < 0x80 then [cp as uint8]
    else if cp < 0x800 then [(0xC0 + cp / 64) as uint8, (0x80 + cp % 64) as uint8]
    else if cp < 0x1_0000 then
      [(0xE0 + cp / 4096) as uint8, (0x80 + (cp / 64) % 64) as uint8, (0x80 + cp % 64) as uint8]
    else
      [(0xF0 + cp / 262144) as uint8, (0x80 + (cp / 4096) % 64) as uint8,
       (0x80 + (cp / 64) % 64) as uint8, (0x80 + cp % 64) as uint8]
  }

  /** The encoding of text, scalar by scalar. */
  function EncodeText(cps: seq<int>): seq<uint8>
    requires forall k :: 0 <= k < |cps| ==> IsScalar(cps[k])
  {
    if |cps| == 0 then [] else EncodeScalar(cps[0]) + EncodeText(cps[1..])
  }

  /** Every scalar value's encoding passes the check. */
  lemma ScalarWellFormed(cp: int)
    requires IsScalar(cp)
    ensures Scan(EncodeScalar(cp)) == WellFormed
  {
    var b := EncodeScalar(cp);
    var rs := Continuations(b[0]).value;
    if cp < 0x80 {
    } else if cp < 0x800 {
      assert b[1..][0] == b[1];
      assert b[2..] == [];
    } else if cp < 0x1_0000 {
      ThreeByteRanges(cp);
      assert b[1..][0] == b[1] && b[1..][1] == b[2];
      assert b[3..] == [];
    } else {
      FourByteRanges(cp);
      assert b[1..][0] == b[1] && b[1..][1] == b[2] && b[1..][2] == b[3];
      assert b[4..] == [];
    }
  }

  lemma ThreeByteRanges(cp: int)
    requires IsScalar(cp) && 0x800 <= cp < 0x1_0000
    ensures var lead, second := 0xE0 + cp / 4096, (cp / 64) % 64;
      && 0xE0 <= lead <= 0xEF
      && (lead == 0xE0 ==> second >= 0x20)
      && (lead == 0xED ==> second < 0x20)
  {
    var top, second := cp / 4096, (cp / 64) % 64;
    assert cp / 64 == top * 64 + second;
    if top == 0 {
      assert cp / 64 >= 0x20;
    }
    if top == 0xD {
      assert cp / 64 < 0x360;
    }
  }

  lemma FourByteRanges(cp: int)
    requires IsScalar(cp) && 0x1_0000 <= cp
    ensures var lead, second := 0xF0 + cp / 262144, (cp / 4096) % 64;
      && 0xF0 <= lead <= 0xF4
      && (lead == 0xF0 ==> second >= 0x10)
      && (lead == 0xF4 ==> second < 0x10)
  {
    var top, second := cp / 262144, (cp / 4096) % 64;
    assert cp / 4096 == top * 64 + second;
    if top == 0 {
      assert cp / 4096 >= 0x10;
    }
    if top == 4 {
      assert cp / 4096 < 0x110;
    }
  }

  /** Every UTF-8 encoded text passes the check. */
  lemma {:induction false} TextWellFormed(cps: seq<int>)
    requires forall k :: 0 <= k < |cps| ==> IsScalar(cps[k])
    ensures Scan(EncodeText(cps)) == WellFormed
  {
    if |cps| > 0 {
      ScalarWellFormed(cps[0]);
      TextWellFormed(cps[1..]);
      WellFormedPrefix(EncodeScalar(cps[0]), EncodeText(cps[1..]));
    }
  }

  /** A byte that cannot start a sequence is rejected where it stands, and
      a lead byte with nothing after it is incomplete. */
  lemma LoneByte(x: uint8)
    ensures x < 0x80 ==> Scan([x]) == WellFormed
    ensures (0x80 <= x < 0xC2 || 0xF5 <= x) ==> Scan([x]) == RejectedAt(0)
    ensures 0xC2 <= x <= 0xF4 ==> Scan([x]) == Incomplete
  {
    assert [x][1..] == [];
  }
}
