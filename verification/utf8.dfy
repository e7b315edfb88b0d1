/** Strict UTF-8 validation (valid_utf8 of src/core/names.cpp) against the encoding of
    section 3 of RFC 3629. */
module Utf8 {

  newtype byte = x: int | 0 <= x < 256

  // ---- the encoding ----------------------------------------------------------------

  /** Unicode scalar values. */
  predicate IsScalar(cp: nat) {
    cp < 0xD800 || 0xDFFF < cp < 0x110000
  }

  /** What the code admits: scalar values other than the noncharacters U+FFFE and U+FFFF. */
  predicate Admitted(cp: nat) {
    IsScalar(cp) && cp != 0xFFFE && cp != 0xFFFF
  }

  function Tail(n: nat): byte {
    (0x80 + n % 64) as byte
  }

  function Encode(cp: nat): (r: seq<byte>)
    requires cp < 0x110000
    ensures 1 <= |r| <= 4
  {
    if cp < 0x80 then [cp as byte]
    else if cp < 0x800 then [(0xC0 + cp / 64) as byte, Tail(cp)]
    else if cp < 0x10000 then [(0xE0 + cp / 4096) as byte, Tail(cp / 64), Tail(cp)]
    else [(0xF0 + cp / 262144) as byte, Tail(cp / 4096), Tail(cp / 64), Tail(cp)]
  }

  predicate AllAdmitted(cps: seq<nat>) {
    forall i | 0 <= i < |cps| :: Admitted(cps[i])
  }

  function EncodeAll(cps: seq<nat>): seq<byte>
    requires AllAdmitted(cps)
  {
    if cps == [] then [] else Encode(cps[0]) + EncodeAll(cps[1..])
  }

  // ---- the validator ---------------------------------------------------------------

  function SequenceLength(c: byte): nat {
    if c < 0x80 then 1 else if c / 32 == 0x6 then 2 else if c / 16 == 0xE then 3 else if c / 8 == 0x1E then 4 else 0
  }

  predicate Continues(b: byte) {
    b / 64 == 2
  }

  /** The checks on the sequence that starts with `c`, given that its tail bytes continue it. */
  predicate WellFormed(c: byte, len: nat, b1: byte, b2: byte) {
    && !(len == 2 && c < 0xC2)
    && !(len == 3 && c == 0xE0 && b1 < 0xA0)
    && !(len == 3 && c == 0xED && b1 > 0x9F)
    && !(len == 3 && c == 0xEF && b1 == 0xBF && (b2 == 0xBE || b2 == 0xBF))
    && !(len == 4 && c == 0xF0 && b1 < 0x90)
    && !(len == 4 && (c > 0xF4 || (c == 0xF4 && b1 > 0x8F)))
  }

  predicate Tails(bytes: seq<byte>, i: nat, len: nat)
    requires i + len <= |bytes|
  {
    forall j | i < j < i + len :: Continues(bytes[j])
  }

  /** The length of the valid sequence at `i`, or 0. */
  function Accepts(bytes: seq<byte>, i: nat): (len: nat)
    requires i < |bytes|
    ensures i + len <= |bytes|
  {
    var len := SequenceLength(bytes[i]);
    if len == 0 || i + len > |bytes| || !Tails(bytes, i, len) then 0
    else if !WellFormed(bytes[i], len, if len > 1 then bytes[i + 1] else 0, if len > 2 then bytes[i + 2] else 0) then 0
    else len
  }

  predicate ValidFrom(bytes: seq<byte>, i: nat)
    requires i <= |bytes|
    decreases |bytes| - i
  {
    i == |bytes| || (Accepts(bytes, i) > 0 && ValidFrom(bytes, i + Accepts(bytes, i)))
  }

  method ValidUtf8(bytes: seq<byte>) returns (ok: bool)
    ensures ok <==> exists cps: seq<nat> :: AllAdmitted(cps) && EncodeAll(cps) == bytes
  {
    var i, n := 0, |bytes|;
    while i < n
      invariant i <= n && (ValidFrom(bytes, 0) <==> ValidFrom(bytes, i))
      decreases n - i
    {
      var c := bytes[i];
      var len := SequenceLength(c);
      if len == 0 || i + len > n {
        Meaning(bytes);
        return false;
      }
      for k := 1 to len
        invariant Tails(bytes, i, k)
      {
        if !Continues(bytes[i + k]) {
          assert !Tails(bytes, i, len);
          Meaning(bytes);
          return false;
        }
      }
      if (len == 2 && c < 0xC2)
         || (len == 3 && c == 0xE0 && bytes[i + 1] < 0xA0)
         || (len == 3 && c == 0xED && bytes[i + 1] > 0x9F)
         || (len == 3 && c == 0xEF && bytes[i + 1] == 0xBF && (bytes[i + 2] == 0xBE || bytes[i + 2] == 0xBF))
         || (len == 4 && c == 0xF0 && bytes[i + 1] < 0x90)
         || (len == 4 && (c > 0xF4 || (c == 0xF4 && bytes[i + 1] > 0x8F))) {
        Meaning(bytes);
        return false;
      }
      assert Accepts(bytes, i) == len;
      i := i + len;
    }
    Meaning(bytes);
    return true;
  }

  // ---- exactness -------------------------------------------------------------------

  function Bits(b: byte): nat {
    (b % 64) as nat
  }

  /** The value of an accepted sequence. */
  function Decode(bytes: seq<byte>, i: nat): nat
    requires i < |bytes| && Accepts(bytes, i) > 0
  {
    var len, c := Accepts(bytes, i), bytes[i];
    if len == 1 then c as nat
    else if len == 2 then (c % 32) as nat * 64 + Bits(bytes[i + 1])
    else if len == 3 then (c % 16) as nat * 4096 + Bits(bytes[i + 1]) * 64 + Bits(bytes[i + 2])
    else (c % 8) as nat * 262144 + Bits(bytes[i + 1]) * 4096 + Bits(bytes[i + 2]) * 64 + Bits(bytes[i + 3])
  }

  lemma AcceptsMeans(bytes: seq<byte>, i: nat)
    requires i < |bytes| && Accepts(bytes, i) > 0
    ensures var len := Accepts(bytes, i);
            len == SequenceLength(bytes[i]) <= 4 && Tails(bytes, i, len)
  {
  }

  lemma DecodeTwo(c: byte, b1: byte)
    requires SequenceLength(c) == 2 && Continues(b1) && WellFormed(c, 2, b1, 0)
    ensures var cp := (c % 32) as nat * 64 + Bits(b1); Admitted(cp) && Encode(cp) == [c, b1]
  {
  }

  lemma DecodeThree(c: byte, b1: byte, b2: byte)
    requires SequenceLength(c) == 3 && Continues(b1) && Continues(b2) && WellFormed(c, 3, b1, b2)
    ensures var cp := (c % 16) as nat * 4096 + Bits(b1) * 64 + Bits(b2); Admitted(cp) && Encode(cp) == [c, b1, b2]
  {
    var cp := (c % 16) as nat * 4096 + Bits(b1) * 64 + Bits(b2);
    assert cp / 4096 == (c % 16) as nat && cp / 64 == (c % 16) as nat * 64 + Bits(b1);
  }

  lemma DecodeFour(c: byte, b1: byte, b2: byte, b3: byte)
    requires SequenceLength(c) == 4 && Continues(b1) && Continues(b2) && Continues(b3) && WellFormed(c, 4, b1, b2)
    ensures var cp := (c % 8) as nat * 262144 + Bits(b1) * 4096 + Bits(b2) * 64 + Bits(b3);
            Admitted(cp) && Encode(cp) == [c, b1, b2, b3]
  {
    var a := (c % 8) as nat;
    var cp := a * 262144 + Bits(b1) * 4096 + Bits(b2) * 64 + Bits(b3);
    LeadOfFour(c, b1, b2);
    hide Tail, Bits, SequenceLength, WellFormed;
    TailOf(b1, a);
    TailOf(b2, a * 64 + Bits(b1));
    TailOf(b3, a * 4096 + Bits(b1) * 64 + Bits(b2));
    SplitFour(a, Bits(b1), Bits(b2), Bits(b3));
  }

  /** A continuation byte carries six bits, whatever stands above them. */
  lemma TailOf(b: byte, above: nat)
    requires Continues(b)
    ensures Bits(b) < 64 && Tail(above * 64 + Bits(b)) == b
  {
  }

  lemma LeadOfFour(c: byte, b1: byte, b2: byte)
    requires SequenceLength(c) == 4 && Continues(b1) && WellFormed(c, 4, b1, b2)
    ensures c as nat == 0xF0 + (c % 8) as nat && 0x10 <= (c % 8) as nat * 64 + Bits(b1) < 0x110
  {
  }

  lemma SplitFour(a: nat, b1: nat, b2: nat, b3: nat)
    requires b1 < 64 && b2 < 64 && b3 < 64
    ensures var cp := a * 262144 + b1 * 4096 + b2 * 64 + b3;
            cp / 262144 == a && cp / 4096 == a * 64 + b1 && cp / 64 == a * 4096 + b1 * 64 + b2
  {
  }

  /** Every accepted sequence is the encoding of an admitted value. */
  lemma AcceptedIsEncoding(bytes: seq<byte>, i: nat)
    requires i < |bytes| && Accepts(bytes, i) > 0
    ensures Admitted(Decode(bytes, i)) && Encode(Decode(bytes, i)) == bytes[i..i + Accepts(bytes, i)]
  {
    hide Encode, WellFormed;
    var len := Accepts(bytes, i);
    AcceptsMeans(bytes, i);
    if len == 1 {
      OneByte(bytes[i]);
    } else if len == 2 {
      assert Continues(bytes[i + 1]);
      DecodeTwo(bytes[i], bytes[i + 1]);
    } else if len == 3 {
      assert Continues(bytes[i + 1]) && Continues(bytes[i + 2]);
      DecodeThree(bytes[i], bytes[i + 1], bytes[i + 2]);
    } else {
      assert Continues(bytes[i + 1]) && Continues(bytes[i + 2]) && Continues(bytes[i + 3]);
      DecodeFour(bytes[i], bytes[i + 1], bytes[i + 2], bytes[i + 3]);
    }
  }

  lemma OneByte(c: byte)
    requires c < 0x80
    ensures Encode(c as nat) == [c]
  {
  }

  lemma EncodedTwo(cp: nat)
    requires 0x80 <= cp < 0x800
    ensures var e := Encode(cp);
            && |e| == 2 && SequenceLength(e[0]) == 2 && Continues(e[1]) && WellFormed(e[0], 2, e[1], 0)
            && (e[0] % 32) as nat * 64 + Bits(e[1]) == cp
  {
  }

  lemma EncodedThree(cp: nat)
    requires 0x800 <= cp < 0x10000 && Admitted(cp)
    ensures var e := Encode(cp);
            && |e| == 3 && SequenceLength(e[0]) == 3 && Continues(e[1]) && Continues(e[2]) && WellFormed(e[0], 3, e[1], e[2])
            && (e[0] % 16) as nat * 4096 + Bits(e[1]) * 64 + Bits(e[2]) == cp
  {
    assert cp == cp / 4096 * 4096 + cp / 64 % 64 * 64 + cp % 64;
  }

  lemma EncodedFour(cp: nat)
    requires 0x10000 <= cp < 0x110000
    ensures var e := Encode(cp);
            && |e| == 4 && SequenceLength(e[0]) == 4 && Continues(e[1]) && Continues(e[2]) && Continues(e[3])
            && WellFormed(e[0], 4, e[1], e[2])
            && (e[0] % 8) as nat * 262144 + Bits(e[1]) * 4096 + Bits(e[2]) * 64 + Bits(e[3]) == cp
  {
    hide Tail, Bits, SequenceLength, WellFormed, Continues;
    FourStarts(cp);
    TailMeans(cp);
    TailMeans(cp / 64);
    TailMeans(cp / 4096);
    FourParts(cp, cp / 262144, cp / 4096, cp / 64);
  }

  lemma FourParts(cp: nat, a: nat, b: nat, c: nat)
    requires a == cp / 262144 && b == cp / 4096 && c == cp / 64
    ensures cp == a * 262144 + b % 64 * 4096 + c % 64 * 64 + cp % 64
  {
    assert b / 64 == a && c / 64 == b;
  }

  lemma TailMeans(n: nat)
    ensures Continues(Tail(n)) && Bits(Tail(n)) == n % 64
  {
  }

  lemma FourStarts(cp: nat)
    requires 0x10000 <= cp < 0x110000
    ensures var c := (0xF0 + cp / 262144) as byte;
            SequenceLength(c) == 4 && (c % 8) as nat == cp / 262144 && WellFormed(c, 4, Tail(cp / 4096), Tail(cp / 64))
  {
  }

  lemma EncodedOne(cp: nat)
    requires cp < 0x80
    ensures Encode(cp) == [cp as byte] && SequenceLength(cp as byte) == 1 && WellFormed(cp as byte, 1, 0, 0)
  {
  }

  /** Every encoding of an admitted value is accepted, and decodes to it. */
  lemma EncodingIsAccepted(bytes: seq<byte>, i: nat, cp: nat)
    requires Admitted(cp) && i + |Encode(cp)| <= |bytes| && bytes[i..i + |Encode(cp)|] == Encode(cp)
    ensures Accepts(bytes, i) == |Encode(cp)| && Decode(bytes, i) == cp
  {
    hide Encode, WellFormed, SequenceLength, Continues;
    var e := Encode(cp);
    assert forall k | 0 <= k < |e| :: bytes[i + k] == bytes[i..i + |e|][k] == e[k];
    assert bytes[i] == bytes[i + 0] == e[0];
    if cp < 0x80 {
      EncodedOne(cp);
    } else if cp < 0x800 {
      EncodedTwo(cp);
      assert bytes[i + 1] == e[1];
    } else if cp < 0x10000 {
      EncodedThree(cp);
      assert bytes[i + 1] == e[1] && bytes[i + 2] == e[2];
    } else {
      EncodedFour(cp);
      assert bytes[i + 1] == e[1] && bytes[i + 2] == e[2] && bytes[i + 3] == e[3];
    }
  }

  lemma EncodeCons(cp: nat, rest: seq<nat>)
    requires Admitted(cp) && AllAdmitted(rest)
    ensures AllAdmitted([cp] + rest) && EncodeAll([cp] + rest) == Encode(cp) + EncodeAll(rest)
  {
    assert ([cp] + rest)[1..] == rest;
  }

  lemma {:induction false} ValidIsEncoding(bytes: seq<byte>, i: nat) returns (cps: seq<nat>)
    requires i <= |bytes| && ValidFrom(bytes, i)
    ensures AllAdmitted(cps) && EncodeAll(cps) == bytes[i..]
    decreases |bytes| - i
  {
    if i == |bytes| {
      cps := [];
    } else {
      hide Accepts, Decode, Encode, Admitted;
      var len := Accepts(bytes, i);
      AcceptedIsEncoding(bytes, i);
      var rest := ValidIsEncoding(bytes, i + len);
      cps := [Decode(bytes, i)] + rest;
      EncodeCons(Decode(bytes, i), rest);
      assert bytes[i..] == bytes[i..i + len] + bytes[i + len..];
    }
  }

  lemma {:induction false} EncodingIsValid(bytes: seq<byte>, i: nat, cps: seq<nat>)
    requires i <= |bytes| && AllAdmitted(cps) && EncodeAll(cps) == bytes[i..]
    ensures ValidFrom(bytes, i)
    decreases |cps|
  {
    if cps != [] {
      hide Accepts, Decode, Encode, Admitted;
      var e := Encode(cps[0]);
      assert bytes[i..][..|e|] == e && bytes[i..][..|e|] == bytes[i..i + |e|];
      EncodingIsAccepted(bytes, i, cps[0]);
      assert bytes[i..][|e|..] == EncodeAll(cps[1..]) && bytes[i..][|e|..] == bytes[i + |e|..];
      EncodingIsValid(bytes, i + |e|, cps[1..]);
    }
  }

  /** The validator accepts exactly the concatenations of encodings. */
  lemma Meaning(bytes: seq<byte>)
    ensures ValidFrom(bytes, 0) <==> exists cps: seq<nat> :: AllAdmitted(cps) && EncodeAll(cps) == bytes
  {
    hide Accepts, Encode, Admitted;
    assert bytes[0..] == bytes;
    if ValidFrom(bytes, 0) { var cps := ValidIsEncoding(bytes, 0); }
    forall cps: seq<nat> | AllAdmitted(cps) && EncodeAll(cps) == bytes
      ensures ValidFrom(bytes, 0)
    {
      EncodingIsValid(bytes, 0, cps);
    }
  }

  /** No byte string has two decompositions. */
  lemma {:induction false} DecompositionIsUnique(a: seq<nat>, b: seq<nat>)
    requires AllAdmitted(a) && AllAdmitted(b) && EncodeAll(a) == EncodeAll(b)
    ensures a == b
    decreases |a|
  {
    hide Accepts, Decode, Encode;
    if a != [] && b != [] {
      var bytes := EncodeAll(a);
      var e, f := Encode(a[0]), Encode(b[0]);
      assert bytes[0..|e|] == e && bytes[0..|f|] == f;
      EncodingIsAccepted(bytes, 0, a[0]);
      EncodingIsAccepted(bytes, 0, b[0]);
      assert bytes[|e|..] == EncodeAll(a[1..]) && bytes[|f|..] == EncodeAll(b[1..]);
      DecompositionIsUnique(a[1..], b[1..]);
      assert a == [a[0]] + a[1..] && b == [b[0]] + b[1..];
    }
  }
}
