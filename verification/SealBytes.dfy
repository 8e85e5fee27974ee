/** The UTF-16 to UTF-8 writer behind sealed answers (user-ask.ts:689-720). */
module SealBytes {
  import opened Options
  import opened Bytes

  /** A UTF-16 code unit; a JavaScript string is any sequence of them. */
  type Unit = u: int | 0 <= u < 0x10000

  predicate IsHigh(u: Unit) { 0xD800 <= u <= 0xDBFF }
  predicate IsLow(u: Unit) { 0xDC00 <= u <= 0xDFFF }

  function Pair(high: Unit, low: Unit): (cp: nat)
    requires IsHigh(high) && IsLow(low)
    ensures 0x10000 <= cp < 0x110000
  {
    (high - 0xD800) * 0x400 + (low - 0xDC00) + 0x10000
  }

  predicate StartsPair(s: seq<Unit>) { |s| > 1 && IsHigh(s[0]) && IsLow(s[1]) }

  function SealUtf8(s: seq<Unit>): seq<Byte>
    decreases |s|
  {
    if s == [] then []
    else if StartsPair(s) then Utf8(Pair(s[0], s[1])) + SealUtf8(s[2..])
    else Utf8(s[0]) + SealUtf8(s[1..])
  }

  lemma {:induction false} SealFrom(value: seq<Unit>, i: nat)
    requires i < |value|
    ensures SealUtf8(value[i..]) ==
            if i + 1 < |value| && IsHigh(value[i]) && IsLow(value[i + 1])
            then Utf8(Pair(value[i], value[i + 1])) + SealUtf8(value[i + 2..])
            else Utf8(value[i]) + SealUtf8(value[i + 1..])
  {
    assert value[i..][1..] == value[i + 1..];
    if i + 1 < |value| { assert value[i..][2..] == value[i + 2..]; }
  }

  method SealUtf8Bytes(value: seq<Unit>) returns (bytes: seq<Byte>)
    ensures bytes == SealUtf8(value)
  {
    hide Utf8, SealUtf8, Pair;
    bytes := [];
    var index := 0;
    assert value[0..] == value;
    while index < |value|
      invariant 0 <= index <= |value| && bytes + SealUtf8(value[index..]) == SealUtf8(value)
    {
      SealFrom(value, index);
      var codePoint: nat := value[index];
      if IsHigh(value[index]) && index + 1 < |value| {
        var low := value[index + 1];
        if IsLow(low) {
          codePoint := Pair(value[index], low);
          index := index + 1;
        }
      }
      bytes := bytes + Utf8(codePoint);
      index := index + 1;
    }
    SealNothing();
    assert value[index..] == [];
  }

  lemma SealNothing()
    ensures SealUtf8([]) == []
  {
  }

  // ------------------------------------------------------------------ decoding

  datatype CodePoint = CodePoint(cp: nat, rest: seq<Byte>)

  predicate IsTail(b: Byte) { 0x80 <= b < 0xC0 }

  /** One code point by its lead byte (section 3 of RFC 3629), surrogates not excluded. */
  function DecodeOne(b: seq<Byte>): (r: Option<CodePoint>)
    ensures r.Some? ==> |r.value.rest| < |b|
  {
    if b == [] then None
    else if b[0] < 0x80 then Some(CodePoint(b[0], b[1..]))
    else if 0xC0 <= b[0] < 0xE0 && |b| >= 2 && IsTail(b[1]) then
      Some(CodePoint((b[0] as int - 0xC0) * 64 + (b[1] as int - 0x80), b[2..]))
    else if 0xE0 <= b[0] < 0xF0 && |b| >= 3 && IsTail(b[1]) && IsTail(b[2]) then
      Some(CodePoint((b[0] as int - 0xE0) * 4096 + (b[1] as int - 0x80) * 64 + (b[2] as int - 0x80), b[3..]))
    else if 0xF0 <= b[0] < 0xF5 && |b| >= 4 && IsTail(b[1]) && IsTail(b[2]) && IsTail(b[3]) then
      Some(CodePoint((b[0] as int - 0xF0) * 262144 + (b[1] as int - 0x80) * 4096
                     + (b[2] as int - 0x80) * 64 + (b[3] as int - 0x80), b[4..]))
    else None
  }

  function Units(cp: nat): Option<seq<Unit>> {
    if cp < 0x10000 then Some([cp])
    else if cp < 0x110000 then Some([0xD800 + (cp - 0x10000) / 0x400, 0xDC00 + (cp - 0x10000) % 0x400])
    else None
  }

  function Decode(b: seq<Byte>): Option<seq<Unit>>
    decreases |b|
  {
    if b == [] then Some([])
    else
      var one := DecodeOne(b);
      if one.None? then None
      else
        var units := Units(one.value.cp);
        var more := Decode(one.value.rest);
        if units.None? || more.None? then None else Some(units.value + more.value)
  }

  /** The UTF8-octets grammar of section 4 of RFC 3629. */
  predicate ValidUtf8(b: seq<Byte>)
    decreases |b|
  {
    if b == [] then true
    else if b[0] < 0x80 then ValidUtf8(b[1..])
    else if 0xC2 <= b[0] <= 0xDF then |b| >= 2 && IsTail(b[1]) && ValidUtf8(b[2..])
    else if 0xE0 <= b[0] <= 0xEF then
      && |b| >= 3 && IsTail(b[1]) && IsTail(b[2])
      && (b[0] == 0xE0 ==> b[1] >= 0xA0) && (b[0] == 0xED ==> b[1] <= 0x9F)
      && ValidUtf8(b[3..])
    else if 0xF0 <= b[0] <= 0xF4 then
      && |b| >= 4 && IsTail(b[1]) && IsTail(b[2]) && IsTail(b[3])
      && (b[0] == 0xF0 ==> b[1] >= 0x90) && (b[0] == 0xF4 ==> b[1] <= 0x8F)
      && ValidUtf8(b[4..])
    else false
  }

  lemma {:induction false} SixBits(cp: nat)
    ensures cp / 4096 == cp / 64 / 64 && cp / 262144 == cp / 4096 / 64
    ensures cp == cp / 64 * 64 + cp % 64
    ensures cp == cp / 4096 * 4096 + cp / 64 % 64 * 64 + cp % 64
    ensures cp == cp / 262144 * 262144 + cp / 4096 % 64 * 4096 + cp / 64 % 64 * 64 + cp % 64
  {
  }

  lemma {:induction false} DecodesOne(cp: nat, rest: seq<Byte>)
    requires cp < 0x110000
    ensures DecodeOne(Utf8(cp) + rest) == Some(CodePoint(cp, rest))
  {
    SixBits(cp);
    var u := Utf8(cp);
    var b := u + rest;
    assert b[|u|..] == rest;
    assert forall i :: 0 <= i < |u| ==> b[i] == u[i];
  }

  lemma {:induction false} PairUnits(high: Unit, low: Unit)
    requires IsHigh(high) && IsLow(low)
    ensures Units(Pair(high, low)) == Some([high, low])
  {
  }

  /** Every UTF-16 string comes back, lone surrogates included: no two strings share their bytes. */
  lemma {:induction false} SealRoundTrip(s: seq<Unit>)
    ensures Decode(SealUtf8(s)) == Some(s)
    decreases |s|
  {
    hide Utf8, DecodeOne, Pair;
    if s != [] {
      var pair := StartsPair(s);
      var cp := if pair then Pair(s[0], s[1]) else s[0];
      var rest := if pair then s[2..] else s[1..];
      DecodesOne(cp, SealUtf8(rest));
      SealRoundTrip(rest);
      if pair {
        PairUnits(s[0], s[1]);
        assert [s[0], s[1]] + rest == s;
      } else {
        assert [s[0]] + rest == s;
      }
    }
  }

  lemma {:induction false} SealInjective(s: seq<Unit>, t: seq<Unit>)
    requires SealUtf8(s) == SealUtf8(t)
    ensures s == t
  {
    hide SealUtf8, Decode;
    SealRoundTrip(s);
    SealRoundTrip(t);
  }

  /** Every surrogate is half of a pair. */
  predicate WellFormed(s: seq<Unit>)
    decreases |s|
  {
    if s == [] then true
    else if StartsPair(s) then WellFormed(s[2..])
    else !IsHigh(s[0]) && !IsLow(s[0]) && WellFormed(s[1..])
  }

  lemma {:induction false} ValidShort(cp: nat, rest: seq<Byte>)
    requires cp < 0x800
    ensures ValidUtf8(Utf8(cp) + rest) <==> ValidUtf8(rest)
  {
    assert (Utf8(cp) + rest)[|Utf8(cp)|..] == rest;
  }

  lemma {:induction false} ValidThree(cp: nat, rest: seq<Byte>)
    requires 0x800 <= cp < 0x10000
    ensures ValidUtf8(Utf8(cp) + rest) <==> !(0xD800 <= cp <= 0xDFFF) && ValidUtf8(rest)
  {
    assert (Utf8(cp) + rest)[|Utf8(cp)|..] == rest;
  }

  lemma {:induction false} ValidFour(cp: nat, rest: seq<Byte>)
    requires 0x10000 <= cp < 0x110000
    ensures ValidUtf8(Utf8(cp) + rest) <==> ValidUtf8(rest)
  {
    assert (Utf8(cp) + rest)[|Utf8(cp)|..] == rest;
  }

  lemma {:induction false} ValidOne(cp: nat, rest: seq<Byte>)
    requires cp < 0x110000
    ensures ValidUtf8(Utf8(cp) + rest) <==> !(0xD800 <= cp <= 0xDFFF) && ValidUtf8(rest)
  {
    hide Utf8, ValidUtf8;
    if cp < 0x800 { ValidShort(cp, rest); }
    else if cp < 0x10000 { ValidThree(cp, rest); }
    else { ValidFour(cp, rest); }
  }

  /** The bytes are valid UTF-8 exactly for the strings without lone surrogates. */
  lemma {:induction false} SealValidIff(s: seq<Unit>)
    ensures ValidUtf8(SealUtf8(s)) <==> WellFormed(s)
    decreases |s|
  {
    hide Utf8, Pair;
    if s != [] {
      var pair := StartsPair(s);
      var cp := if pair then Pair(s[0], s[1]) else s[0];
      var rest := if pair then s[2..] else s[1..];
      ValidOne(cp, SealUtf8(rest));
      SealValidIff(rest);
    }
  }
}
