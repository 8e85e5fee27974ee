/**
 * ECDSA signatures between raw r||s and DER (stella-launcher.cpp:763-805):
 * a SEQUENCE of two INTEGERs, sections 8.3 and 10.1 of ITU-T X.690.
 */
module DerSignatures {
  import opened Options
  import opened Bytes

  /** Leading zero bytes dropped, but never the last byte. */
  function Strip(v: seq<Byte>): (w: seq<Byte>)
    requires v != []
    ensures w != [] && |w| <= |v|
    ensures |w| > 1 ==> w[0] != 0
  {
    if |v| > 1 && v[0] == 0 then Strip(v[1..]) else v
  }

  /** Every leading zero byte dropped. */
  function StripAll(v: seq<Byte>): (w: seq<Byte>)
    ensures |w| <= |v|
  {
    if v != [] && v[0] == 0 then StripAll(v[1..]) else v
  }

  /** The content octets of a non-negative INTEGER. */
  function Content(v: seq<Byte>): (c: seq<Byte>)
    requires v != []
    ensures c != [] && |c| <= |v| + 1
  {
    var w := Strip(v);
    if w[0] >= 0x80 then [0] + w else w
  }

  function DerInteger(v: seq<Byte>): seq<Byte>
    requires 0 < |v| <= 32
  {
    [0x02, |Content(v)|] + Content(v)
  }

  function RawToDer(raw: seq<Byte>): seq<Byte>
    requires |raw| == 64
  {
    var body := DerInteger(raw[..32]) + DerInteger(raw[32..]);
    [0x30, |body|] + body
  }

  datatype Reading<T> = Reading(value: T, next: nat)

  function ReadLen(der: seq<Byte>, i: nat): (r: Option<Reading<nat>>)
    ensures r.Some? ==> i < r.value.next <= |der|
  {
    if i >= |der| then None
    else if der[i] < 0x80 then Some(Reading(der[i], i + 1))
    else if der[i] == 0x81 && i + 1 < |der| then Some(Reading(der[i + 1], i + 2))
    else None
  }

  function Zeros(n: nat): seq<Byte> { seq(n, _ => 0) }

  /** A value of at most 32 bytes, right-aligned in 32. */
  function Pad32(w: seq<Byte>): (r: seq<Byte>)
    requires |w| <= 32
    ensures |r| == 32
  {
    Zeros(32 - |w|) + w
  }

  function ReadInteger(der: seq<Byte>, i: nat): (r: Option<Reading<seq<Byte>>>)
    ensures r.Some? ==> |r.value.value| == 32 && r.value.next <= |der|
  {
    if i >= |der| || der[i] != 0x02 then None
    else
      var len := ReadLen(der, i + 1);
      if len.None? || len.value.next + len.value.value > |der| then None
      else
        var end := len.value.next + len.value.value;
        var w := StripAll(der[len.value.next..end]);
        if |w| > 32 then None else Some(Reading(Pad32(w), end))
  }

  function DerToRaw(der: seq<Byte>): (raw: Option<seq<Byte>>)
    ensures raw.Some? ==> |raw.value| == 64
  {
    if |der| < 8 || der[0] != 0x30 then None
    else
      var len := ReadLen(der, 1);
      if len.None? || len.value.next + len.value.value != |der| then None
      else
        var r := ReadInteger(der, len.value.next);
        if r.None? then None
        else
          var s := ReadInteger(der, r.value.next);
          if s.None? || s.value.next != |der| then None else Some(r.value.value + s.value.value)
  }

  // ------------------------------------------------------------------ in place

  method AppendDerInteger(out: seq<Byte>, v: seq<Byte>) returns (out': seq<Byte>)
    requires 0 < |v| <= 32
    ensures out' == out + DerInteger(v)
  {
    var at, len := 0, |v|;
    assert v[0..] == v;
    while len > 1 && v[at] == 0
      invariant len >= 1 && at + len == |v| && Strip(v[at..]) == Strip(v)
    {
      assert v[at..][1..] == v[at + 1..];
      at, len := at + 1, len - 1;
    }
    var pad := v[at] >= 0x80;
    out' := out + [0x02];
    out' := out' + [len + (if pad then 1 else 0)];
    if pad { out' := out' + [0]; }
    out' := out' + v[at..];
  }

  method EncodeDer(raw: seq<Byte>) returns (der: seq<Byte>)
    requires |raw| == 64
    ensures der == RawToDer(raw)
  {
    var body := AppendDerInteger([], raw[..32]);
    body := AppendDerInteger(body, raw[32..]);
    assert body == DerInteger(raw[..32]) + DerInteger(raw[32..]);
    der := [0x30, |body|] + body;
  }

  method SkipZeros(der: seq<Byte>, i: nat, end: nat) returns (v: nat)
    requires i <= end <= |der|
    ensures i <= v <= end && der[v..end] == StripAll(der[i..end])
  {
    v := i;
    while v < end && der[v] == 0
      invariant i <= v <= end && StripAll(der[v..end]) == StripAll(der[i..end])
    {
      assert der[v..end][1..] == der[v + 1..end];
      v := v + 1;
    }
  }

  /** Right-aligns `w` in a zeroed half of the raw signature. */
  method PlaceHalf(raw: array<Byte>, part: nat, w: seq<Byte>)
    requires raw.Length == 64 && part < 2 && |w| <= 32
    requires forall k :: part * 32 <= k < part * 32 + 32 ==> raw[k] == 0
    modifies raw
    ensures raw[part * 32..part * 32 + 32] == Pad32(w)
    ensures forall k :: 0 <= k < 64 && !(part * 32 <= k < part * 32 + 32) ==> raw[k] == old(raw[k])
  {
    var to := part * 32 + (32 - |w|);
    forall k | 0 <= k < |w| { raw[to + k] := w[k]; }
  }

  method ReadIntegerInto(der: seq<Byte>, start: nat, raw: array<Byte>, part: nat) returns (ok: bool, i: nat)
    requires raw.Length == 64 && part < 2
    requires forall k :: part * 32 <= k < part * 32 + 32 ==> raw[k] == 0
    modifies raw
    ensures ok == ReadInteger(der, start).Some?
    ensures ok ==> i == ReadInteger(der, start).value.next
                   && raw[part * 32..part * 32 + 32] == ReadInteger(der, start).value.value
    ensures forall k :: 0 <= k < 64 && !(part * 32 <= k < part * 32 + 32) ==> raw[k] == old(raw[k])
  {
    hide Pad32, StripAll;
    i := start;
    if i >= |der| || der[i] != 0x02 { return false, i; }
    var len := ReadLen(der, i + 1);
    if len.None? || len.value.next + len.value.value > |der| { return false, i; }
    var end := len.value.next + len.value.value;
    var v := SkipZeros(der, len.value.next, end);
    if end - v > 32 { return false, i; }
    PlaceHalf(raw, part, der[v..end]);
    return true, end;
  }

  method DecodeDer(der: seq<Byte>) returns (ok: bool, raw: array<Byte>)
    ensures raw.Length == 64 && ok == DerToRaw(der).Some?
    ensures ok ==> raw[..] == DerToRaw(der).value
  {
    raw := new Byte[64](_ => 0);
    ok := false;
    if |der| < 8 || der[0] != 0x30 { return; }
    var len := ReadLen(der, 1);
    if len.None? || len.value.next + len.value.value != |der| { return; }
    var read, i := ReadIntegerInto(der, len.value.next, raw, 0);
    if !read { return; }
    ghost var r := raw[0..32];
    read, i := ReadIntegerInto(der, i, raw, 1);
    if !read { return; }
    assert raw[0..32] == r;
    assert raw[..] == raw[0..32] + raw[32..64];
    ok := i == |der|;
  }

  // ---------------------------------------------------------------- properties

  /** The number a big-endian byte string stands for. */
  ghost function Value(v: seq<Byte>): nat
    decreases |v|
  {
    if v == [] then 0 else Value(v[..|v| - 1]) * 256 + v[|v| - 1]
  }

  /** Section 8.3.2: a non-negative INTEGER in as few octets as possible. */
  ghost predicate Minimal(c: seq<Byte>) {
    c != [] && c[0] < 0x80 && (|c| > 1 && c[0] == 0 ==> c[1] >= 0x80)
  }

  lemma {:induction false} LeadingZero(v: seq<Byte>)
    ensures Value([0] + v) == Value(v)
    decreases |v|
  {
    if v == [] {
      assert ([0] + v)[..0] == [];
    } else {
      assert ([0] + v)[..|v|] == [0] + v[..|v| - 1];
      LeadingZero(v[..|v| - 1]);
    }
  }

  lemma {:induction false} StripValue(v: seq<Byte>)
    requires v != []
    ensures Value(Strip(v)) == Value(v)
    decreases |v|
  {
    if |v| > 1 && v[0] == 0 {
      StripValue(v[1..]);
      LeadingZero(v[1..]);
      assert [0] + v[1..] == v;
    }
  }

  lemma {:induction false} StripAllPads(v: seq<Byte>)
    requires |v| <= 32
    ensures Pad32(StripAll(v)) == Pad32(v)
    decreases |v|
  {
    if v != [] && v[0] == 0 {
      StripAllPads(v[1..]);
      assert Zeros(33 - |v|) + v[1..] == Zeros(32 - |v|) + v;
    }
  }

  lemma {:induction false} StripAllStrip(v: seq<Byte>)
    requires v != []
    ensures StripAll(Strip(v)) == StripAll(v)
    decreases |v|
  {
    if |v| > 1 && v[0] == 0 { StripAllStrip(v[1..]); }
  }

  /** The content octets are minimal, stand for the same number, and read back to the same 32 bytes. */
  lemma {:induction false} ContentMeans(v: seq<Byte>)
    requires |v| == 32
    ensures Minimal(Content(v)) && Value(Content(v)) == Value(v) && |Content(v)| <= 33
    ensures |StripAll(Content(v))| <= 32 && Pad32(StripAll(Content(v))) == v
  {
    var w := Strip(v);
    StripValue(v);
    LeadingZero(w);
    StripAllStrip(v);
    StripAllPads(v);
    assert ([0] + w)[1..] == w;
    assert Zeros(0) + v == v;
  }

  lemma {:induction false} ReadsAt(der: seq<Byte>, i: nat, c: seq<Byte>)
    requires i + 2 + |c| <= |der| && der[i] == 0x02 && der[i + 1] == |c| < 0x80 && der[i + 2..i + 2 + |c|] == c
    requires |StripAll(c)| <= 32
    ensures ReadInteger(der, i) == Some(Reading(Pad32(StripAll(c)), i + 2 + |c|))
  {
    hide StripAll, Pad32;
  }

  lemma {:induction false} ReadsBack(before: seq<Byte>, v: seq<Byte>, after: seq<Byte>)
    requires |v| == 32
    ensures ReadInteger(before + DerInteger(v) + after, |before|) == Some(Reading(v, |before| + |DerInteger(v)|))
  {
    hide Content, StripAll, Pad32, ReadInteger, Minimal, Value;
    ContentMeans(v);
    var c := Content(v);
    var der := before + DerInteger(v) + after;
    var i := |before|;
    assert der == before + [0x02, |c|] + (c + after);
    assert der[i] == 0x02 && der[i + 1] == |c|;
    assert der[i + 2..] == c + after;
    assert der[i + 2..i + 2 + |c|] == c;
    ReadsAt(der, i, c);
  }

  lemma {:induction false} EncodingShape(raw: seq<Byte>)
    requires |raw| == 64
    ensures var r, s := Content(raw[..32]), Content(raw[32..]);
            && |r| <= 33 && |s| <= 33
            && RawToDer(raw) == [0x30, 4 + |r| + |s|] + ([0x02, |r|] + r) + ([0x02, |s|] + s)
  {
    ContentMeans(raw[..32]);
    ContentMeans(raw[32..]);
    hide Content;
    var r, s := Content(raw[..32]), Content(raw[32..]);
    var body := ([0x02, |r|] + r) + ([0x02, |s|] + s);
    assert |body| == 4 + |r| + |s|;
    assert [0x30, |body|] + body == [0x30, |body|] + ([0x02, |r|] + r) + ([0x02, |s|] + s);
  }

  lemma {:induction false} DecodesBack(raw: seq<Byte>)
    requires |raw| == 64
    ensures DerToRaw(RawToDer(raw)) == Some(raw)
  {
    EncodingShape(raw);
    hide ReadInteger, RawToDer, Content;
    var der := RawToDer(raw);
    var a, b := DerInteger(raw[..32]), DerInteger(raw[32..]);
    var head := der[..2];
    assert head == [0x30, |a| + |b|];
    assert der == head + a + b && der == (head + a) + b + [];
    ReadsBack(head, raw[..32], b);
    ReadsBack(head + a, raw[32..], []);
    assert raw[..32] + raw[32..] == raw;
  }

  /**
   * Every 64-byte signature survives DER and back; the encoding holds two
   * minimal INTEGERs with the values of its halves, in at most 72 bytes.
   */
  lemma {:induction false} SignatureRoundTrip(raw: seq<Byte>)
    requires |raw| == 64
    ensures DerToRaw(RawToDer(raw)) == Some(raw)
    ensures 8 <= |RawToDer(raw)| <= 72
    ensures exists r: seq<Byte>, s: seq<Byte> ::
              && Minimal(r) && Minimal(s) && Value(r) == Value(raw[..32]) && Value(s) == Value(raw[32..])
              && |r| + |s| <= 66
              && RawToDer(raw) == [0x30, 4 + |r| + |s|] + ([0x02, |r|] + r) + ([0x02, |s|] + s)
  {
    hide RawToDer, DerToRaw, Content, Value;
    ContentMeans(raw[..32]);
    ContentMeans(raw[32..]);
    EncodingShape(raw);
    DecodesBack(raw);
  }
}
