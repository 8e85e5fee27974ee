/**
 * The launchers' JSON reader and string escaper (launcher/common/mini_json.h).
 * The grammar is given by functions from a text and a position; the parser
 * class below advances its cursor and fills its buffers in place.
 */
module MiniJson {
  import opened Options
  import opened Bytes

  const QUOTE: Byte := 34
  const BACKSLASH: Byte := 92
  const COMMA: Byte := 44
  const COLON: Byte := 58
  const MAX_DEPTH := 64

  datatype Value =
    | Null
    | Bool(boolean: bool)
    | Number(digits: seq<Byte>)
    | Str(text: seq<Byte>)
    | Arr(items: seq<Value>)
    | Obj(members: seq<(seq<Byte>, Value)>)

  datatype Parsed<T> = Fail | At(value: T, next: nat)

  predicate IsWs(c: Byte) { c == 32 || c == 9 || c == 10 || c == 13 }

  function SkipWs(text: seq<Byte>, p: nat): (q: nat)
    requires p <= |text|
    ensures p <= q <= |text|
    decreases |text| - p
  {
    if p < |text| && IsWs(text[p]) then SkipWs(text, p + 1) else p
  }

  function Hex(c: Byte): (h: Option<nat>)
    ensures h.Some? ==> h.value < 16
  {
    if 48 <= c <= 57 then Some(c - 48)
    else if 97 <= c <= 102 then Some(c - 87)
    else if 65 <= c <= 70 then Some(c - 55)
    else None
  }

  /** The first `n` of four hex digits, most significant first. */
  function HexDigits(text: seq<Byte>, p: nat, n: nat): (r: Option<nat>)
    requires p + n <= |text|
    ensures r.Some? && n <= 4 ==>
              r.value < if n == 4 then 0x10000 else if n == 3 then 0x1000 else if n == 2 then 256
                        else if n == 1 then 16 else 1
  {
    if n == 0 then Some(0)
    else
      var high, low := HexDigits(text, p, n - 1), Hex(text[p + n - 1]);
      if high.None? || low.None? then None else Some(high.value * 16 + low.value)
  }

  function Hex4(text: seq<Byte>, p: nat): (r: Option<nat>)
    ensures r.Some? ==> r.value < 0x10000 && p + 4 <= |text|
  {
    if |text| < p + 4 then None else HexDigits(text, p, 4)
  }

  /** The code point after `\u`, a surrogate pair joined, a lone surrogate replaced. */
  function Unicode(text: seq<Byte>, p: nat): (r: Parsed<nat>)
    ensures r.At? ==> p + 4 <= r.next <= |text| && r.value < 0x110000
    ensures r.At? && r.value >= 0x10000 ==> p + 10 <= r.next
  {
    var cp := Hex4(text, p);
    if cp.None? then Fail
    else if 0xD800 <= cp.value <= 0xDBFF && |text| >= p + 10 && text[p + 4] == BACKSLASH && text[p + 5] == 117 then
      var lo := Hex4(text, p + 6);
      if lo.None? then Fail
      else if 0xDC00 <= lo.value <= 0xDFFF then
        At(0x10000 + (cp.value - 0xD800) * 1024 + (lo.value - 0xDC00), p + 10)
      else At(0xFFFD, p + 10)
    else if 0xD800 <= cp.value <= 0xDFFF then At(0xFFFD, p + 4)
    else At(cp.value, p + 4)
  }

  /** What a one-letter escape stands for. */
  function Unescape(c: Byte): Option<Byte> {
    if c == QUOTE || c == BACKSLASH || c == 47 then Some(c)
    else if c == 98 then Some(8)
    else if c == 102 then Some(12)
    else if c == 110 then Some(10)
    else if c == 114 then Some(13)
    else if c == 116 then Some(9)
    else None
  }

  function Before(s: seq<Byte>, r: Parsed<seq<Byte>>): Parsed<seq<Byte>> {
    if r.Fail? then Fail else At(s + r.value, r.next)
  }

  /** The bytes an escape stands for, read from just past its backslash: never more than it took. */
  function EscapeAt(text: seq<Byte>, p: nat): (r: Parsed<seq<Byte>>)
    ensures r.At? ==> p < r.next <= |text| && |r.value| <= r.next - p
  {
    if p >= |text| then Fail
    else if text[p] == 117 then
      var u := Unicode(text, p + 1);
      if u.Fail? then Fail else At(Utf8(u.value), u.next)
    else
      var c := Unescape(text[p]);
      if c.None? then Fail else At([c.value], p + 1)
  }

  /** A string body from just past its opening quote through its closing one. */
  function ParseString(text: seq<Byte>, p: nat): (r: Parsed<seq<Byte>>)
    requires p <= |text|
    ensures r.At? ==> p < r.next <= |text| && |r.value| < r.next - p
    decreases |text| - p
  {
    if p >= |text| then Fail
    else if text[p] == QUOTE then At([], p + 1)
    else if text[p] < 32 then Fail
    else if text[p] != BACKSLASH then Before([text[p]], ParseString(text, p + 1))
    else
      var e := EscapeAt(text, p + 1);
      if e.Fail? then Fail else Before(e.value, ParseString(text, e.next))
  }

  /** `strchr` also finds the terminator, so a NUL passes for a number character. */
  predicate IsNumberChar(c: Byte) { c == 0 || c == 43 || c == 45 || 48 <= c <= 57 || c == 46 || c == 101 || c == 69 }

  function NumberEnd(text: seq<Byte>, p: nat, budget: nat): (q: nat)
    requires p <= |text|
    ensures p <= q <= |text|
    decreases budget
  {
    if budget > 0 && p < |text| && IsNumberChar(text[p]) then NumberEnd(text, p + 1, budget - 1) else p
  }

  function Keyword(text: seq<Byte>, p: nat, word: seq<Byte>, v: Value): (r: Parsed<Value>)
    requires p <= |text| && word != []
    ensures r.At? ==> p < r.next <= |text|
  {
    if p + |word| <= |text| && text[p..p + |word|] == word then At(v, p + |word|) else Fail
  }

  function ParseValue(text: seq<Byte>, p: nat, depth: nat): (r: Parsed<Value>)
    requires p <= |text|
    ensures r.At? ==> p < r.next <= |text|
    decreases |text| - p, 1
  {
    var q := SkipWs(text, p);
    if q >= |text| || depth + 1 > MAX_DEPTH then Fail
    else if text[q] == 123 then
      var c := SkipWs(text, q + 1);
      if c < |text| && text[c] == 125 then At(Obj([]), c + 1) else ParseMembers(text, c, depth + 1, [])
    else if text[q] == 91 then
      var c := SkipWs(text, q + 1);
      if c < |text| && text[c] == 93 then At(Arr([]), c + 1) else ParseItems(text, c, depth + 1, [])
    else if text[q] == QUOTE then
      var s := ParseString(text, q + 1);
      if s.Fail? then Fail else At(Str(s.value), s.next)
    else if text[q] == 116 then Keyword(text, q, Ascii("true"), Bool(true))
    else if text[q] == 102 then Keyword(text, q, Ascii("false"), Bool(false))
    else if text[q] == 110 then Keyword(text, q, Ascii("null"), Null)
    else
      var e := NumberEnd(text, q, 63);
      if e == q then Fail else At(Number(text[q..e]), e)
  }

  function ParseItems(text: seq<Byte>, p: nat, depth: nat, acc: seq<Value>): (r: Parsed<Value>)
    requires p <= |text|
    ensures r.At? ==> p < r.next <= |text|
    decreases |text| - p, 2
  {
    var v := ParseValue(text, SkipWs(text, p), depth);
    if v.Fail? then Fail
    else
      var e := SkipWs(text, v.next);
      if e < |text| && text[e] == COMMA then ParseItems(text, e + 1, depth, acc + [v.value])
      else if e < |text| && text[e] == 93 then At(Arr(acc + [v.value]), e + 1)
      else Fail
  }

  /** An object key and its colon; the cursor is left past the colon. */
  function ParseKey(text: seq<Byte>, p: nat): (r: Parsed<seq<Byte>>)
    requires p <= |text|
    ensures r.At? ==> p < r.next <= |text|
  {
    var q := SkipWs(text, p);
    if q >= |text| || text[q] != QUOTE then Fail
    else
      var k := ParseString(text, q + 1);
      if k.Fail? then Fail
      else
        var c := SkipWs(text, k.next);
        if c >= |text| || text[c] != COLON then Fail else At(k.value, c + 1)
  }

  function ParseMembers(text: seq<Byte>, p: nat, depth: nat, acc: seq<(seq<Byte>, Value)>): (r: Parsed<Value>)
    requires p <= |text|
    ensures r.At? ==> p < r.next <= |text|
    decreases |text| - p, 2
  {
    var k := ParseKey(text, p);
    if k.Fail? then Fail
    else
      var v := ParseValue(text, k.next, depth);
      if v.Fail? then Fail
      else
        var e := SkipWs(text, v.next);
        if e < |text| && text[e] == COMMA then ParseMembers(text, e + 1, depth, acc + [(k.value, v.value)])
        else if e < |text| && text[e] == 125 then At(Obj(acc + [(k.value, v.value)]), e + 1)
        else Fail
  }

  /** A whole document. */
  function Parse(text: seq<Byte>): Option<Value> {
    var v := ParseValue(text, 0, 0);
    if v.Fail? || SkipWs(text, v.next) != |text| then None else Some(v.value)
  }

  // ------------------------------------------------------------------- quoting

  function HexDigit(n: nat): Byte
    requires n < 16
  {
    if n < 10 then 48 + n else 87 + n
  }

  function EscapeOne(c: Byte): (e: seq<Byte>)
    ensures 1 <= |e| <= 6
  {
    if c == QUOTE || c == BACKSLASH then [BACKSLASH, c]
    else if c == 10 then [BACKSLASH, 110]
    else if c == 13 then [BACKSLASH, 114]
    else if c == 9 then [BACKSLASH, 116]
    else if c < 32 then [BACKSLASH, 117, 48, 48, HexDigit(c / 16), HexDigit(c % 16)]
    else [c]
  }

  function Escape(s: seq<Byte>): (e: seq<Byte>)
    ensures |e| <= 6 * |s|
  {
    if s == [] then [] else EscapeOne(s[0]) + Escape(s[1..])
  }

  function Quote(s: seq<Byte>): seq<Byte> { [QUOTE] + Escape(s) + [QUOTE] }

  /** A C string holds no NUL. */
  predicate NulFree(s: seq<Byte>) { forall i :: 0 <= i < |s| ==> s[i] != 0 }

  /** What C string functions see of a buffer: everything up to its first NUL. */
  function CString(s: seq<Byte>): seq<Byte> {
    if s == [] || s[0] == 0 then [] else [s[0]] + CString(s[1..])
  }

  function Find(members: seq<(seq<Byte>, Value)>, key: seq<Byte>): Option<Value> {
    if members == [] then None
    else if CString(members[0].0) == CString(key) then Some(members[0].1)
    else Find(members[1..], key)
  }

  function GetString(obj: Value, key: seq<Byte>): Option<seq<Byte>> {
    if !obj.Obj? then None
    else
      var v := Find(obj.members, key);
      if v.None? || !v.value.Str? then None else Some(CString(v.value.text))
  }

  // ---------------------------------------------------------------- properties

  lemma {:induction false} EscapeOneReads(pre: seq<Byte>, c: Byte, rest: seq<Byte>)
    ensures var text := pre + EscapeOne(c) + rest;
            ParseString(text, |pre|) == Before([c], ParseString(text, |pre| + |EscapeOne(c)|))
  {
    var e := EscapeOne(c);
    var text := pre + e + rest;
    var p := |pre|;
    assert forall i :: 0 <= i < |e| ==> text[p + i] == e[i];
    if c < 32 && c != 10 && c != 13 && c != 9 {
      assert HexDigits(text, p + 2, 1) == Some(0);
      assert HexDigits(text, p + 2, 2) == Some(0);
      assert HexDigits(text, p + 2, 3) == Some(c / 16);
      assert HexDigits(text, p + 2, 4) == Some(c as nat);
      assert Unicode(text, p + 2) == At(c as nat, p + 6);
    }
  }

  lemma {:induction false} ClosingQuote(pre: seq<Byte>, tail: seq<Byte>)
    ensures ParseString(pre + [QUOTE] + tail, |pre|) == At([], |pre| + 1)
  {
    assert (pre + [QUOTE] + tail)[|pre|] == QUOTE;
  }

  lemma {:induction false} Regroup(pre: seq<Byte>, e: seq<Byte>, more: seq<Byte>, tail: seq<Byte>)
    ensures pre + (e + more) + [QUOTE] + tail == pre + e + (more + [QUOTE] + tail)
    ensures (pre + e) + more + [QUOTE] + tail == pre + e + (more + [QUOTE] + tail)
  {
  }

  /** An escaped string reads back as itself, wherever it stands in a document. */
  lemma {:induction false} EscapeReads(pre: seq<Byte>, s: seq<Byte>, tail: seq<Byte>)
    ensures ParseString(pre + Escape(s) + [QUOTE] + tail, |pre|) == At(s, |pre| + |Escape(s)| + 1)
    decreases |s|
  {
    hide EscapeOne, ParseString;
    if s == [] {
      assert pre + Escape(s) == pre;
      ClosingQuote(pre, tail);
    } else {
      var e := EscapeOne(s[0]);
      var more := Escape(s[1..]);
      EscapeOneReads(pre, s[0], more + [QUOTE] + tail);
      EscapeReads(pre + e, s[1..], tail);
      Regroup(pre, e, more, tail);
      assert [s[0]] + s[1..] == s;
    }
  }

  /** Parsing what `mj_quote` wrote gives back the string, for every byte string. */
  lemma {:induction false} QuoteRoundTrip(s: seq<Byte>)
    ensures Parse(Quote(s)) == Some(Str(s))
  {
    hide ParseString;
    var text := Quote(s);
    EscapeReads([QUOTE], s, []);
    assert [QUOTE] + Escape(s) + [QUOTE] + [] == text;
    assert SkipWs(text, 0) == 0 && SkipWs(text, |text|) == |text|;
  }

  /** A quoted string is NUL-free, so `strlen` of it is its whole length. */
  lemma {:induction false} QuoteNulFree(s: seq<Byte>)
    requires NulFree(s)
    ensures NulFree(Quote(s)) && NulFree(Escape(s))
    decreases |s|
  {
    if s != [] {
      QuoteNulFree(s[1..]);
      assert s[0] != 0;
      assert NulFree(EscapeOne(s[0]));
    }
  }
}
