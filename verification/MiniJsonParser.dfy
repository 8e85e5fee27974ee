/**
 * The JSON reader and writer in place (launcher/common/mini_json.h): a cursor
 * that is advanced, and buffers of the sizes the source allocates, written by
 * index. Every index written is within its buffer.
 */
module MiniJsonParser {
  import opened Options
  import opened Bytes
  import J = MiniJson

  class Parser {
    const text: seq<Byte>
    var p: nat
    var depth: nat

    constructor (text: seq<Byte>)
      ensures this.text == text && p == 0 && depth == 0
    {
      this.text := text;
      p, depth := 0, 0;
    }

    ghost predicate Valid()
      reads this
    {
      p <= |text| && depth <= J.MAX_DEPTH
    }

    method SkipWs()
      requires Valid()
      modifies this`p
      ensures Valid() && p == J.SkipWs(text, old(p))
    {
      while p < |text| && J.IsWs(text[p])
        invariant old(p) <= p <= |text| && J.SkipWs(text, p) == J.SkipWs(text, old(p))
      {
        p := p + 1;
      }
    }

    method ReadHex4() returns (ok: bool, v: nat)
      requires Valid()
      modifies this`p
      ensures Valid()
      ensures ok == J.Hex4(text, old(p)).Some?
      ensures ok ==> v == J.Hex4(text, old(p)).value && p == old(p) + 4
      ensures !ok ==> p == old(p)
    {
      v := 0;
      if |text| - p < 4 { return false, 0; }
      var i := 0;
      while i < 4
        invariant 0 <= i <= 4 && p == old(p) && J.HexDigits(text, p, i) == Some(v)
        invariant i < 4 || J.Hex4(text, p) == Some(v)
      {
        var h := J.Hex(text[p + i]);
        if h.None? {
          HexStops(text, p, i + 1);
          return false, 0;
        }
        v := v * 16 + h.value;
        i := i + 1;
      }
      p := p + 4;
      return true, v;
    }

    static lemma {:induction false} HexStops(text: seq<Byte>, p: nat, n: nat)
      requires p + 4 <= |text| && n <= 4 && J.HexDigits(text, p, n).None?
      ensures J.Hex4(text, p).None?
      decreases 4 - n
    {
      if n < 4 { HexStops(text, p, n + 1); }
    }

    method ReadUnicode() returns (ok: bool, cp: nat)
      requires Valid()
      modifies this`p
      ensures Valid()
      ensures ok == J.Unicode(text, old(p)).At?
      ensures ok ==> cp == J.Unicode(text, old(p)).value && p == J.Unicode(text, old(p)).next
    {
      hide J.Hex4;
      ok, cp := ReadHex4();
      if !ok { return; }
      if 0xD800 <= cp <= 0xDBFF && |text| - p >= 6 && text[p] == J.BACKSLASH && text[p + 1] == 117 {
        p := p + 2;
        var lo: nat;
        ok, lo := ReadHex4();
        if !ok { return; }
        if 0xDC00 <= lo <= 0xDFFF { cp := 0x10000 + (cp - 0xD800) * 1024 + (lo - 0xDC00); }
        else { cp := 0xFFFD; }
      } else if 0xD800 <= cp <= 0xDFFF {
        cp := 0xFFFD;
      }
    }

    /** `mj_put_utf8`: the bytes of `cp` at `n`; the caller has left room for them. */
    method PutUtf8(out: array<Byte>, n: nat, cp: nat) returns (n': nat)
      requires cp < 0x110000 && n + |Utf8(cp)| <= out.Length
      modifies out
      ensures n' == n + |Utf8(cp)| && out[..n'] == old(out[..n]) + Utf8(cp)
    {
      var u := Utf8(cp);
      forall i | 0 <= i < |u| { out[n + i] := u[i]; }
      n' := n + |u|;
    }

    /** The switch on the character after a backslash. */
    method ReadEscape(out: array<Byte>, n: nat) returns (ok: bool, n': nat)
      requires Valid() && n + |text| - p <= out.Length
      modifies this`p, out
      ensures Valid()
      ensures ok == J.EscapeAt(text, old(p)).At?
      ensures ok ==> p == J.EscapeAt(text, old(p)).next && n' == n + |J.EscapeAt(text, old(p)).value| <= out.Length
      ensures ok ==> out[..n'] == old(out[..n]) + J.EscapeAt(text, old(p)).value
    {
      hide J.Unicode, J.Unescape, Utf8;
      n' := n;
      if p >= |text| { return false, n; }
      var c := text[p];
      p := p + 1;
      if c == 117 {
        var cp;
        ok, cp := ReadUnicode();
        if !ok { return; }
        assert |J.EscapeAt(text, old(p)).value| <= p - old(p);
        n' := PutUtf8(out, n, cp);
      } else {
        var e := J.Unescape(c);
        if e.None? { return false, n; }
        out[n] := e.value;
        ok, n' := true, n + 1;
      }
    }

    /**
     * The cursor stands just past the opening quote. The buffer has one byte
     * more than the input left, and the output never outgrows what was read.
     */
    method ParseString() returns (ok: bool, s: seq<Byte>)
      requires Valid()
      modifies this`p
      ensures Valid()
      ensures ok == J.ParseString(text, old(p)).At?
      ensures ok ==> s == J.ParseString(text, old(p)).value && p == J.ParseString(text, old(p)).next
    {
      hide J.EscapeAt;
      var start := p;
      var out := new Byte[|text| - start + 1](_ => 0);
      var n := 0;
      ghost var goal := J.ParseString(text, start);
      assert goal.At? ==> [] + goal.value == goal.value;
      assert out[..0] == [];
      while p < |text|
        invariant Valid() && start <= p && 0 <= n <= p - start && out.Length == |text| - start + 1
        invariant J.Before(out[..n], J.ParseString(text, p)) == goal
      {
        ghost var done := out[..n];
        ghost var from := p;
        var c := text[p];
        p := p + 1;
        if c == J.QUOTE {
          out[n] := 0;
          assert out[..n] + [] == done;
          return true, out[..n];
        }
        if c < 32 { return false, []; }
        if c != J.BACKSLASH {
          out[n] := c;
          n := n + 1;
          Step(done, [c], J.ParseString(text, p));
          assert out[..n] == done + [c];
          continue;
        }
        var read;
        read, n := ReadEscape(out, n);
        if !read { return false, []; }
        Step(done, J.EscapeAt(text, from + 1).value, J.ParseString(text, p));
      }
      return false, [];
    }

    static lemma {:induction false} Step(done: seq<Byte>, more: seq<Byte>, r: J.Parsed<seq<Byte>>)
      ensures J.Before(done, J.Before(more, r)) == J.Before(done + more, r)
    {
      if r.At? { assert done + (more + r.value) == done + more + r.value; }
    }

    method ParseKeyword(word: seq<Byte>, value: J.Value) returns (ok: bool, v: J.Value)
      requires Valid() && word != []
      modifies this`p
      ensures Valid()
      ensures ok == J.Keyword(text, old(p), word, value).At?
      ensures ok ==> v == J.Keyword(text, old(p), word, value).value && p == J.Keyword(text, old(p), word, value).next
    {
      v := value;
      if |text| - p < |word| || text[p..p + |word|] != word { return false, v; }
      p := p + |word|;
      return true, v;
    }

    static lemma {:induction false} NumberStep(text: seq<Byte>, p: nat, budget: nat)
      requires p <= |text|
      ensures var more := p < |text| && budget > 0 && J.IsNumberChar(text[p]);
              J.NumberEnd(text, p, budget) == if more then J.NumberEnd(text, p + 1, budget - 1) else p
    {
    }

    method ParseNumber() returns (ok: bool, v: J.Value)
      requires Valid()
      modifies this`p
      ensures Valid() && p == J.NumberEnd(text, old(p), 63)
      ensures ok == (p != old(p)) && (ok ==> v == J.Number(text[old(p)..p]))
    {
      hide J.NumberEnd;
      var buf := new Byte[64](_ => 0);
      var n: nat := 0;
      ghost var start := p;
      while p < |text| && n < 63 && J.IsNumberChar(text[p])
        invariant Valid() && n <= 63 && p == start + n
        invariant J.NumberEnd(text, p, 63 - n) == J.NumberEnd(text, start, 63)
        invariant forall k :: 0 <= k < n ==> buf[k] == text[start + k]
      {
        NumberStep(text, p, 63 - n);
        buf[n] := text[p];
        n := n + 1;
        p := p + 1;
      }
      NumberStep(text, p, 63 - n);
      var digits := buf[..n];
      assert |digits| == |text[start..p]|
             && forall k :: 0 <= k < n ==> digits[k] == buf[k] == text[start + k] == text[start..p][k];
      assert digits == text[start..p];
      return n > 0, J.Number(digits);
    }

    method ParseKey() returns (ok: bool, key: seq<Byte>)
      requires Valid()
      modifies this`p
      ensures Valid()
      ensures ok == J.ParseKey(text, old(p)).At?
      ensures ok ==> key == J.ParseKey(text, old(p)).value && p == J.ParseKey(text, old(p)).next
    {
      hide J.ParseString, J.SkipWs;
      key := [];
      SkipWs();
      if p >= |text| || text[p] != J.QUOTE { return false, key; }
      p := p + 1;
      ok, key := ParseString();
      if !ok { return; }
      SkipWs();
      if p >= |text| || text[p] != J.COLON { return false, key; }
      p := p + 1;
    }

    method ParseMembers() returns (ok: bool, v: J.Value)
      requires Valid()
      modifies this
      decreases |text| - p, 2
      ensures Valid()
      ensures ok == J.ParseMembers(text, old(p), old(depth), []).At?
      ensures ok ==> v == J.ParseMembers(text, old(p), old(depth), []).value
                     && p == J.ParseMembers(text, old(p), old(depth), []).next && depth == old(depth)
    {
      hide J.ParseKey, J.ParseValue, J.SkipWs;
      ghost var goal := J.ParseMembers(text, p, depth, []);
      var members := [];
      v := J.Null;
      while true
        invariant Valid() && old(p) <= p && depth == old(depth)
        invariant J.ParseMembers(text, p, depth, members) == goal
        decreases |text| - p
      {
        var key;
        ok, key := ParseKey();
        if !ok { return; }
        var item;
        ok, item := ParseValue();
        if !ok { return; }
        SkipWs();
        if p < |text| && text[p] == J.COMMA {
          p := p + 1;
          members := members + [(key, item)];
          continue;
        }
        if p < |text| && text[p] == 125 {
          p := p + 1;
          return true, J.Obj(members + [(key, item)]);
        }
        return false, J.Null;
      }
    }

    method ParseItems() returns (ok: bool, v: J.Value)
      requires Valid()
      modifies this
      decreases |text| - p, 2
      ensures Valid()
      ensures ok == J.ParseItems(text, old(p), old(depth), []).At?
      ensures ok ==> v == J.ParseItems(text, old(p), old(depth), []).value
                     && p == J.ParseItems(text, old(p), old(depth), []).next && depth == old(depth)
    {
      hide J.ParseValue, J.SkipWs;
      ghost var goal := J.ParseItems(text, p, depth, []);
      var items := [];
      v := J.Null;
      while true
        invariant Valid() && old(p) <= p && depth == old(depth)
        invariant J.ParseItems(text, p, depth, items) == goal
        decreases |text| - p
      {
        SkipWs();
        var item;
        ok, item := ParseValue();
        if !ok { return; }
        SkipWs();
        if p < |text| && text[p] == J.COMMA {
          p := p + 1;
          items := items + [item];
          continue;
        }
        if p < |text| && text[p] == 93 {
          p := p + 1;
          return true, J.Arr(items + [item]);
        }
        return false, J.Null;
      }
    }

    method ParseValue() returns (ok: bool, v: J.Value)
      requires Valid()
      modifies this
      decreases |text| - p, 1
      ensures Valid()
      ensures ok == J.ParseValue(text, old(p), old(depth)).At?
      ensures ok ==> v == J.ParseValue(text, old(p), old(depth)).value
                     && p == J.ParseValue(text, old(p), old(depth)).next && depth == old(depth)
    {
      hide J.ParseMembers, J.ParseItems, J.ParseString, J.SkipWs, J.NumberEnd, Ascii, J.Keyword;
      v := J.Null;
      SkipWs();
      if p >= |text| || depth + 1 > J.MAX_DEPTH { return false, v; }
      depth := depth + 1;
      var c := text[p];
      if c == 123 || c == 91 {
        var close: Byte := if c == 123 then 125 else 93;
        p := p + 1;
        SkipWs();
        if p < |text| && text[p] == close {
          p := p + 1;
          ok, v := true, if c == 123 then J.Obj([]) else J.Arr([]);
        } else if c == 123 {
          ok, v := ParseMembers();
        } else {
          ok, v := ParseItems();
        }
      } else if c == J.QUOTE {
        p := p + 1;
        var s;
        ok, s := ParseString();
        v := J.Str(s);
      } else if c == 116 {
        ok, v := ParseKeyword(Ascii("true"), J.Bool(true));
      } else if c == 102 {
        ok, v := ParseKeyword(Ascii("false"), J.Bool(false));
      } else if c == 110 {
        ok, v := ParseKeyword(Ascii("null"), J.Null);
      } else {
        ok, v := ParseNumber();
      }
      if !ok { return; }
      depth := depth - 1;
    }
  }

  method ParseDocument(text: seq<Byte>) returns (v: Option<J.Value>)
    ensures v == J.Parse(text)
  {
    var ps := new Parser(text);
    var ok, value := ps.ParseValue();
    if !ok { return None; }
    ps.SkipWs();
    if ps.p != |text| { return None; }
    return Some(value);
  }

  /** `mj_quote`: the source's buffer of six bytes a character and three more is always enough. */
  method QuoteString(s: seq<Byte>) returns (out: array<Byte>, n: nat)
    requires J.NulFree(s)
    ensures n < out.Length == |s| * 6 + 3 && out[..n] == J.Quote(s) && out[n] == 0
  {
    hide J.EscapeOne;
    out := new Byte[|s| * 6 + 3](_ => 0);
    out[0] := J.QUOTE;
    n := 1;
    var i := 0;
    assert s[0..] == s;
    while i < |s|
      invariant 0 <= i <= |s| && 1 <= n <= 1 + 6 * i
      invariant out[..n] + J.Escape(s[i..]) == [J.QUOTE] + J.Escape(s)
    {
      ghost var done := out[..n];
      assert s[i..][1..] == s[i + 1..];
      var e := J.EscapeOne(s[i]);
      forall k | 0 <= k < |e| { out[n + k] := e[k]; }
      n := n + |e|;
      assert out[..n] == done + e;
      assert done + (e + J.Escape(s[i + 1..])) == done + e + J.Escape(s[i + 1..]);
      i := i + 1;
    }
    assert s[i..] == [];
    ghost var done := out[..n];
    out[n] := J.QUOTE;
    n := n + 1;
    out[n] := 0;
    assert out[..n] == done + [J.QUOTE];
  }
}
