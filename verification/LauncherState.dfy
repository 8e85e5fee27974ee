/**
 * The launcher's saved state (launcher/linux/stella-launcher.c:371-418): four
 * optional strings written as a small JSON document and read back.
 */
module LauncherState {
  import opened Options
  import opened Bytes
  import J = MiniJson
  import P = MiniJsonParser

  type Text = seq<Byte>

  datatype State = State(bunLockHash: Option<Text>, preparedHead: Option<Text>,
                         installedAt: Option<Text>, keyStore: Option<Text>)

  const BUN_LOCK_HASH := Ascii("bunLockHash")
  const INSTALLED_AT := Ascii("installedAt")
  const KEY_STORE := Ascii("keyStore")
  const PREPARED_HEAD := Ascii("preparedHead")

  /** A line break, two spaces and the key's opening quote. */
  const KEY_OPEN: Text := [10, 32, 32, 34]
  /** The key's closing quote and the colon between spaces. */
  const KEY_CLOSE: Text := [34, 32, 58, 32]
  const OPEN: Text := [123]
  const CLOSE: Text := [10, 125, 10]

  datatype Field = Field(name: Text, value: Text)

  function Named(name: Text, value: Option<Text>): seq<Field> {
    if value.None? then [] else [Field(name, value.value)]
  }

  /** The fields present, in the order they are written. */
  function Fields(s: State): seq<Field> {
    Named(BUN_LOCK_HASH, s.bunLockHash) + (Named(INSTALLED_AT, s.installedAt)
      + (Named(KEY_STORE, s.keyStore) + Named(PREPARED_HEAD, s.preparedHead)))
  }

  function Entry(f: Field): Text { KEY_OPEN + f.name + KEY_CLOSE + J.Quote(f.value) }

  function Rest(fields: seq<Field>): Text {
    if fields == [] then CLOSE else [J.COMMA] + Entry(fields[0]) + Rest(fields[1..])
  }

  function First(fields: seq<Field>): Text {
    if fields == [] then CLOSE else Entry(fields[0]) + Rest(fields[1..])
  }

  function Document(fields: seq<Field>): Text { OPEN + First(fields) }

  /** What the launcher knows after reading the file, absent or unreadable as it may be. */
  function Loaded(file: Option<Text>): State {
    var json := if file.None? then None else J.Parse(J.CString(file.value));
    if json.None? then State(None, None, None, None)
    else
      State(J.GetString(json.value, BUN_LOCK_HASH), J.GetString(json.value, PREPARED_HEAD),
            J.GetString(json.value, INSTALLED_AT), J.GetString(json.value, KEY_STORE))
  }

  /** The global `S`, whose fields are null or own a C string. */
  class Store {
    var bunLockHash: Option<Text>
    var preparedHead: Option<Text>
    var installedAt: Option<Text>
    var keyStore: Option<Text>

    constructor ()
      ensures Contents() == State(None, None, None, None)
    {
      bunLockHash, preparedHead, installedAt, keyStore := None, None, None, None;
    }

    function Contents(): State
      reads this
    {
      State(bunLockHash, preparedHead, installedAt, keyStore)
    }

    method Load(file: Option<Text>)
      modifies this
      ensures Contents() == Loaded(file)
    {
      var json := None;
      if file.Some? { json := P.ParseDocument(J.CString(file.value)); }
      bunLockHash, preparedHead, installedAt, keyStore := None, None, None, None;
      if json.Some? {
        bunLockHash := J.GetString(json.value, BUN_LOCK_HASH);
        preparedHead := J.GetString(json.value, PREPARED_HEAD);
        installedAt := J.GetString(json.value, INSTALLED_AT);
        keyStore := J.GetString(json.value, KEY_STORE);
      }
    }

    method Save() returns (out: Text)
      ensures out == Document(Fields(Contents()))
    {
      hide Ascii, J.Quote, Entry, First, Rest, Present, Named;
      var names := [BUN_LOCK_HASH, INSTALLED_AT, KEY_STORE, PREPARED_HEAD];
      var values := [bunLockHash, installedAt, keyStore, preparedHead];
      out := OPEN;
      var first := true;
      var i := 0;
      PresentAll(names, values);
      while i < 4
        invariant 0 <= i <= 4
        invariant out + Tail(first, Present(names, values, i)) == Document(Fields(Contents()))
      {
        PresentStep(names, values, i);
        if values[i].Some? {
          var f := Field(names[i], values[i].value);
          AddField(out, first, f, Present(names, values, i + 1));
          out := out + (if first then [] else [J.COMMA]) + Entry(f);
          first := false;
        }
        i := i + 1;
      }
      NoFields(first);
      PresentStep(names, values, 4);
      out := out + CLOSE;
    }
  }

  /** What is still to be written. */
  ghost function Tail(first: bool, fields: seq<Field>): Text {
    if first then First(fields) else Rest(fields)
  }

  lemma {:induction false} NoFields(first: bool)
    ensures Tail(first, []) == CLOSE
  {
  }

  lemma {:induction false} AddField(out: Text, first: bool, f: Field, later: seq<Field>)
    ensures out + (if first then [] else [J.COMMA]) + Entry(f) + Tail(false, later) == out + Tail(first, [f] + later)
  {
    hide Entry;
    var e, r := Entry(f), Rest(later);
    assert ([f] + later)[1..] == later;
    if first {
      assert First([f] + later) == e + r;
      assert out + [] + e + r == out + (e + r);
    } else {
      assert Rest([f] + later) == [J.COMMA] + e + r;
      assert out + [J.COMMA] + e + r == out + ([J.COMMA] + e + r);
    }
  }

  lemma {:induction false} PresentStep(names: seq<Text>, values: seq<Option<Text>>, i: nat)
    requires |names| == 4 && |values| == 4 && i <= 4
    ensures i == 4 ==> Present(names, values, i) == []
    ensures i < 4 && values[i].Some? ==>
              Present(names, values, i) == [Field(names[i], values[i].value)] + Present(names, values, i + 1)
    ensures i < 4 && values[i].None? ==> Present(names, values, i) == Present(names, values, i + 1)
  {
  }

  /** The fields among the four from the `i`th on. */
  ghost function Present(names: seq<Text>, values: seq<Option<Text>>, i: nat): seq<Field>
    requires |names| == 4 && |values| == 4 && i <= 4
    decreases 4 - i
  {
    if i == 4 then [] else Named(names[i], values[i]) + Present(names, values, i + 1)
  }

  lemma {:induction false} PresentAll(names: seq<Text>, values: seq<Option<Text>>)
    requires |names| == 4 && |values| == 4
    ensures Present(names, values, 0) == Named(names[0], values[0]) + (Named(names[1], values[1])
              + (Named(names[2], values[2]) + Named(names[3], values[3])))
  {
    assert Present(names, values, 4) == [];
    assert Present(names, values, 3) == Named(names[3], values[3]);
    assert Present(names, values, 2) == Named(names[2], values[2]) + Present(names, values, 3);
    assert Present(names, values, 1) == Named(names[1], values[1]) + Present(names, values, 2);
  }

  // ---------------------------------------------------------------- round trip

  /** A key that needs no escaping. */
  predicate Plain(s: Text) { forall i :: 0 <= i < |s| ==> s[i] >= 32 && s[i] != J.QUOTE && s[i] != J.BACKSLASH }

  lemma {:induction false} PlainEscape(s: Text)
    requires Plain(s)
    ensures J.Escape(s) == s
    decreases |s|
  {
    if s != [] {
      PlainEscape(s[1..]);
      assert [s[0]] + s[1..] == s;
    }
  }

  lemma {:induction false} KeyReads(pre: Text, name: Text, tail: Text)
    requires Plain(name)
    ensures J.ParseKey(pre + KEY_OPEN + name + KEY_CLOSE + tail, |pre|) == J.At(name, |pre| + |name| + 7)
  {
    hide J.ParseString, J.Escape;
    var text := pre + KEY_OPEN + name + KEY_CLOSE + tail;
    var p := |pre|;
    assert text[p] == 10 && text[p + 1] == 32 && text[p + 2] == 32 && text[p + 3] == 34;
    assert J.SkipWs(text, p + 3) == p + 3;
    assert J.SkipWs(text, p + 2) == p + 3;
    assert J.SkipWs(text, p + 1) == p + 3;
    assert J.SkipWs(text, p) == p + 3;
    PlainEscape(name);
    J.EscapeReads(pre + KEY_OPEN, name, [32, 58, 32] + tail);
    assert KEY_CLOSE == [J.QUOTE] + [32, 58, 32];
    assert pre + KEY_OPEN + name + [J.QUOTE] + ([32, 58, 32] + tail) == text;
    var k := p + 4 + |name| + 1;
    assert text[k] == 32 && text[k + 1] == 58;
    assert J.SkipWs(text, k + 1) == k + 1;
    assert J.SkipWs(text, k) == k + 1;
  }

  lemma {:induction false} ValueReads(pre: Text, v: Text, tail: Text, depth: nat)
    requires depth < J.MAX_DEPTH
    ensures J.ParseValue(pre + [32] + J.Quote(v) + tail, |pre|, depth) == J.At(J.Str(v), |pre| + 1 + |J.Quote(v)|)
  {
    hide J.ParseString, J.Escape;
    var text := pre + [32] + J.Quote(v) + tail;
    var p := |pre|;
    assert text[p] == 32 && text[p + 1] == J.QUOTE;
    assert J.SkipWs(text, p + 1) == p + 1;
    assert J.SkipWs(text, p) == p + 1;
    J.EscapeReads(pre + [32, J.QUOTE], v, tail);
    assert pre + [32, J.QUOTE] + J.Escape(v) + [J.QUOTE] + tail == text;
  }

  /** One written field, read where it stands. */
  lemma {:induction false} EntryReads(pre: Text, f: Field, tail: Text, depth: nat)
    requires Plain(f.name) && depth < J.MAX_DEPTH
    ensures var text := pre + Entry(f) + tail;
            var k := J.ParseKey(text, |pre|);
            k.At? && k.value == f.name && J.ParseValue(text, k.next, depth) == J.At(J.Str(f.value), |pre| + |Entry(f)|)
  {
    hide J.ParseString, J.Escape, J.Quote, J.ParseKey, J.ParseValue;
    var text := pre + Entry(f) + tail;
    var q := J.Quote(f.value);
    KeyReads(pre, f.name, q + tail);
    assert pre + KEY_OPEN + f.name + KEY_CLOSE + (q + tail) == text;
    var head := pre + KEY_OPEN + f.name + [34, 32, 58];
    ValueReads(head, f.value, tail, depth);
    assert head + [32] + q + tail == text;
  }

  function Members(fields: seq<Field>): seq<(Text, J.Value)> {
    if fields == [] then [] else [(fields[0].name, J.Str(fields[0].value))] + Members(fields[1..])
  }

  ghost predicate AllPlain(fields: seq<Field>) { forall i :: 0 <= i < |fields| ==> Plain(fields[i].name) }

  /** From any field on, the parser collects exactly the fields that were written. */
  lemma {:induction false} MembersRead(pre: Text, fields: seq<Field>, acc: seq<(Text, J.Value)>)
    requires fields != [] && AllPlain(fields)
    ensures var text := pre + First(fields);
            J.ParseMembers(text, |pre|, 1, acc) == J.At(J.Obj(acc + Members(fields)), |text| - 1)
    decreases |fields|
  {
    hide J.ParseKey, J.ParseValue, J.ParseMembers, Entry, Plain, First, Rest, Members;
    var f, later := fields[0], fields[1..];
    var text := pre + First(fields);
    Unfolds(pre, fields);
    EntryReads(pre, f, Rest(later), 1);
    var e := |pre| + |Entry(f)|;
    if later == [] {
      assert Rest(later) == CLOSE by { Unfolds(pre, later); }
      assert text[e] == 10 && text[e + 1] == 125 && |text| == e + 3;
      MemberEnds(text, |pre|, e, acc);
      MembersMore(fields, acc);
    } else {
      Unfolds(pre, later);
      var pre' := pre + Entry(f) + [J.COMMA];
      assert text == pre' + First(later);
      assert text[e] == J.COMMA;
      MemberEnds(text, |pre|, e, acc);
      MembersRead(pre', later, acc + [(f.name, J.Str(f.value))]);
      MembersMore(fields, acc);
    }
  }

  lemma {:induction false} Unfolds(pre: Text, fields: seq<Field>)
    ensures fields != [] ==> pre + First(fields) == pre + Entry(fields[0]) + Rest(fields[1..])
    ensures Rest(fields) == if fields == [] then CLOSE else [J.COMMA] + First(fields)
  {
  }

  lemma {:induction false} MembersMore(fields: seq<Field>, acc: seq<(Text, J.Value)>)
    requires fields != []
    ensures acc + [(fields[0].name, J.Str(fields[0].value))] + Members(fields[1..]) == acc + Members(fields)
    ensures fields[1..] == [] ==> Members(fields) == [(fields[0].name, J.Str(fields[0].value))]
  {
  }

  /** After a member comes the next one, or the closing brace on its own line. */
  lemma {:induction false} MemberEnds(text: Text, p: nat, e: nat, acc: seq<(Text, J.Value)>)
    requires p <= |text| && e < |text| && J.ParseKey(text, p).At?
    requires var k := J.ParseKey(text, p); var v := J.ParseValue(text, k.next, 1); v.At? && v.next == e
    ensures var k := J.ParseKey(text, p); var v := J.ParseValue(text, k.next, 1);
            var more := acc + [(k.value, v.value)];
            (text[e] == J.COMMA ==> J.ParseMembers(text, p, 1, acc) == J.ParseMembers(text, e + 1, 1, more))
            && (e + 1 < |text| && text[e] == 10 && text[e + 1] == 125
                ==> J.ParseMembers(text, p, 1, acc) == J.At(J.Obj(more), e + 2))
  {
    hide J.ParseKey, J.ParseValue;
    assert text[e] == J.COMMA ==> J.SkipWs(text, e) == e;
    assert e + 1 < |text| && text[e + 1] == 125 ==> J.SkipWs(text, e + 1) == e + 1;
  }

  /** An object is its members, or nothing. */
  lemma {:induction false} ObjectOpens(text: Text, c: nat)
    requires |text| > 1 && text[0] == 123 && J.SkipWs(text, 1) == c
    ensures J.ParseValue(text, 0, 0) ==
            if c < |text| && text[c] == 125 then J.At(J.Obj([]), c + 1) else J.ParseMembers(text, c, 1, [])
  {
    hide J.ParseMembers;
    assert J.SkipWs(text, 0) == 0;
  }

  /** The line break that ends the document is all that follows its value. */
  lemma {:induction false} BreakEnds(text: Text, e: nat)
    requires |text| == e + 1 && text[e] == 10
    ensures J.SkipWs(text, e) == e + 1
  {
    assert J.SkipWs(text, e + 1) == e + 1;
  }

  lemma {:induction false} EmptyReads()
    ensures J.Parse(Document([])) == Some(J.Obj([]))
  {
    hide J.ParseValue;
    var text := Document([]);
    assert text == [123, 10, 125, 10];
    assert J.SkipWs(text, 2) == 2;
    assert J.SkipWs(text, 1) == 2;
    ObjectOpens(text, 2);
    BreakEnds(text, 3);
  }

  lemma {:induction false} DocumentShape(fields: seq<Field>)
    requires fields != []
    ensures var text := Document(fields);
            |text| > 1 && text[0] == 123 && text[|text| - 1] == 10 && text == OPEN + First(fields)
  {
    hide Entry, Rest;
    RestEnds(fields[1..]);
  }

  lemma {:induction false} FieldsRead(fields: seq<Field>)
    requires fields != [] && AllPlain(fields)
    ensures J.Parse(Document(fields)) == Some(J.Obj(Members(fields)))
  {
    hide J.ParseMembers, J.ParseKey, J.ParseValue, J.SkipWs, Entry, First, AllPlain, Members, Document;
    var text := Document(fields);
    DocumentShape(fields);
    MembersRead(OPEN, fields, []);
    MembersFrom(text, fields);
    ObjectOpens(text, 4);
    BreakEnds(text, |text| - 1);
    assert [] + Members(fields) == Members(fields);
    assert J.ParseValue(text, 0, 0) == J.At(J.Obj(Members(fields)), |text| - 1);
  }

  lemma {:induction false} DocumentReads(fields: seq<Field>)
    requires AllPlain(fields)
    ensures J.Parse(Document(fields)) == Some(J.Obj(Members(fields)))
  {
    hide J.Parse, Document;
    if fields == [] { EmptyReads(); } else { FieldsRead(fields); }
  }

  lemma {:induction false} RestEnds(fields: seq<Field>)
    ensures |Rest(fields)| >= 3 && Rest(fields)[|Rest(fields)| - 1] == 10
    decreases |fields|
  {
    hide Entry;
    if fields != [] { RestEnds(fields[1..]); }
  }

  /** The object branch skips to the first key, which is where the members start anyway. */
  lemma {:induction false} MembersFrom(text: Text, fields: seq<Field>)
    requires fields != [] && text == Document(fields)
    ensures J.SkipWs(text, 1) == 4 && text[4] == J.QUOTE && J.ParseKey(text, 4) == J.ParseKey(text, 1)
    ensures J.ParseMembers(text, 4, 1, []) == J.ParseMembers(text, 1, 1, [])
  {
    hide J.ParseMembers, J.ParseKey, J.Quote, Rest;
    assert text[1] == 10 && text[2] == 32 && text[3] == 32 && text[4] == 34;
    assert J.SkipWs(text, 4) == 4;
    assert J.SkipWs(text, 3) == 4;
    assert J.SkipWs(text, 2) == 4;
    assert J.SkipWs(text, 1) == 4;
    SameMembers(text, 1, 4);
  }

  lemma {:induction false} SameMembers(text: Text, p: nat, q: nat)
    requires p <= |text| && q <= |text| && J.SkipWs(text, p) == J.SkipWs(text, q)
    ensures J.ParseKey(text, p) == J.ParseKey(text, q)
    ensures J.ParseMembers(text, p, 1, []) == J.ParseMembers(text, q, 1, [])
  {
    hide J.ParseString, J.ParseValue, J.SkipWs;
  }

  /** Every field is a C string, so it holds no NUL. */
  ghost predicate CStrings(s: State) {
    (s.bunLockHash.Some? ==> J.NulFree(s.bunLockHash.value))
      && (s.preparedHead.Some? ==> J.NulFree(s.preparedHead.value))
    && (s.installedAt.Some? ==> J.NulFree(s.installedAt.value)) && (s.keyStore.Some? ==> J.NulFree(s.keyStore.value))
  }

  lemma {:induction false} WholeCString(s: Text)
    requires J.NulFree(s)
    ensures J.CString(s) == s
    decreases |s|
  {
    if s != [] {
      WholeCString(s[1..]);
      assert [s[0]] + s[1..] == s;
    }
  }

  ghost predicate Clean(fields: seq<Field>) {
    forall i :: 0 <= i < |fields| ==> J.NulFree(fields[i].name) && J.NulFree(fields[i].value)
  }

  lemma {:induction false} RestNulFree(fields: seq<Field>)
    requires Clean(fields)
    ensures J.NulFree(Rest(fields))
    decreases |fields|
  {
    if fields != [] {
      J.QuoteNulFree(fields[0].value);
      RestNulFree(fields[1..]);
    }
  }

  lemma {:induction false} DocumentNulFree(fields: seq<Field>)
    requires Clean(fields)
    ensures J.NulFree(Document(fields))
  {
    if fields != [] {
      J.QuoteNulFree(fields[0].value);
      RestNulFree(fields[1..]);
    }
  }

  function Lookup(fields: seq<Field>, key: Text): Option<Text> {
    if fields == [] then None else if fields[0].name == key then Some(fields[0].value) else Lookup(fields[1..], key)
  }

  lemma {:induction false} FindsField(fields: seq<Field>, key: Text)
    requires Clean(fields) && J.NulFree(key)
    ensures J.GetString(J.Obj(Members(fields)), key) == Lookup(fields, key)
    decreases |fields|
  {
    WholeCString(key);
    if fields != [] {
      WholeCString(fields[0].name);
      WholeCString(fields[0].value);
      FindsField(fields[1..], key);
      assert Members(fields)[1..] == Members(fields[1..]);
    }
  }

  lemma {:induction false} NamesPlain()
    ensures Plain(BUN_LOCK_HASH) && Plain(INSTALLED_AT) && Plain(KEY_STORE) && Plain(PREPARED_HEAD)
    ensures J.NulFree(BUN_LOCK_HASH) && J.NulFree(INSTALLED_AT) && J.NulFree(KEY_STORE) && J.NulFree(PREPARED_HEAD)
    ensures BUN_LOCK_HASH != INSTALLED_AT && BUN_LOCK_HASH != KEY_STORE && BUN_LOCK_HASH != PREPARED_HEAD
    ensures INSTALLED_AT != KEY_STORE && INSTALLED_AT != PREPARED_HEAD && KEY_STORE != PREPARED_HEAD
  {
    assert BUN_LOCK_HASH[0] == 98 && INSTALLED_AT[0] == 105;
  }

  lemma {:induction false} LookupNamed(name: Text, value: Option<Text>, later: seq<Field>, key: Text)
    ensures Lookup([], key) == None
    ensures Lookup(Named(name, value) + later, key) == if value.Some? && name == key then value else Lookup(later, key)
  {
    if value.None? {
      assert Named(name, value) + later == later;
    } else {
      assert (Named(name, value) + later)[1..] == later;
    }
  }

  lemma {:induction false} LookupAll(s: State, key: Text)
    ensures Lookup(Fields(s), key) ==
            if s.bunLockHash.Some? && key == BUN_LOCK_HASH then s.bunLockHash
            else if s.installedAt.Some? && key == INSTALLED_AT then s.installedAt
            else if s.keyStore.Some? && key == KEY_STORE then s.keyStore
            else if s.preparedHead.Some? && key == PREPARED_HEAD then s.preparedHead else None
  {
    hide Lookup, Named, Ascii;
    var d := Named(PREPARED_HEAD, s.preparedHead);
    var c := Named(KEY_STORE, s.keyStore) + d;
    var b := Named(INSTALLED_AT, s.installedAt) + c;
    LookupNamed(BUN_LOCK_HASH, s.bunLockHash, b, key);
    LookupNamed(INSTALLED_AT, s.installedAt, c, key);
    LookupNamed(KEY_STORE, s.keyStore, d, key);
    LookupNamed(PREPARED_HEAD, s.preparedHead, [], key);
    assert d + [] == d;
  }

  /** Loading what was saved restores every field that was set, and every one that was not. */
  lemma {:induction false} StateRoundTrip(s: State)
    requires CStrings(s)
    ensures Loaded(Some(Document(Fields(s)))) == s
  {
    hide Ascii, J.GetString, Document, J.Parse, J.CString, Lookup, Members, Plain, J.NulFree;
    NamesPlain();
    var fields := Fields(s);
    assert Clean(fields);
    assert AllPlain(fields);
    DocumentNulFree(fields);
    WholeCString(Document(fields));
    DocumentReads(fields);
    FindsField(fields, BUN_LOCK_HASH);
    FindsField(fields, INSTALLED_AT);
    FindsField(fields, KEY_STORE);
    FindsField(fields, PREPARED_HEAD);
    LookupAll(s, BUN_LOCK_HASH);
    LookupAll(s, INSTALLED_AT);
    LookupAll(s, KEY_STORE);
    LookupAll(s, PREPARED_HEAD);
  }
}
