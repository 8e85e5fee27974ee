/**
 * The transcript of a pi chat (packages/contracts/pi-chat.ts:310-323,
 * 363-458): entries merged by id while snapshots, appends and redeliveries
 * arrive in any order.
 */
module PiChat {
  import opened Options

  datatype Entry = Entry(id: int, body: string)

  /** The events that carry entries; every other event leaves them alone. */
  datatype Event =
    | Snapshot(entries: seq<Entry>)
    | MessageEnd(entry: Entry)
    | EntryAppended(entry: Entry)
    | ToolExecutionEnd(result: Option<Entry>)
    | Other

  predicate Ascending(es: seq<Entry>) { forall i, j :: 0 <= i < j < |es| ==> es[i].id < es[j].id }

  /** The version of `id` that comes last. */
  function LastOf(es: seq<Entry>, id: int): Option<Entry> {
    if es == [] then None
    else if es[|es| - 1].id == id then Some(es[|es| - 1])
    else LastOf(es[..|es| - 1], id)
  }

  /** Replacing or inserting one entry of an ascending list. */
  function Insert(es: seq<Entry>, e: Entry): seq<Entry> {
    if es == [] || es[|es| - 1].id < e.id then es + [e]
    else
      var n := |es| - 1;
      if es[n].id == e.id then es[..n] + [e] else Insert(es[..n], e) + [es[n]]
  }

  function InsertAll(es: seq<Entry>, more: seq<Entry>): seq<Entry> {
    if more == [] then es else Insert(InsertAll(es, more[..|more| - 1]), more[|more| - 1])
  }

  function Merged(entries: seq<Entry>, more: seq<Entry>): seq<Entry> {
    if more == [] then entries else InsertAll(InsertAll([], entries), more)
  }

  predicate Follows(entries: seq<Entry>, e: Entry) { entries == [] || entries[|entries| - 1].id < e.id }

  /** `appendEntry`: the usual case appends without looking further. */
  function Append(entries: seq<Entry>, e: Entry): seq<Entry> {
    if Follows(entries, e) then entries + [e] else Merged(entries, [e])
  }

  function ReduceOne(entries: seq<Entry>, event: Event): seq<Entry> {
    match event
    case Snapshot(es) => Merged(entries, es)
    case MessageEnd(e) => Append(entries, e)
    case EntryAppended(e) => Append(entries, e)
    case ToolExecutionEnd(r) => if r.Some? then Append(entries, r.value) else entries
    case Other => entries
  }

  function Reduce(entries: seq<Entry>, events: seq<Event>): seq<Entry> {
    if events == [] then entries else ReduceOne(Reduce(entries, events[..|events| - 1]), events[|events| - 1])
  }

  // -------------------------------------------------------------------- methods

  function Store(m: map<int, Entry>, es: seq<Entry>): map<int, Entry> {
    if es == [] then m else Store(m, es[..|es| - 1])[es[|es| - 1].id := es[|es| - 1]]
  }

  /** A JavaScript map: `keys` is the order its ids were first set in. */
  ghost predicate Ordered(keys: seq<int>, m: map<int, Entry>) {
    (forall i, j :: 0 <= i < j < |keys| ==> keys[i] != keys[j])
    && (forall i :: 0 <= i < |keys| ==> keys[i] in m) && forall id :: id in m ==> id in keys
  }

  method SetAll(keys: seq<int>, byId: map<int, Entry>, es: seq<Entry>) returns (keys': seq<int>, byId': map<int, Entry>)
    requires Ordered(keys, byId)
    ensures Ordered(keys', byId') && byId' == Store(byId, es)
  {
    keys', byId' := keys, byId;
    var i := 0;
    assert es[..0] == [];
    while i < |es|
      invariant 0 <= i <= |es| && Ordered(keys', byId') && byId' == Store(byId, es[..i])
    {
      assert es[..i + 1][..i] == es[..i];
      if es[i].id !in byId' { keys' := keys' + [es[i].id]; }
      byId' := byId'[es[i].id := es[i]];
      i := i + 1;
    }
    assert es[..i] == es;
  }

  /** `mergePiEntries`: the ids' last versions, sorted. */
  method MergeEntries(entries: seq<Entry>, more: seq<Entry>) returns (r: seq<Entry>)
    ensures r == Merged(entries, more)
  {
    hide Store, InsertAll, Insert, Ordered, Lists;
    if more == [] { return entries; }
    NothingLists();
    var keys, byId := SetAll([], map[], entries);
    keys, byId := SetAll(keys, byId, more);
    var values: seq<Entry> := [];
    var i := 0;
    while i < |keys|
      invariant 0 <= i <= |keys| && |values| == i && forall k :: 0 <= k < i ==> values[k] == byId[keys[k]]
    {
      values := values + [byId[keys[i]]];
      i := i + 1;
    }
    r := SortById(values);
    ghost var m := Store(Store(map[], entries), more);
    InsertAllLists([], map[], entries);
    InsertAllLists(InsertAll([], entries), Store(map[], entries), more);
    InsertAllLists([], map[], values);
    ValuesStore(keys, m, values);
    OneListing(r, Merged(entries, more), m);
  }

  /** The list in ascending order of ids, entries of one id in their given order. */
  method SortById(values: seq<Entry>) returns (r: seq<Entry>)
    ensures r == InsertAll([], values)
  {
    hide Insert;
    r := [];
    var i := 0;
    assert values[..0] == [];
    while i < |values|
      invariant 0 <= i <= |values| && r == InsertAll([], values[..i])
    {
      assert values[..i + 1][..i] == values[..i];
      r := Insert(r, values[i]);
      i := i + 1;
    }
    assert values[..i] == values;
  }

  method ReduceChat(entries: seq<Entry>, events: seq<Event>) returns (next: seq<Entry>)
    ensures next == Reduce(entries, events)
  {
    hide ReduceOne;
    next := entries;
    var i := 0;
    assert events[..0] == [];
    while i < |events|
      invariant 0 <= i <= |events| && next == Reduce(entries, events[..i])
    {
      assert events[..i + 1][..i] == events[..i];
      next := ReduceOne(next, events[i]);
      i := i + 1;
    }
    assert events[..i] == events;
  }

  // ------------------------------------------------------------------- listings

  /** `r` is the map's entries by ascending id, and the map files each under its own id. */
  ghost predicate Lists(r: seq<Entry>, m: map<int, Entry>) {
    Ascending(r) && (forall i :: 0 <= i < |r| ==> r[i].id in m && m[r[i].id] == r[i])
    && forall id :: id in m ==> m[id].id == id && m[id] in r
  }

  lemma {:induction false} StoreMeans(m: map<int, Entry>, es: seq<Entry>, id: int)
    ensures id in Store(m, es) <==> LastOf(es, id).Some? || id in m
    ensures id in Store(m, es) ==> Store(m, es)[id] == if LastOf(es, id).Some? then LastOf(es, id).value else m[id]
    decreases |es|
  {
    if es != [] { StoreMeans(m, es[..|es| - 1], id); }
  }

  lemma {:induction false} LastOfId(es: seq<Entry>, id: int)
    ensures LastOf(es, id).Some? ==> LastOf(es, id).value.id == id && LastOf(es, id).value in es
    ensures LastOf(es, id).None? ==> forall i :: 0 <= i < |es| ==> es[i].id != id
    decreases |es|
  {
    if es != [] { LastOfId(es[..|es| - 1], id); }
  }

  lemma {:induction false} ValuesStore(keys: seq<int>, m: map<int, Entry>, values: seq<Entry>)
    requires Ordered(keys, m) && |values| == |keys|
    requires forall i :: 0 <= i < |keys| ==> keys[i] in m && values[i] == m[keys[i]]
    requires exists a, b :: m == Store(Store(map[], a), b)
    ensures Store(map[], values) == m
  {
    hide Store;
    var a, b :| m == Store(Store(map[], a), b);
    var s := Store(map[], values);
    forall id ensures id in m ==> m[id].id == id {
      StoreMeans(Store(map[], a), b, id);
      StoreMeans(map[], a, id);
      LastOfId(a, id);
      LastOfId(b, id);
    }
    forall id ensures (id in s <==> id in m) && (id in s ==> s[id] == m[id]) {
      StoreMeans(map[], values, id);
      LastOfId(values, id);
      if id in m {
        var i :| 0 <= i < |keys| && keys[i] == id;
        assert values[i].id == id;
      }
    }
  }

  /** Two ascending listings of one map are the same list. */
  lemma {:induction false} OneListing(r: seq<Entry>, s: seq<Entry>, m: map<int, Entry>)
    requires Lists(r, m) && Lists(s, m)
    ensures r == s
    decreases |r|
  {
    if r == [] {
      NoKeys(m);
    } else {
      var n, k := |r| - 1, |s| - 1;
      assert m[r[n].id] in s && m[s[k].id] in r;
      assert r[n] == s[k];
      DropLast(r, m);
      DropLast(s, m);
      OneListing(r[..n], s[..k], m - {r[n].id});
      assert r == r[..n] + [r[n]] && s == s[..k] + [s[k]];
    }
  }

  lemma {:induction false} DropLast(r: seq<Entry>, m: map<int, Entry>)
    requires Lists(r, m) && r != []
    ensures Lists(r[..|r| - 1], m - {r[|r| - 1].id})
    ensures forall id :: id in m && id != r[|r| - 1].id ==> id < r[|r| - 1].id
    ensures r[|r| - 1].id in m && m[r[|r| - 1].id] == r[|r| - 1]
  {
    var n := |r| - 1;
    forall id | id in m && id != r[n].id ensures m[id] in r[..n] && id < r[n].id {
      var i :| 0 <= i < |r| && r[i] == m[id];
      assert i < n;
      assert r[..n][i] == m[id];
    }
  }

  lemma {:induction false} AddLast(r: seq<Entry>, m: map<int, Entry>, e: Entry)
    requires Lists(r, m) && forall id :: id in m ==> id < e.id
    ensures Lists(r + [e], m[e.id := e])
  {
    assert (r + [e])[|r|] == e;
    forall id | id in m ensures m[id] in r + [e] {
      assert m[id] in r;
    }
  }

  /** Inserting an entry is setting it in the map. */
  lemma {:induction false} InsertLists(es: seq<Entry>, m: map<int, Entry>, e: Entry)
    requires Lists(es, m)
    ensures Lists(Insert(es, e), m[e.id := e])
    decreases |es|
  {
    hide Lists;
    if es == [] {
      NoKeys(m);
      AddLast(es, m, e);
    } else {
      var n := |es| - 1;
      var last := es[n];
      DropLast(es, m);
      if last.id < e.id {
        AddLast(es, m, e);
      } else if last.id == e.id {
        AddLast(es[..n], m - {last.id}, e);
        assert (m - {last.id})[e.id := e] == m[e.id := e];
      } else {
        InsertLists(es[..n], m - {last.id}, e);
        AddLast(Insert(es[..n], e), (m - {last.id})[e.id := e], last);
        assert (m - {last.id})[e.id := e][last.id := last] == m[e.id := e];
      }
    }
  }

  lemma {:induction false} NoKeys(m: map<int, Entry>)
    requires Lists([], m)
    ensures m == map[]
  {
    var none: seq<Entry> := [];
    assert forall id :: id in m ==> m[id] in none;
    assert forall id :: id !in m;
  }

  lemma {:induction false} InsertAllLists(es: seq<Entry>, m: map<int, Entry>, more: seq<Entry>)
    requires Lists(es, m)
    ensures Lists(InsertAll(es, more), Store(m, more))
    decreases |more|
  {
    hide Lists, Insert;
    if more != [] {
      InsertAllLists(es, m, more[..|more| - 1]);
      InsertLists(InsertAll(es, more[..|more| - 1]), Store(m, more[..|more| - 1]), more[|more| - 1]);
    }
  }

  // ----------------------------------------------------------- what is proved of it

  /** An ascending list is the listing of its own entries. */
  lemma {:induction false} AscendingLists(es: seq<Entry>)
    requires Ascending(es)
    ensures Lists(es, Store(map[], es))
    decreases |es|
  {
    if es != [] {
      var n := |es| - 1;
      AscendingLists(es[..n]);
      forall id | id in Store(map[], es[..n]) ensures id < es[n].id {
        assert Store(map[], es[..n])[id] in es[..n];
      }
      AddLast(es[..n], Store(map[], es[..n]), es[n]);
      assert es[..n] + [es[n]] == es;
    }
  }

  lemma {:induction false} ListsAscend(es: seq<Entry>, m: map<int, Entry>)
    requires Lists(es, m)
    ensures Ascending(es)
  {
  }

  /** Merging lists the last version of every id of either. */
  lemma {:induction false} MergedLists(entries: seq<Entry>, more: seq<Entry>)
    requires Ascending(entries)
    ensures Lists(Merged(entries, more), Store(Store(map[], entries), more))
  {
    hide Lists, Insert;
    AscendingLists(entries);
    NothingLists();
    InsertAllLists([], map[], entries);
    OneListing(InsertAll([], entries), entries, Store(map[], entries));
    InsertAllLists(entries, Store(map[], entries), more);
  }

  lemma {:induction false} NothingLists()
    ensures Lists([], map[])
  {
  }

  lemma {:induction false} MergedAscends(entries: seq<Entry>, e: Entry)
    ensures Ascending(Merged(entries, [e]))
  {
    hide Lists, Insert, Ascending;
    NothingLists();
    InsertAllLists([], map[], entries);
    InsertAllLists(InsertAll([], entries), Store(map[], entries), [e]);
    ListsAscend(Merged(entries, [e]), Store(Store(map[], entries), [e]));
  }

  /**
   * The fast append is merging one entry exactly when the entries ascend or it
   * is not taken; on entries out of order it would skip the sort.
   */
  lemma {:induction false} AppendIsMergeIff(entries: seq<Entry>, e: Entry)
    ensures Append(entries, e) == Merged(entries, [e]) <==> Ascending(entries) || !Follows(entries, e)
  {
    hide InsertAll, Insert, Lists;
    MergedAscends(entries, e);
    if Append(entries, e) == Merged(entries, [e]) && Follows(entries, e) {
      assert forall i :: 0 <= i < |entries| ==> (entries + [e])[i] == entries[i];
    }
    if Ascending(entries) && Follows(entries, e) {
      MergedLists(entries, [e]);
      AscendingLists(entries);
      AscendingLists(entries + [e]);
      var n := |entries|;
      assert (entries + [e])[..n] == entries && (entries + [e])[n] == e;
      assert [e][..0] == [];
      assert Store(map[], entries + [e]) == Store(map[], entries)[e.id := e];
      assert Store(Store(map[], entries), [e]) == Store(map[], entries)[e.id := e];
      OneListing(entries + [e], Merged(entries, [e]), Store(map[], entries)[e.id := e]);
    }
  }

  function Carried(event: Event): seq<Entry> {
    match event
    case Snapshot(es) => es
    case MessageEnd(e) => [e]
    case EntryAppended(e) => [e]
    case ToolExecutionEnd(r) => if r.Some? then [r.value] else []
    case Other => []
  }

  /** Every entry delivered, in order of delivery. */
  function Delivered(events: seq<Event>): seq<Entry> {
    if events == [] then [] else Delivered(events[..|events| - 1]) + Carried(events[|events| - 1])
  }

  lemma {:induction false} OneIsMerge(entries: seq<Entry>, event: Event)
    requires Ascending(entries)
    ensures ReduceOne(entries, event) == Merged(entries, Carried(event))
  {
    hide Merged, Append;
    if event.MessageEnd? || event.EntryAppended? { AppendIsMergeIff(entries, event.entry); }
    if event.ToolExecutionEnd? && event.result.Some? { AppendIsMergeIff(entries, event.result.value); }
    MergeNothing(entries);
  }

  lemma {:induction false} MergeNothing(entries: seq<Entry>)
    ensures Merged(entries, []) == entries
  {
  }

  lemma {:induction false} StoreConcat(m: map<int, Entry>, a: seq<Entry>, b: seq<Entry>)
    ensures Store(Store(m, a), b) == Store(m, a + b)
    decreases |b|
  {
    if b == [] {
      assert a + b == a;
    } else {
      StoreConcat(m, a, b[..|b| - 1]);
      assert (a + b)[..|a + b| - 1] == a + b[..|b| - 1];
    }
  }

  /** After any batches, the entries list the last version delivered of every id ever delivered. */
  lemma {:induction false} TranscriptLists(entries: seq<Entry>, events: seq<Event>)
    requires Ascending(entries)
    ensures Lists(Reduce(entries, events), Store(map[], entries + Delivered(events)))
    decreases |events|
  {
    hide Lists, Ascending, ReduceOne, Carried, Store, Merged;
    if events == [] {
      AscendingLists(entries);
      assert entries + [] == entries;
    } else {
      var n := |events| - 1;
      var before := Reduce(entries, events[..n]);
      var known := entries + Delivered(events[..n]);
      TranscriptLists(entries, events[..n]);
      ListsAscend(before, Store(map[], known));
      OneIsMerge(before, events[n]);
      MergedLists(before, Carried(events[n]));
      AscendingLists(before);
      ListedOnce(before, Store(map[], before), Store(map[], known));
      StoreConcat(map[], known, Carried(events[n]));
      assert known + Carried(events[n]) == entries + Delivered(events);
    }
  }

  lemma {:induction false} ListedOnce(es: seq<Entry>, a: map<int, Entry>, b: map<int, Entry>)
    requires Lists(es, a) && Lists(es, b)
    ensures a == b
  {
    forall id ensures id in a <==> id in b {
      if id in a { assert a[id] in es; }
      if id in b { assert b[id] in es; }
    }
    forall id | id in a ensures a[id] == b[id] { assert a[id] in es; }
  }

  /** The transcript holds, ascending by id, exactly the last delivered version of each id. */
  lemma {:induction false} TranscriptIsLatest(entries: seq<Entry>, events: seq<Event>, e: Entry)
    requires Ascending(entries)
    ensures Ascending(Reduce(entries, events))
    ensures e in Reduce(entries, events) <==> LastOf(entries + Delivered(events), e.id) == Some(e)
  {
    hide Reduce, Delivered;
    var r, all := Reduce(entries, events), entries + Delivered(events);
    TranscriptLists(entries, events);
    StoreMeans(map[], all, e.id);
    LastOfId(all, e.id);
    if LastOf(all, e.id) == Some(e) { assert Store(map[], all)[e.id] in r; }
  }

  /** Two watchers who were told the same last versions, in whatever order, show the same transcript. */
  lemma {:induction false} WatchersAgree(first: seq<Event>, second: seq<Event>)
    requires forall id :: LastOf(Delivered(first), id) == LastOf(Delivered(second), id)
    ensures Reduce([], first) == Reduce([], second)
  {
    hide Reduce, Lists, Delivered, Store, LastOf;
    var a, b := Delivered(first), Delivered(second);
    TranscriptLists([], first);
    TranscriptLists([], second);
    assert [] + a == a && [] + b == b;
    forall id
      ensures (id in Store(map[], a) <==> id in Store(map[], b))
              && (id in Store(map[], a) ==> Store(map[], a)[id] == Store(map[], b)[id]) {
      StoreMeans(map[], a, id);
      StoreMeans(map[], b, id);
    }
    assert Store(map[], a) == Store(map[], b);
    OneListing(Reduce([], first), Reduce([], second), Store(map[], a));
  }

  /** Delivering again what is already the latest version changes nothing. */
  lemma {:induction false} RedeliveryChangesNothing(entries: seq<Entry>, event: Event)
    requires Ascending(entries) && forall e :: e in Carried(event) ==> e in entries
    ensures ReduceOne(entries, event) == entries
  {
    hide ReduceOne, Merged;
    OneIsMerge(entries, event);
    var es := Carried(event);
    var m := Store(map[], entries);
    AscendingLists(entries);
    MergedLists(entries, es);
    forall id ensures (id in Store(m, es) <==> id in m) && (id in Store(m, es) ==> Store(m, es)[id] == m[id]) {
      StoreMeans(m, es, id);
      LastOfId(es, id);
    }
    assert Store(m, es) == m;
    OneListing(Merged(entries, es), entries, m);
  }

  /** On entries out of order the fast append would leave them so. */
  lemma {:induction false} AppendSkipsSort()
    ensures var entries := [Entry(3, ""), Entry(1, "")];
            Append(entries, Entry(5, "")) != Merged(entries, [Entry(5, "")])
  {
    hide Append, Merged;
    var entries := [Entry(3, ""), Entry(1, "")];
    assert entries[0].id > entries[1].id;
    AppendIsMergeIff(entries, Entry(5, ""));
  }

  /** No transcript a chat reaches is out of order: there the fast append is always the merge. */
  lemma {:induction false} ReachedAppendsMerge(events: seq<Event>, e: Entry)
    ensures Append(Reduce([], events), e) == Merged(Reduce([], events), [e])
  {
    hide Append, Merged, Reduce;
    TranscriptIsLatest([], events, e);
    AppendIsMergeIff(Reduce([], events), e);
  }
}
