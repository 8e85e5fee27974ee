/**
 * Bounding a fold that is kept alive (conversation-agent-activity.ts:397-442):
 * which agents are forgotten, and what forgetting one costs.
 */
module AgentTrim {
  import opened Options
  import opened AgentActivity

  const MAX_SETTLED_ENTRIES := 256

  /** `order` is the entry map's insertion order. */
  ghost predicate Lists(order: seq<string>, s: State) {
    (forall i, j :: 0 <= i < j < |order| ==> order[i] != order[j])
    && (forall i :: 0 <= i < |order| ==> order[i] in s.entries) && forall id :: id in s.entries ==> id in order
  }

  function Settled(s: State, order: seq<string>): seq<string> {
    if order == [] then []
    else
      var id := order[|order| - 1];
      Settled(s, order[..|order| - 1]) + if id in s.entries && !IsRunning(s, id) then [id] else []
  }

  function UpdatedAt(s: State, id: string): int { if id in s.entries then s.entries[id].updatedAtMs else 0 }

  /** One step of a stable sort: after every entry that is not newer. */
  function Insert(s: State, ids: seq<string>, id: string): seq<string> {
    if ids == [] || UpdatedAt(s, ids[|ids| - 1]) <= UpdatedAt(s, id) then ids + [id]
    else Insert(s, ids[..|ids| - 1], id) + [ids[|ids| - 1]]
  }

  function Sorted(s: State, ids: seq<string>): seq<string> {
    if ids == [] then [] else Insert(s, Sorted(s, ids[..|ids| - 1]), ids[|ids| - 1])
  }

  /** The settled agents to forget: the least recently updated beyond the bound. */
  function Dropped(s: State, order: seq<string>): seq<string> {
    var sorted := Sorted(s, Settled(s, order));
    if |sorted| > MAX_SETTLED_ENTRIES then sorted[..|sorted| - MAX_SETTLED_ENTRIES] else []
  }

  function Forget(s: State, ids: seq<string>): State {
    if ids == [] then s
    else
      var t := Forget(s, ids[..|ids| - 1]);
      var id := ids[|ids| - 1];
      State(t.entries - {id}, t.generations - {id}, t.settled - {id}, t.carded - {id})
  }

  /** What no entry mentions goes too, from each collection that has grown past the bound. */
  function Unmentioned(s: State): State {
    State(s.entries,
          if |s.generations| > MAX_SETTLED_ENTRIES
            then map id | id in s.generations && id in s.entries :: s.generations[id] else s.generations,
          if |s.settled| > MAX_SETTLED_ENTRIES
            then map id | id in s.settled && id in s.entries :: s.settled[id] else s.settled,
          if |s.carded| > MAX_SETTLED_ENTRIES then set id | id in s.carded && id in s.entries else s.carded)
  }

  function Trim(s: State, order: seq<string>): State { Unmentioned(Forget(s, Dropped(s, order))) }

  /** The settled agents, in insertion order. */
  method FindSettled(a: AgentActivityState, order: seq<string>) returns (settled: seq<string>)
    requires Lists(order, a.Contents())
    ensures settled == Settled(a.Contents(), order)
  {
    settled := [];
    var i := 0;
    assert order[..0] == [];
    while i < |order|
      invariant 0 <= i <= |order| && settled == Settled(a.Contents(), order[..i])
    {
      assert order[..i + 1][..i] == order[..i];
      if a.entries[order[i]].status != Running { settled := settled + [order[i]]; }
      i := i + 1;
    }
    assert order[..i] == order;
  }

  method ForgetEach(a: AgentActivityState, dropped: seq<string>)
    modifies a
    ensures a.Contents() == Forget(old(a.Contents()), dropped)
  {
    ghost var s := a.Contents();
    var i := 0;
    assert dropped[..0] == [];
    while i < |dropped|
      invariant 0 <= i <= |dropped| && a.Contents() == Forget(s, dropped[..i])
    {
      assert dropped[..i + 1][..i] == dropped[..i];
      a.entries := a.entries - {dropped[i]};
      a.generations := a.generations - {dropped[i]};
      a.settledGenerations := a.settledGenerations - {dropped[i]};
      a.carded := a.carded - {dropped[i]};
      i := i + 1;
    }
    assert dropped[..i] == dropped;
  }

  /** `trimAgentActivity`, in place; the sort is the language's own. */
  method TrimAgentActivity(a: AgentActivityState, order: seq<string>)
    requires Lists(order, a.Contents())
    modifies a
    ensures a.Contents() == Trim(old(a.Contents()), order)
  {
    hide Settled, Sorted, Lists, Forget;
    var settled := FindSettled(a, order);
    var sorted := Sorted(State(a.entries, a.generations, a.settledGenerations, a.carded), settled);
    var dropped := if |sorted| > MAX_SETTLED_ENTRIES then sorted[..|sorted| - MAX_SETTLED_ENTRIES] else [];
    ForgetEach(a, dropped);
    if |a.generations| > MAX_SETTLED_ENTRIES {
      a.generations := map id | id in a.generations && id in a.entries :: a.generations[id];
    }
    if |a.settledGenerations| > MAX_SETTLED_ENTRIES {
      a.settledGenerations := map id | id in a.settledGenerations && id in a.entries :: a.settledGenerations[id];
    }
    if |a.carded| > MAX_SETTLED_ENTRIES { a.carded := set id | id in a.carded && id in a.entries; }
  }

  // ------------------------------------------------------------------ who is kept

  ghost predicate NoRepeats(ids: seq<string>) { forall i, j :: 0 <= i < j < |ids| ==> ids[i] != ids[j] }

  lemma {:induction false} SettledMembers(s: State, order: seq<string>)
    ensures forall id :: id in Settled(s, order) <==> id in order && id in s.entries && !IsRunning(s, id)
    decreases |order|
  {
    hide IsRunning;
    if order != [] {
      var n := |order| - 1;
      SettledMembers(s, order[..n]);
      assert order == order[..n] + [order[n]];
    }
  }

  lemma {:induction false} SettledOnce(s: State, order: seq<string>)
    requires NoRepeats(order)
    ensures NoRepeats(Settled(s, order))
    decreases |order|
  {
    hide IsRunning;
    if order != [] {
      var n := |order| - 1;
      SettledOnce(s, order[..n]);
      SettledMembers(s, order[..n]);
      assert order[n] !in order[..n];
    }
  }

  ghost predicate ByAge(s: State, ids: seq<string>) {
    forall i, j :: 0 <= i < j < |ids| ==> UpdatedAt(s, ids[i]) <= UpdatedAt(s, ids[j])
  }

  lemma {:induction false} InsertKeeps(s: State, ids: seq<string>, id: string)
    ensures multiset(Insert(s, ids, id)) == multiset(ids) + multiset{id}
    ensures forall x :: x in Insert(s, ids, id) <==> x in ids || x == id
    decreases |ids|
  {
    hide UpdatedAt;
    if ids != [] {
      var n := |ids| - 1;
      assert ids == ids[..n] + [ids[n]];
      InsertKeeps(s, ids[..n], id);
    }
  }

  lemma {:induction false} ByAgeAppend(s: State, front: seq<string>, id: string)
    requires ByAge(s, front) && forall x :: x in front ==> UpdatedAt(s, x) <= UpdatedAt(s, id)
    ensures ByAge(s, front + [id])
  {
    hide UpdatedAt;
  }

  lemma {:induction false} ByAgeFront(s: State, ids: seq<string>)
    requires ByAge(s, ids) && ids != []
    ensures ByAge(s, ids[..|ids| - 1]) && forall x :: x in ids ==> UpdatedAt(s, x) <= UpdatedAt(s, ids[|ids| - 1])
  {
    hide UpdatedAt;
  }

  lemma {:induction false} InsertSorts(s: State, ids: seq<string>, id: string)
    requires ByAge(s, ids)
    ensures ByAge(s, Insert(s, ids, id)) && multiset(Insert(s, ids, id)) == multiset(ids) + multiset{id}
    decreases |ids|
  {
    hide ByAge, UpdatedAt;
    InsertKeeps(s, ids, id);
    if ids == [] {
      ByAgeAppend(s, ids, id);
    } else {
      var n := |ids| - 1;
      ByAgeFront(s, ids);
      if UpdatedAt(s, ids[n]) <= UpdatedAt(s, id) {
        ByAgeAppend(s, ids, id);
      } else {
        InsertSorts(s, ids[..n], id);
        InsertKeeps(s, ids[..n], id);
        ByAgeAppend(s, Insert(s, ids[..n], id), ids[n]);
      }
    }
  }

  lemma {:induction false} SortedSorts(s: State, ids: seq<string>)
    ensures ByAge(s, Sorted(s, ids)) && multiset(Sorted(s, ids)) == multiset(ids)
    decreases |ids|
  {
    assert ByAge(s, []);
    hide ByAge, Insert;
    if ids != [] {
      var n := |ids| - 1;
      assert ids == ids[..n] + [ids[n]];
      SortedSorts(s, ids[..n]);
      InsertSorts(s, Sorted(s, ids[..n]), ids[n]);
    }
  }

  /** Only settled agents are forgotten, the oldest, and exactly as many as exceed the bound. */
  lemma {:induction false} DropsOldestSettled(s: State, order: seq<string>)
    requires Lists(order, s)
    ensures var settled, dropped := Settled(s, order), Dropped(s, order);
            |dropped| == (if |settled| > MAX_SETTLED_ENTRIES then |settled| - MAX_SETTLED_ENTRIES else 0)
            && NoRepeats(dropped)
            && (forall id :: id in dropped ==> id in s.entries && !IsRunning(s, id))
            && forall d, k :: d in dropped && k in s.entries && !IsRunning(s, k) && k !in dropped
                 ==> UpdatedAt(s, d) <= UpdatedAt(s, k)
  {
    hide Settled, Sorted;
    var settled, sorted, dropped := Settled(s, order), Sorted(s, Settled(s, order)), Dropped(s, order);
    SettledMembers(s, order);
    SettledOnce(s, order);
    SortedSorts(s, settled);
    assert |sorted| == |multiset(sorted)| == |settled|;
    forall id ensures id in sorted <==> id in settled { assert id in multiset(sorted) <==> id in multiset(settled); }
    SamePlaces(settled, sorted);
    forall d, k | d in dropped && k in s.entries && !IsRunning(s, k) && k !in dropped
      ensures UpdatedAt(s, d) <= UpdatedAt(s, k) {
      assert k in sorted;
      var i :| 0 <= i < |dropped| && dropped[i] == d;
      var j :| 0 <= j < |sorted| && sorted[j] == k;
      assert j >= |dropped|;
    }
  }

  /** A rearrangement of a list without repeats has none. */
  lemma {:induction false} SamePlaces(a: seq<string>, b: seq<string>)
    requires NoRepeats(a) && multiset(a) == multiset(b)
    ensures NoRepeats(b)
  {
    forall i, j | 0 <= i < j < |b| ensures b[i] != b[j] {
      if b[i] == b[j] {
        assert b == b[..i] + [b[i]] + b[i + 1..j] + [b[j]] + b[j + 1..];
        assert multiset(b)[b[i]] >= 2;
        OnceEach(a, b[i]);
      }
    }
  }

  lemma {:induction false} OnceEach(a: seq<string>, x: string)
    requires NoRepeats(a)
    ensures multiset(a)[x] <= 1
    decreases |a|
  {
    if a != [] {
      var n := |a| - 1;
      OnceEach(a[..n], x);
      assert a == a[..n] + [a[n]];
      if a[n] == x { assert x !in a[..n]; }
    }
  }

  // --------------------------------------------------------- forgetting is invisible

  /** Everything the fold knows of one agent. */
  datatype Slice = Slice(entry: Option<Entry>, generation: Option<nat>, settled: Option<nat>, carded: bool)

  function SliceOf(s: State, id: string): Slice {
    Slice(if id in s.entries then Some(s.entries[id]) else None,
          if id in s.generations then Some(s.generations[id]) else None,
          if id in s.settled then Some(s.settled[id]) else None, id in s.carded)
  }

  lemma {:induction false} ForgetSlice(s: State, ids: seq<string>, id: string)
    ensures SliceOf(Forget(s, ids), id) == if id in ids then Slice(None, None, None, false) else SliceOf(s, id)
    decreases |ids|
  {
    if ids != [] {
      var n := |ids| - 1;
      ForgetSlice(s, ids[..n], id);
      assert ids == ids[..n] + [ids[n]];
    }
  }

  /** What is left before the unmentioned ids go. */
  function Left(s: State, order: seq<string>): State { Forget(s, Dropped(s, order)) }

  /**
   * The agent is settled and among the oldest, or it has no entry and
   * something kept of it is in a collection that has grown past the bound.
   */
  ghost predicate Forgotten(s: State, order: seq<string>, id: string) {
    var t := Left(s, order);
    id in Dropped(s, order)
    || (id !in s.entries && ((id in s.generations && |t.generations| > MAX_SETTLED_ENTRIES)
                             || (id in s.settled && |t.settled| > MAX_SETTLED_ENTRIES)
                             || (id in s.carded && |t.carded| > MAX_SETTLED_ENTRIES)))
  }

  /** What trimming makes of any agent at all. */
  lemma {:induction false} TrimSlice(s: State, order: seq<string>, id: string)
    requires Lists(order, s)
    ensures var t := Left(s, order); var u := Trim(s, order);
            if id in Dropped(s, order) then SliceOf(u, id) == Slice(None, None, None, false) && id in s.entries
            else if id in s.entries then SliceOf(u, id) == SliceOf(s, id)
            else SliceOf(u, id) == Slice(None,
                   if |t.generations| > MAX_SETTLED_ENTRIES then None else SliceOf(s, id).generation,
                   if |t.settled| > MAX_SETTLED_ENTRIES then None else SliceOf(s, id).settled,
                   id in s.carded && |t.carded| <= MAX_SETTLED_ENTRIES)
  {
    hide Dropped, Forget;
    DropsOldestSettled(s, order);
    ForgetSlice(s, Dropped(s, order), id);
  }

  /** Everything known of an agent is kept exactly when it is not forgotten; a running one always is. */
  lemma {:induction false} TrimKeepsIff(s: State, order: seq<string>, id: string)
    requires Lists(order, s)
    ensures SliceOf(Trim(s, order), id) == SliceOf(s, id) <==> !Forgotten(s, order, id)
    ensures IsRunning(s, id) ==> !Forgotten(s, order, id)
  {
    hide Dropped, Trim, Left;
    TrimSlice(s, order, id);
    DropsOldestSettled(s, order);
  }

  lemma {:induction false} SliceFacts(a: State, b: State, id: string)
    requires SliceOf(a, id) == SliceOf(b, id)
    ensures Get(a.generations, id) == Get(b.generations, id) && (id in a.generations <==> id in b.generations)
    ensures Get(a.settled, id) == Get(b.settled, id) && (id in a.carded <==> id in b.carded)
    ensures IsRunning(a, id) == IsRunning(b, id) && (id in a.entries <==> id in b.entries)
    ensures id in a.entries ==> a.entries[id] == b.entries[id]
  {
  }

  /** A change of one agent's entry, or of none, in both states alike. */
  lemma {:induction false} EntrySlice(a: State, b: State, agent: string, e: Entry, id: string)
    requires SliceOf(a, id) == SliceOf(b, id)
    ensures SliceOf(a.(entries := a.entries[agent := e]), id) == SliceOf(b.(entries := b.entries[agent := e]), id)
    ensures agent != id ==> SliceOf(a.(entries := a.entries[agent := e]), id) == SliceOf(a, id)
  {
  }

  lemma {:induction false} StartSlice(a: State, b: State, agent: string, title: string,
                                      at: int, kind: string, text: string, g: Option<nat>, id: string)
    requires SliceOf(a, id) == SliceOf(b, id)
    ensures SliceOf(Start(a, agent, title, at, kind, text, g), id)
            == SliceOf(Start(b, agent, title, at, kind, text, g), id)
    ensures agent != id ==> SliceOf(Start(a, agent, title, at, kind, text, g), id) == SliceOf(a, id)
  {
    hide SliceOf;
    if agent == id {
      SliceFacts(a, b, id);
      var known := if id in a.entries then a.entries[id].title else "";
      if title != "" || known != "" {
        EntrySlice(a, b, id, Start(a, agent, title, at, kind, text, g).entries[id], id);
      }
    } else {
      var c, d := Start(a, agent, title, at, kind, text, g), Start(b, agent, title, at, kind, text, g);
      if c != a { EntrySlice(a, a, agent, c.entries[agent], id); }
      if d != b { EntrySlice(b, b, agent, d.entries[agent], id); }
    }
  }

  lemma {:induction false} SettleSlice(a: State, b: State, agent: string, status: Status, at: int, id: string)
    requires SliceOf(a, id) == SliceOf(b, id)
    ensures SliceOf(Settle(a, agent, status, at), id) == SliceOf(Settle(b, agent, status, at), id)
    ensures agent != id ==> SliceOf(Settle(a, agent, status, at), id) == SliceOf(a, id)
  {
    hide SliceOf;
    if agent == id {
      SliceFacts(a, b, id);
      if IsRunning(a, id) { EntrySlice(a, b, id, Settle(a, agent, status, at).entries[id], id); }
    } else {
      var c, d := Settle(a, agent, status, at), Settle(b, agent, status, at);
      if c != a { EntrySlice(a, a, agent, c.entries[agent], id); }
      if d != b { EntrySlice(b, b, agent, d.entries[agent], id); }
    }
  }

  lemma {:induction false} NumbersSlice(a: State, b: State, agent: string, g: nat, id: string)
    requires SliceOf(a, id) == SliceOf(b, id)
    ensures SliceOf(a.(generations := a.generations[agent := g]), id)
            == SliceOf(b.(generations := b.generations[agent := g]), id)
    ensures SliceOf(a.(settled := a.settled[agent := g]), id) == SliceOf(b.(settled := b.settled[agent := g]), id)
    ensures agent != id ==> SliceOf(a.(generations := a.generations[agent := g]), id) == SliceOf(a, id)
    ensures agent != id ==> SliceOf(a.(settled := a.settled[agent := g]), id) == SliceOf(a, id)
  {
  }

  lemma {:induction false} CardSlice(a: State, b: State, row: Row, id: string)
    requires SliceOf(a, id) == SliceOf(b, id) && row.Card?
    ensures SliceOf(FoldCard(a, row), id) == SliceOf(FoldCard(b, row), id)
  {
    hide SliceOf, Start, Settle;
    if row.agentId != id {
      CardElsewhere(a, row, id);
      CardElsewhere(b, row, id);
    } else {
      SliceFacts(a, b, id);
      NumbersSlice(a, b, id, row.generation, id);
      match row.event
      case Started(description, agentType, statusText) =>
        StartSlice(a.(generations := a.generations[id := row.generation]),
                   b.(generations := b.generations[id := row.generation]),
                   id, description, row.at, agentType, statusText, Some(row.generation), id);
      case Progress(text) =>
        if IsRunning(a, id) { EntrySlice(a, b, id, a.entries[id].(statusText := text, updatedAtMs := row.at), id); }
      case Ended(status) =>
        var g := Max(row.generation, Get(a.settled, id));
        NumbersSlice(a, b, id, g, id);
        SettleSlice(a.(settled := a.settled[id := g]), b.(settled := b.settled[id := g]), id, status, row.at, id);
    }
  }

  lemma {:induction false} CardElsewhere(s: State, row: Row, id: string)
    requires row.Card? && row.agentId != id
    ensures SliceOf(FoldCard(s, row), id) == SliceOf(s, id)
  {
    hide SliceOf, Start, Settle;
    var agent, g := row.agentId, row.generation;
    NumbersSlice(s, s, agent, g, id);
    match row.event
    case Started(description, agentType, statusText) =>
      var t := s.(generations := s.generations[agent := g]);
      StartSlice(t, t, agent, description, row.at, agentType, statusText, Some(g), id);
    case Progress(text) =>
      if IsRunning(s, agent) {
        EntrySlice(s, s, agent, s.entries[agent].(statusText := text, updatedAtMs := row.at), id);
      }
    case Ended(status) =>
      var h := Max(g, Get(s.settled, agent));
      NumbersSlice(s, s, agent, h, id);
      var t := s.(settled := s.settled[agent := h]);
      SettleSlice(t, t, agent, status, row.at, id);
  }

  lemma {:induction false} ResultSlice(a: State, b: State, row: Row, calls: Calls, id: string)
    requires SliceOf(a, id) == SliceOf(b, id) && row.ToolResult?
    ensures SliceOf(FoldToolResult(a, row, calls), id) == SliceOf(FoldToolResult(b, row, calls), id)
  {
    hide SliceOf, Start, ResultThread;
    var thread := ResultThread(row, calls);
    SliceFacts(a, b, id);
    forall title, kind
      ensures SliceOf(Start(a, thread, title, row.at, kind, "", None), id)
              == SliceOf(Start(b, thread, title, row.at, kind, "", None), id)
      ensures thread != id ==> SliceOf(Start(a, thread, title, row.at, kind, "", None), id) == SliceOf(a, id)
      ensures thread != id ==> SliceOf(Start(b, thread, title, row.at, kind, "", None), id) == SliceOf(b, id)
    {
      StartSlice(a, b, thread, title, row.at, kind, "", None, id);
      StartSlice(b, a, thread, title, row.at, kind, "", None, id);
    }
  }

  lemma {:induction false} WakeSlice(a: State, b: State, row: Row, calls: Calls, id: string)
    requires SliceOf(a, id) == SliceOf(b, id) && row.Wake?
    ensures SliceOf(FoldRow(a, row, calls), id) == SliceOf(FoldRow(b, row, calls), id)
  {
    hide SliceOf, Settle;
    SliceFacts(a, b, id);
    SettleSlice(a, b, row.target, row.outcome, row.at, id);
    SettleSlice(b, a, row.target, row.outcome, row.at, id);
  }

  /** What the fold makes of one agent depends on nothing it knows of the others. */
  lemma {:induction false} RowsSlice(a: State, b: State, rows: seq<Row>, calls: Calls, id: string)
    requires SliceOf(a, id) == SliceOf(b, id)
    ensures SliceOf(FoldRows(a, rows, calls), id) == SliceOf(FoldRows(b, rows, calls), id)
    decreases |rows|
  {
    hide FoldCard, FoldToolResult, SliceOf;
    if rows != [] {
      var n := |rows| - 1;
      var row := rows[n];
      RowsSlice(a, b, rows[..n], calls, id);
      var c, d := FoldRows(a, rows[..n], calls), FoldRows(b, rows[..n], calls);
      if row.Card? { CardSlice(c, d, row, id); }
      if row.ToolResult? { ResultSlice(c, d, row, calls, id); }
      if row.Wake? { WakeSlice(c, d, row, calls, id); }
    }
  }

  /**
   * Trimming between batches is invisible exactly to the agents it does not
   * forget: whatever is folded afterwards, each ends as it would have.
   */
  lemma {:induction false} TrimInvisibleIff(f: Folded, order: seq<string>, id: string)
    requires Lists(order, f.state)
    ensures (forall rows ::
               SliceOf(Fold(f.(state := Trim(f.state, order)), rows).state, id) == SliceOf(Fold(f, rows).state, id))
            <==> !Forgotten(f.state, order, id)
  {
    hide Trim, Forgotten, FoldRows, CollectToolCalls, SliceOf, CardedIn;
    TrimKeepsIff(f.state, order, id);
    var t := Trim(f.state, order);
    if !Forgotten(f.state, order, id) {
      forall rows ensures SliceOf(Fold(f.(state := t), rows).state, id) == SliceOf(Fold(f, rows).state, id) {
        var carded := CardedIn(rows);
        CardedSlice(t, f.state, carded, id);
        RowsSlice(t.(carded := t.carded + carded), f.state.(carded := f.state.carded + carded), rows,
                  CollectToolCalls(rows, f.calls), id);
      }
    } else {
      NothingFolded(f);
      NothingFolded(f.(state := t));
      assert SliceOf(Fold(f.(state := t), []).state, id) != SliceOf(Fold(f, []).state, id);
    }
  }

  lemma {:induction false} CardedSlice(a: State, b: State, more: set<string>, id: string)
    requires SliceOf(a, id) == SliceOf(b, id)
    ensures SliceOf(a.(carded := a.carded + more), id) == SliceOf(b.(carded := b.carded + more), id)
  {
  }

  lemma {:induction false} NothingFolded(f: Folded)
    ensures Fold(f, []).state == f.state
  {
    assert f.state.carded + {} == f.state.carded;
  }

  /**
   * An agent whose terminal card has been seen is shut out of an old attempt;
   * after trimming, an old start card delivered again starts it exactly when
   * its fence was forgotten, the card is titled and numbered above zero, and
   * no newer attempt is still known.
   */
  lemma {:induction false} ForgottenRestartsIff(s: State, order: seq<string>, row: Row)
    requires Lists(order, s) && row.Card? && row.event.Started?
    requires !IsRunning(s, row.agentId) && row.generation <= Get(s.settled, row.agentId)
    ensures !IsRunning(FoldCard(s, row), row.agentId)
    ensures var id, t := row.agentId, Left(s, order);
            IsRunning(FoldCard(Trim(s, order), row), id) <==>
            (id in Dropped(s, order) || (id !in s.entries && |t.settled| > MAX_SETTLED_ENTRIES))
            && row.event.description != "" && row.generation > 0
            && (id in Dropped(s, order) || |t.generations| > MAX_SETTLED_ENTRIES
                || row.generation >= Get(s.generations, id))
  {
    hide Dropped, Trim, Left;
    TrimSlice(s, order, row.agentId);
  }

  // ------------------------------------------------------------------- a witness

  /** An id as long as its number. */
  function Name(n: nat): string { seq(n + 1, _ => 'a') }

  /** Terminal cards of `n` agents whose start cards have not come. */
  function Terminals(n: nat): seq<Row> {
    if n == 0 then [] else Terminals(n - 1) + [Card(Name(n - 1), 1, Ended(Completed), 0)]
  }

  lemma {:induction false} FirstTerminal(s: State, id: string)
    requires s.entries == map[] && s.generations == map[] && id !in s.settled
    ensures FoldCard(s, Card(id, 1, Ended(Completed), 0)) == s.(settled := s.settled[id := 1])
    ensures |s.settled[id := 1]| == |s.settled| + 1
  {
    assert s.settled[id := 1].Keys == s.settled.Keys + {id};
  }

  lemma {:induction false} TerminalsFold(n: nat)
    ensures var s := FoldRows(EMPTY, Terminals(n), map[]);
            && s.entries == map[] && s.generations == map[] && s.carded == {} && |s.settled| == n
            && (forall id :: id in s.settled ==> |id| <= n) && (n > 0 ==> Get(s.settled, Name(0)) == 1)
    decreases n
  {
    hide FoldCard;
    if n > 0 {
      TerminalsFold(n - 1);
      var rows := Terminals(n);
      assert rows[..|rows| - 1] == Terminals(n - 1);
      var s := FoldRows(EMPTY, Terminals(n - 1), map[]);
      FirstTerminal(s, Name(n - 1));
      assert FoldRows(EMPTY, rows, map[]) == FoldCard(s, rows[|rows| - 1]);
    }
  }

  /**
   * 257 terminal cards that arrive before their start cards leave no entry and
   * 257 fences; a trim forgets them all, so the late start card of a finished
   * attempt leaves its agent running, which the untrimmed state would not.
   */
  lemma {:induction false} LateStartRuns(n: nat)
    requires n == MAX_SETTLED_ENTRIES + 1
    ensures var s := FoldRows(EMPTY, Terminals(n), map[]); var late := Card(Name(0), 1, Started("Research", "", ""), 1);
            Lists([], s) && Dropped(s, []) == []
            && !IsRunning(FoldCard(s, late), Name(0)) && IsRunning(FoldCard(Trim(s, []), late), Name(0))
  {
    hide FoldRows, Terminals, Name, FoldCard;
    TerminalsFold(n);
    var s := FoldRows(EMPTY, Terminals(n), map[]);
    assert Settled(s, []) == [] && Sorted(s, []) == [];
    assert Forget(s, []) == s;
    ForgottenRestartsIff(s, [], Card(Name(0), 1, Started("Research", "", ""), 1));
  }

  // ---------------------------------------------------------------- tool calls

  const MAX_PENDING_TOOL_CALLS := 512

  /** The call map's keys in the order they were first set. */
  ghost predicate CallsListed(order: seq<string>, calls: Calls) {
    NoRepeats(order) && (forall i :: 0 <= i < |order| ==> order[i] in calls) && forall id :: id in calls ==> id in order
  }

  /** The calls past the bound that were set first are forgotten. */
  function TrimCalls(calls: Calls, order: seq<string>): Calls {
    if |calls| > MAX_PENDING_TOOL_CALLS && |calls| - MAX_PENDING_TOOL_CALLS <= |order|
    then calls - set i | 0 <= i < |calls| - MAX_PENDING_TOOL_CALLS :: order[i] else calls
  }

  method TrimToolCalls(toolCalls: ToolCallMap, order: seq<string>)
    requires CallsListed(order, toolCalls.calls)
    modifies toolCalls
    ensures toolCalls.calls == TrimCalls(old(toolCalls.calls), order)
  {
    OrderCounts(order, toolCalls.calls);
    ghost var calls := toolCalls.calls;
    if |toolCalls.calls| <= MAX_PENDING_TOOL_CALLS { return; }
    var excess := |toolCalls.calls| - MAX_PENDING_TOOL_CALLS;
    var i := 0;
    while i < excess
      invariant 0 <= i <= excess <= |order|
      invariant toolCalls.calls == calls - set k | 0 <= k < i :: order[k]
    {
      toolCalls.calls := toolCalls.calls - {order[i]};
      i := i + 1;
    }
  }

  lemma {:induction false} OrderCounts(order: seq<string>, calls: Calls)
    requires CallsListed(order, calls)
    ensures |order| == |calls|
  {
    Elements(order);
    assert calls.Keys == set id <- order;
  }

  lemma {:induction false} Elements(order: seq<string>)
    requires NoRepeats(order)
    ensures |(set id <- order)| == |order|
    decreases |order|
  {
    if order != [] {
      var n := |order| - 1;
      Elements(order[..n]);
      assert order == order[..n] + [order[n]];
      assert (set id <- order) == (set id <- order[..n]) + {order[n]};
      assert order[n] !in order[..n];
    }
  }

  /** At most 512 calls are kept, the ones set last, and each as it was. */
  lemma {:induction false} TrimCallsKeepsNewest(calls: Calls, order: seq<string>, k: nat)
    requires CallsListed(order, calls) && k < |order|
    ensures order[k] in TrimCalls(calls, order) <==> k + MAX_PENDING_TOOL_CALLS >= |order|
    ensures order[k] in TrimCalls(calls, order) ==> TrimCalls(calls, order)[order[k]] == calls[order[k]]
    ensures |TrimCalls(calls, order)| <= MAX_PENDING_TOOL_CALLS
  {
    OrderCounts(order, calls);
    var excess := |calls| - MAX_PENDING_TOOL_CALLS;
    if excess > 0 {
      var gone := set i | 0 <= i < excess :: order[i];
      assert (set id <- order[..excess]) == gone by {
        forall i | 0 <= i < excess ensures order[i] in (set id <- order[..excess]) {
          assert order[..excess][i] == order[i];
        }
      }
      Elements(order[..excess]);
      assert TrimCalls(calls, order).Keys == calls.Keys - gone;
      assert gone <= calls.Keys;
    }
  }
}
