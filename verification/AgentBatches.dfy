/** The fold is incremental: when cutting the journal into batches changes nothing. */
module AgentBatches {
  import opened Options
  import opened AgentActivity
  import opened AgentFencing

  ghost predicate DefinesCall(rows: seq<Row>, id: string) {
    exists r :: r in rows && r.Assistant? && exists c :: c in r.toolCalls && c.id == id
  }

  /** The agent a mirrored row names, given the calls known when it is read. */
  ghost function MirroredAgent(row: Row, calls: Calls): Option<string> {
    match row
    case Wake(target, _, _) => Some(target)
    case ToolResult(_, _, _, _, _, _, _) => Some(ResultThread(row, calls))
    case _ => None
  }

  /**
   * Nothing later in the journal bears on `a`: the calls its results answer are
   * not made in `b`, and no agent its mirrored rows name is first carded there.
   */
  ghost predicate Separate(f: Folded, a: seq<Row>, b: seq<Row>) {
    var calls := CollectToolCalls(a, f.calls);
    && (forall r :: r in a && r.ToolResult? ==> !DefinesCall(b, r.callId))
    && (forall r :: r in a && MirroredAgent(r, calls).Some? ==>
          var agent := MirroredAgent(r, calls).value;
          agent in CardedIn(b) ==> agent in f.state.carded + CardedIn(a))
  }

  lemma {:induction false} CardedConcat(a: seq<Row>, b: seq<Row>)
    ensures CardedIn(a + b) == CardedIn(a) + CardedIn(b)
    decreases |b|
  {
    if b == [] { assert a + b == a; }
    else {
      var n := |b| - 1;
      assert (a + b)[..|a + b| - 1] == a + b[..n];
      CardedConcat(a, b[..n]);
    }
  }

  lemma {:induction false} CollectConcat(a: seq<Row>, b: seq<Row>, into: Calls)
    ensures CollectToolCalls(a + b, into) == CollectToolCalls(b, CollectToolCalls(a, into))
    decreases |b|
  {
    if b == [] { assert a + b == a; }
    else {
      var n := |b| - 1;
      assert (a + b)[..|a + b| - 1] == a + b[..n];
      CollectConcat(a, b[..n], into);
    }
  }

  lemma {:induction false} SetCallsElsewhere(calls: Calls, named: seq<NamedCall>, id: string)
    requires forall c :: c in named ==> c.id != id
    ensures (id in SetCalls(calls, named) <==> id in calls) && (id in calls ==> SetCalls(calls, named)[id] == calls[id])
    decreases |named|
  {
    if named != [] {
      var n := |named| - 1;
      assert named[n] in named;
      assert forall c :: c in named[..n] ==> c in named;
      SetCallsElsewhere(calls, named[..n], id);
    }
  }

  /** Rows that do not define a call leave what is known of it. */
  lemma {:induction false} CollectElsewhere(rows: seq<Row>, into: Calls, id: string)
    requires !DefinesCall(rows, id)
    ensures var calls := CollectToolCalls(rows, into);
            (id in calls <==> id in into) && (id in into ==> calls[id] == into[id])
    decreases |rows|
  {
    if rows != [] {
      var n := |rows| - 1;
      assert rows[n] in rows;
      assert forall r :: r in rows[..n] ==> r in rows;
      CollectElsewhere(rows[..n], into, id);
      if rows[n].Assistant? {
        SetCallsElsewhere(CollectToolCalls(rows[..n], into), rows[n].toolCalls, id);
      }
    }
  }

  ghost predicate AgreeOn(row: Row, calls: Calls, more: Calls) {
    row.ToolResult? ==>
      && (row.callId in calls <==> row.callId in more)
      && (row.callId in calls ==> calls[row.callId] == more[row.callId])
  }

  lemma CardReads(s: State, row: Row, carded: set<string>)
    requires row.Card?
    ensures FoldCard(s.(carded := carded), row) == FoldCard(s, row).(carded := carded)
    ensures FoldCard(s, row).carded == s.carded
  {
  }

  lemma ResultReads(s: State, row: Row, calls: Calls, more: Calls, carded: set<string>)
    requires row.ToolResult? && AgreeOn(row, calls, more)
    requires ResultThread(row, calls) in s.carded <==> ResultThread(row, calls) in carded
    ensures FoldToolResult(s.(carded := carded), row, more) == FoldToolResult(s, row, calls).(carded := carded)
    ensures FoldToolResult(s, row, calls).carded == s.carded
  {
    assert ResultTool(row, calls) == ResultTool(row, more);
    assert ResultThread(row, calls) == ResultThread(row, more);
  }

  /** A row reads the carded set and the call map only where it names something. */
  lemma {:induction false} RowReads(s: State, row: Row, calls: Calls, more: Calls, carded: set<string>)
    requires AgreeOn(row, calls, more)
    requires MirroredAgent(row, calls).Some? ==>
               (MirroredAgent(row, calls).value in s.carded <==> MirroredAgent(row, calls).value in carded)
    ensures FoldRow(s.(carded := carded), row, more) == FoldRow(s, row, calls).(carded := carded)
    ensures FoldRow(s, row, calls).carded == s.carded
  {
    hide FoldCard, FoldToolResult, ResultThread, AgreeOn;
    match row {
      case Card(_, _, _, _) => CardReads(s, row, carded);
      case ToolResult(_, _, _, _, _, _, _) => ResultReads(s, row, calls, more, carded);
      case _ =>
    }
  }

  lemma {:induction false} RowsRead(s: State, rows: seq<Row>, calls: Calls, more: Calls, carded: set<string>)
    requires forall r :: r in rows ==> AgreeOn(r, calls, more)
    requires forall r :: r in rows && MirroredAgent(r, calls).Some? ==>
               (MirroredAgent(r, calls).value in s.carded <==> MirroredAgent(r, calls).value in carded)
    ensures FoldRows(s.(carded := carded), rows, more) == FoldRows(s, rows, calls).(carded := carded)
    ensures FoldRows(s, rows, calls).carded == s.carded
    decreases |rows|
  {
    hide FoldRow, AgreeOn, MirroredAgent;
    if rows != [] {
      var n := |rows| - 1;
      assert rows[n] in rows;
      assert forall r :: r in rows[..n] ==> r in rows;
      RowsRead(s, rows[..n], calls, more, carded);
      var t := FoldRows(s, rows[..n], calls);
      RowReads(t, rows[n], calls, more, carded);
    }
  }

  /** Folding two batches, with the call map carried, is folding them as one. */
  lemma {:induction false} BatchSplit(f: Folded, a: seq<Row>, b: seq<Row>)
    requires Separate(f, a, b)
    ensures Fold(Fold(f, a), b) == Fold(f, a + b)
  {
    hide FoldRow;
    var calls := CollectToolCalls(a, f.calls);
    var more := CollectToolCalls(b, calls);
    CardedConcat(a, b);
    CollectConcat(a, b, f.calls);
    var carded := f.state.carded + CardedIn(a);
    var all := f.state.carded + CardedIn(a + b);
    var start := f.state.(carded := carded);
    forall r | r in a ensures AgreeOn(r, calls, more) {
      if r.ToolResult? { CollectElsewhere(b, calls, r.callId); }
    }
    RowsRead(start, a, calls, more, all);
    assert start.(carded := all) == f.state.(carded := all);
    assert carded + CardedIn(b) == all;
    FoldConcat(f.state.(carded := all), a, b, more);
  }

  const SPAWN := ToolResult(false, "c", Some("spawn_agent"), "t", None, "Research", 1)

  /** Without the second condition: a start card in the next batch un-counts the mirrored start before it. */
  lemma {:induction false} LaterCardMatters()
    ensures var a := [SPAWN]; var b := [Card("t", 1, Started("", "", ""), 2)];
            var f := Folded(EMPTY, map[]);
            IsRunning(Fold(Fold(f, a), b).state, "t") && !IsRunning(Fold(f, a + b).state, "t")
  {
    var start := Card("t", 1, Started("", "", ""), 2);
    var a := [SPAWN];
    var b := [start];
    assert "spawn_agent"[1] != "send_message"[1];
    assert a[..0] == [] && b[..0] == [];
    assert CardedIn(a) == {} && CardedIn(b) == {"t"};
    assert EMPTY.carded + {} == {};
    CardedConcat(a, b);
    CollectConcat(a, b, map[]);
    var alone := FoldRow(EMPTY, SPAWN, map[]);
    assert alone.entries["t"].title == "Research" && IsRunning(alone, "t");
    assert CollectToolCalls(a[..0], map[]) == map[];
    assert CollectToolCalls(a, map[]) == map[];
    assert EMPTY.(carded := EMPTY.carded + CardedIn(a)) == EMPTY;
    FoldOne(EMPTY, SPAWN);
    assert Fold(Folded(EMPTY, map[]), a).state == alone;
    assert alone.carded + {"t"} == {"t"};
    FoldOne(alone.(carded := {"t"}), start);
    FoldConcat(EMPTY.(carded := {"t"}), a, b, map[]);
    FoldOne(EMPTY.(carded := {"t"}), SPAWN);
    FoldOne(EMPTY.(carded := {"t"}), start);
  }

  /** Without the first: a call made after its result names the agent only when both are read at once. */
  lemma LaterCallMatters()
    ensures var result := ToolResult(false, "c", Some("spawn_agent"), "", None, "Research", 1);
            var a := [result]; var b := [Assistant([NamedCall("c", ToolCall("spawn_agent", "", "t"))])];
            var f := Folded(EMPTY, map[]);
            !IsRunning(Fold(Fold(f, a), b).state, "t") && IsRunning(Fold(f, a + b).state, "t")
  {
    var result := ToolResult(false, "c", Some("spawn_agent"), "", None, "Research", 1);
    var call := NamedCall("c", ToolCall("spawn_agent", "", "t"));
    var a := [result];
    var b := [Assistant([call])];
    assert (a + b)[..1] == a && a[..0] == [] && b[..0] == [] && [call][..0] == [];
    assert CardedIn(a) == {} && CardedIn(b) == {};
    CardedConcat(a, b);
    CollectConcat(a, b, map[]);
    assert EMPTY.carded + {} == {};
    assert SetCalls(map[], [call]) == map["c" := call.call];
    FoldConcat(EMPTY, a, b, map["c" := call.call]);
  }
}
