/**
 * Who is working in a conversation, folded from decoded journal rows
 * (conversation-agent-activity.ts:194-381). Text decoding happens before: a
 * row carries the fields the fold reads, trimmed, with "" for an absent text.
 */
module AgentActivity {
  import opened Options

  datatype Status = Running | Completed | Error | Canceled

  datatype Entry = Entry(title: string, agentType: string, status: Status, statusText: string,
                         createdAtMs: int, updatedAtMs: int, completedAtMs: Option<int>,
                         attemptGeneration: Option<nat>)

  datatype Event =
    | Started(description: string, agentType: string, statusText: string)
    | Progress(text: string)
    | Ended(status: Status)

  datatype ToolCall = ToolCall(name: string, description: string, threadId: string)

  datatype NamedCall = NamedCall(id: string, call: ToolCall)

  datatype Row =
    | Card(agentId: string, generation: nat, event: Event, at: int)
    | Wake(target: string, outcome: Status, at: int)
    | Assistant(toolCalls: seq<NamedCall>)
    | ToolResult(isError: bool, callId: string, toolName: Option<string>, threadId: string, delivered: Option<string>,
                 details: string, at: int)
    | Other

  datatype State = State(entries: map<string, Entry>, generations: map<string, nat>,
                         settled: map<string, nat>, carded: set<string>)

  const EMPTY := State(map[], map[], map[], {})

  type Calls = map<string, ToolCall>

  function Get(m: map<string, nat>, key: string): nat { if key in m then m[key] else 0 }

  function Max(a: nat, b: nat): nat { if a >= b then a else b }

  function IsRunning(s: State, id: string): bool { id in s.entries && s.entries[id].status == Running }

  function Start(s: State, id: string, title: string, at: int, agentType: string, statusText: string,
                 generation: Option<nat>): State {
    var known := if id in s.entries then s.entries[id].title else "";
    var knownType := if id in s.entries then s.entries[id].agentType else "";
    var resolved := if title != "" then title else known;
    if resolved == "" then s
    else
      s.(entries := s.entries[id := Entry(resolved, if agentType != "" then agentType else knownType, Running,
                                          statusText, at, at, None, generation)])
  }

  function Settle(s: State, id: string, status: Status, at: int): State {
    if !IsRunning(s, id) then s
    else
      s.(entries := s.entries[id := s.entries[id].(status := status, statusText := "", completedAtMs := Some(at),
                                                   updatedAtMs := at)])
  }

  function FoldCard(s: State, row: Row): State
    requires row.Card?
  {
    var id, g := row.agentId, row.generation;
    var current := Get(s.generations, id);
    match row.event
    case Started(description, agentType, statusText) =>
      if g < current || g <= Get(s.settled, id) then s
      else
        Start(s.(generations := s.generations[id := g]), id, description, row.at, agentType, statusText, Some(g))
    case Progress(text) =>
      if id !in s.generations || g != current then s
      else if IsRunning(s, id) && text != "" then
        s.(entries := s.entries[id := s.entries[id].(statusText := text, updatedAtMs := row.at)])
      else s
    case Ended(status) =>
      var t := s.(settled := s.settled[id := Max(g, Get(s.settled, id))]);
      if g != current && id in s.generations then t else Settle(t, id, status, row.at)
  }

  function ResultTool(row: Row, calls: Calls): string
    requires row.ToolResult?
  {
    if row.toolName.Some? then row.toolName.value else if row.callId in calls then calls[row.callId].name else ""
  }

  function ResultThread(row: Row, calls: Calls): string
    requires row.ToolResult?
  {
    if row.threadId != "" then row.threadId
    else if row.callId in calls then calls[row.callId].threadId else ""
  }

  function FoldToolResult(s: State, row: Row, calls: Calls): State
    requires row.ToolResult?
  {
    var tool := ResultTool(row, calls);
    var thread := ResultThread(row, calls);
    if row.isError || (tool != "spawn_agent" && tool != "send_message") then s
    else if thread == "" || thread in s.carded then s
    else if tool == "send_message" then
      if row.delivered.Some? && row.delivered.value != "resumed" then s
      else if row.delivered.Some? && thread !in s.entries then s
      else if IsRunning(s, thread) then s
      else Start(s, thread, "", row.at, "", "", None)
    else
      var described := if row.callId in calls then calls[row.callId].description else "";
      Start(s, thread, if described != "" then described else row.details, row.at, "general", "", None)
  }

  function FoldRow(s: State, row: Row, calls: Calls): State {
    match row
    case Card(_, _, _, _) => FoldCard(s, row)
    case Wake(target, outcome, at) => if target in s.carded then s else Settle(s, target, outcome, at)
    case ToolResult(_, _, _, _, _, _, _) => FoldToolResult(s, row, calls)
    case Assistant(_) => s
    case Other => s
  }

  function FoldRows(s: State, rows: seq<Row>, calls: Calls): State
    decreases |rows|
  {
    if rows == [] then s else FoldRow(FoldRows(s, rows[..|rows| - 1], calls), rows[|rows| - 1], calls)
  }

  function StartedBy(row: Row): set<string> {
    if row.Card? && row.event.Started? then {row.agentId} else {}
  }

  function CardedIn(rows: seq<Row>): set<string>
    decreases |rows|
  {
    if rows == [] then {} else CardedIn(rows[..|rows| - 1]) + StartedBy(rows[|rows| - 1])
  }

  function SetCalls(calls: Calls, named: seq<NamedCall>): Calls
    decreases |named|
  {
    if named == [] then calls
    else
      var last := named[|named| - 1];
      SetCalls(calls, named[..|named| - 1])[last.id := last.call]
  }

  function CollectToolCalls(rows: seq<Row>, into: Calls): Calls
    decreases |rows|
  {
    if rows == [] then into
    else
      var before := CollectToolCalls(rows[..|rows| - 1], into);
      var last := rows[|rows| - 1];
      if last.Assistant? then SetCalls(before, last.toolCalls) else before
  }

  datatype Folded = Folded(state: State, calls: Calls)

  /** One batch: its start cards and its tool calls are read before any row is applied. */
  function Fold(f: Folded, rows: seq<Row>): Folded {
    var calls := CollectToolCalls(rows, f.calls);
    Folded(FoldRows(f.state.(carded := f.state.carded + CardedIn(rows)), rows, calls), calls)
  }

  // ------------------------------------------------------------------ in place

  class ToolCallMap {
    var calls: Calls

    constructor ()
      ensures calls == map[]
    {
      calls := map[];
    }

    /** Keeps every call of a batch, a later one replacing an earlier one of the same id. */
    method Collect(rows: seq<Row>)
      modifies this
      ensures calls == CollectToolCalls(rows, old(calls))
    {
      var i := 0;
      while i < |rows|
        invariant 0 <= i <= |rows| && calls == CollectToolCalls(rows[..i], old(calls))
      {
        assert rows[..i + 1][..i] == rows[..i];
        if rows[i].Assistant? {
          var named := rows[i].toolCalls;
          ghost var start := calls;
          var k := 0;
          while k < |named|
            invariant 0 <= k <= |named| && calls == SetCalls(start, named[..k])
          {
            assert named[..k + 1][..k] == named[..k];
            calls := calls[named[k].id := named[k].call];
            k := k + 1;
          }
          assert named[..k] == named;
        }
        i := i + 1;
      }
      assert rows[..i] == rows;
    }
  }

  class AgentActivityState {
    var entries: map<string, Entry>
    var generations: map<string, nat>
    var settledGenerations: map<string, nat>
    var carded: set<string>

    ghost function Contents(): State
      reads this
    {
      State(entries, generations, settledGenerations, carded)
    }

    constructor ()
      ensures Contents() == EMPTY
    {
      entries, generations, settledGenerations, carded := map[], map[], map[], {};
    }

    method StartAgent(id: string, title: string, at: int, agentType: string, statusText: string,
                      generation: Option<nat>)
      modifies this`entries
      ensures Contents() == Start(old(Contents()), id, title, at, agentType, statusText, generation)
    {
      var resolvedTitle, kept := title, "";
      if id in entries {
        if resolvedTitle == "" { resolvedTitle := entries[id].title; }
        kept := entries[id].agentType;
      }
      if resolvedTitle == "" { return; }
      entries := entries[id := Entry(resolvedTitle, if agentType != "" then agentType else kept, Running, statusText,
                                     at, at, None, generation)];
    }

    method SettleAgent(id: string, status: Status, at: int)
      modifies this`entries
      ensures Contents() == Settle(old(Contents()), id, status, at)
    {
      if id !in entries || entries[id].status != Running { return; }
      var rest := entries[id].(statusText := "");
      entries := entries[id := rest.(status := status, completedAtMs := Some(at), updatedAtMs := at)];
    }

    method ApplyCard(row: Row)
      requires row.Card?
      modifies this
      ensures Contents() == FoldCard(old(Contents()), row)
    {
      hide Start, Settle;
      var id, generation := row.agentId, row.generation;
      var current := Get(generations, id);
      if row.event.Started? {
        if generation < current { return; }
        if generation <= Get(settledGenerations, id) { return; }
        generations := generations[id := generation];
        StartAgent(id, row.event.description, row.at, row.event.agentType, row.event.statusText, Some(generation));
        return;
      }
      if row.event.Ended? {
        settledGenerations := settledGenerations[id := Max(generation, Get(settledGenerations, id))];
      }
      if generation != current && id in generations { return; }
      if row.event.Progress? {
        if id !in generations { return; }
        if id in entries && entries[id].status == Running && row.event.text != "" {
          entries := entries[id := entries[id].(statusText := row.event.text, updatedAtMs := row.at)];
        }
        return;
      }
      SettleAgent(id, row.event.status, row.at);
    }

    method ApplyToolResult(row: Row, calls: Calls)
      requires row.ToolResult?
      modifies this
      ensures Contents() == FoldToolResult(old(Contents()), row, calls)
    {
      hide Start;
      if row.isError { return; }
      var tool := ResultTool(row, calls);
      if tool != "spawn_agent" && tool != "send_message" { return; }
      var threadId := ResultThread(row, calls);
      if threadId == "" || threadId in carded { return; }
      if tool == "send_message" {
        if row.delivered.Some? && row.delivered.value != "resumed" { return; }
        if row.delivered == Some("resumed") && threadId !in entries { return; }
        if threadId in entries && entries[threadId].status == Running { return; }
        StartAgent(threadId, "", row.at, "", "", None);
        return;
      }
      var description := row.details;
      if row.callId in calls && calls[row.callId].description != "" {
        description := calls[row.callId].description;
      }
      StartAgent(threadId, description, row.at, "general", "", None);
    }

    method MarkCarded(rows: seq<Row>)
      modifies this`carded
      ensures carded == old(carded) + CardedIn(rows)
    {
      var i := 0;
      while i < |rows|
        invariant 0 <= i <= |rows| && carded == old(carded) + CardedIn(rows[..i])
      {
        assert rows[..i + 1][..i] == rows[..i];
        if rows[i].Card? && rows[i].event.Started? { carded := carded + {rows[i].agentId}; }
        i := i + 1;
      }
      assert rows[..i] == rows;
    }

    method ApplyRow(row: Row, calls: Calls)
      modifies this
      ensures Contents() == FoldRow(old(Contents()), row, calls)
    {
      hide FoldCard, FoldToolResult, Settle;
      match row {
        case Card(_, _, _, _) => ApplyCard(row);
        case Wake(target, outcome, at) => if target !in carded { SettleAgent(target, outcome, at); }
        case ToolResult(_, _, _, _, _, _, _) => ApplyToolResult(row, calls);
        case Assistant(_) =>
        case Other =>
      }
    }

    /** Folds one batch into the state and the call map, both updated in place. */
    method FoldAgentActivity(rows: seq<Row>, toolCalls: ToolCallMap)
      modifies this, toolCalls
      ensures Folded(Contents(), toolCalls.calls) == Fold(Folded(old(Contents()), old(toolCalls.calls)), rows)
    {
      hide FoldRow;
      MarkCarded(rows);
      toolCalls.Collect(rows);
      var calls := toolCalls.calls;
      ghost var start := Contents();
      var i := 0;
      while i < |rows|
        modifies this
        invariant 0 <= i <= |rows| && Contents() == FoldRows(start, rows[..i], calls)
      {
        assert rows[..i + 1][..i] == rows[..i];
        ApplyRow(rows[i], calls);
        i := i + 1;
      }
      assert rows[..i] == rows;
    }
  }
}
