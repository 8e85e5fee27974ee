/**
 * Reply context (packages/contracts/reply-context.ts:64-142) as a recursion
 * over rows: exchanges are numbered, and every id an ask is known by names
 * its exchange's number.
 */
module ReplySpec {
  import opened Options

  type Id = string

  datatype Ref = MessageRef(id: Id) | AgentRef(threadId: Id)
  /** `m:id` and `a:threadId`. */
  datatype Key = M(id: Id) | A(threadId: Id)

  datatype Row = Row(id: Id, user: bool, hidden: bool, aliasIds: seq<Id>, refs: seq<Ref>,
                     answers: seq<Id>, ownsAgentIds: seq<Id>)

  function KeyOf(r: Ref): Key { if r.MessageRef? then M(r.id) else A(r.threadId) }

  /**
   * `sets` are the exchanges, the first one before any ask; `asks` gives each
   * ask's exchange under every id of it, and `current` the present one.
   */
  datatype State = State(
    contexts: map<Id, Ref>, messages: map<Id, nat>, agents: map<Id, nat>, origins: map<Id, Id>,
    asks: map<Id, nat>, sets: seq<set<Key>>, current: nat, user: Option<Id>)

  ghost predicate Sound(s: State) {
    s.current < |s.sets| && forall id :: id in s.asks ==> s.asks[id] < |s.sets|
  }

  const Empty := State(map[], map[], map[], map[], map[], [{}], 0, None)

  function MKeys(ids: seq<Id>): set<Key> { set i | 0 <= i < |ids| :: M(ids[i]) }
  function AKeys(ids: seq<Id>): set<Key> { set i | 0 <= i < |ids| :: A(ids[i]) }
  function RefKeys(refs: seq<Ref>): set<Key> { set i | 0 <= i < |refs| :: KeyOf(refs[i]) }

  /** Everything a row puts into its exchange. */
  function RowKeys(row: Row): set<Key> {
    if row.user then {M(row.id)} + MKeys(row.aliasIds) + AKeys(row.ownsAgentIds)
    else {M(row.id)} + MKeys(row.aliasIds) + RefKeys(row.refs) + MKeys(row.answers) + AKeys(row.ownsAgentIds)
  }

  /** What a reply adds, in the order it is added. */
  function Added(row: Row): seq<Key> {
    [M(row.id)] + Map(id => M(id), row.aliasIds) + Map(KeyOf, row.refs) + Map(id => M(id), row.answers)
      + Map(id => A(id), row.ownsAgentIds)
  }

  function Map<T, U>(f: T -> U, s: seq<T>): (r: seq<U>)
    ensures |r| == |s| && forall i :: 0 <= i < |s| ==> r[i] == f(s[i])
  {
    seq(|s|, i requires 0 <= i < |s| => f(s[i]))
  }

  function SetEach<V>(m: map<Id, V>, ids: seq<Id>, v: V): map<Id, V> {
    if ids == [] then m else SetEach(m, ids[..|ids| - 1], v)[ids[|ids| - 1] := v]
  }

  function UserRow(s: State, row: Row): State {
    var at: nat := |s.sets|;
    s.(user := Some(row.id), current := at, sets := s.sets + [RowKeys(row)],
       asks := SetEach<nat>(s.asks[row.id := at], row.aliasIds, at),
       origins := SetEach(s.origins, row.ownsAgentIds, row.id))
  }

  /** The earlier exchanges a reply's answers take it back to, one for each such answer. */
  function Rejoined(asks: map<Id, nat>, current: nat, answers: seq<Id>): (r: seq<nat>)
    ensures forall j :: j in r <==> exists a :: a in answers && a in asks && asks[a] == j && j != current
  {
    if answers == [] then []
    else
      var a := answers[|answers| - 1];
      Rejoined(asks, current, answers[..|answers| - 1]) + if a in asks && asks[a] != current then [asks[a]] else []
  }

  function UnionOf(sets: seq<set<Key>>, which: seq<nat>): set<Key>
    requires forall i :: 0 <= i < |which| ==> which[i] < |sets|
  {
    if which == [] then {} else UnionOf(sets, which[..|which| - 1]) + sets[which[|which| - 1]]
  }

  lemma {:induction false} RejoinedInRange(s: State, answers: seq<Id>)
    requires Sound(s)
    ensures forall i :: 0 <= i < |Rejoined(s.asks, s.current, answers)| ==>
              Rejoined(s.asks, s.current, answers)[i] < |s.sets| && Rejoined(s.asks, s.current, answers)[i] != s.current
  {
    var r := Rejoined(s.asks, s.current, answers);
    assert forall i :: 0 <= i < |r| ==> r[i] in r;
  }

  /** The exchange a reply is read in: the current one and those it rejoins. */
  function Near(s: State, answers: seq<Id>): set<Key>
    requires Sound(s)
  {
    RejoinedInRange(s, answers);
    s.sets[s.current] + UnionOf(s.sets, Rejoined(s.asks, s.current, answers))
  }

  function FirstAsk(asks: map<Id, nat>, answers: seq<Id>): Option<Id> {
    if answers == [] then None
    else if answers[0] in asks then Some(answers[0])
    else FirstAsk(asks, answers[1..])
  }

  /** The ask a reply's tasks come from; an empty id counts as none. */
  function Origin(asks: map<Id, nat>, user: Option<Id>, answers: seq<Id>): Option<Id> {
    var a := FirstAsk(asks, answers);
    var o := if a.Some? then a else user;
    if o == Some([]) then None else o
  }

  function OriginsAfter(s: State, row: Row): map<Id, Id> {
    var o := Origin(s.asks, s.user, row.answers);
    if o.None? then s.origins else SetEach(s.origins, row.ownsAgentIds, o.value)
  }

  function Distant(refs: seq<Ref>, near: set<Key>): seq<Ref> {
    if refs == [] then []
    else
      var n := |refs| - 1;
      Distant(refs[..n], near) + if KeyOf(refs[n]) in near then [] else [refs[n]]
  }

  function Agents(refs: seq<Ref>): seq<Ref> {
    if refs == [] then []
    else Agents(refs[..|refs| - 1]) + if refs[|refs| - 1].AgentRef? then [refs[|refs| - 1]] else []
  }

  /** The reference worth quoting. */
  function Quote(distant: seq<Ref>): Option<Ref> {
    var candidates := if Agents(distant) != [] then Agents(distant) else distant;
    if candidates == [] then None else Some(candidates[0])
  }

  /** The ask a distant reference counts for. */
  function AskOf(r: Ref, origins: map<Id, Id>): Option<Id> {
    if r.MessageRef? then Some(r.id)
    else if r.threadId in origins && origins[r.threadId] != [] then Some(origins[r.threadId]) else None
  }

  /** The asks a reply counts for, each once. */
  function Counted(distant: seq<Ref>, origins: map<Id, Id>): seq<Id> {
    if distant == [] then []
    else
      var before := Counted(distant[..|distant| - 1], origins);
      var ask := AskOf(distant[|distant| - 1], origins);
      if ask.None? || ask.value in before then before else before + [ask.value]
  }

  function Threads(refs: seq<Ref>): seq<Id> {
    if refs == [] then []
    else Threads(refs[..|refs| - 1]) + if refs[|refs| - 1].AgentRef? then [refs[|refs| - 1].threadId] else []
  }

  function At(m: map<Id, nat>, id: Id): nat { if id in m then m[id] else 0 }

  function Bump(m: map<Id, nat>, id: Id): map<Id, nat> { m[id := At(m, id) + 1] }

  function BumpEach(m: map<Id, nat>, ids: seq<Id>): map<Id, nat> {
    if ids == [] then m else Bump(BumpEach(m, ids[..|ids| - 1]), ids[|ids| - 1])
  }

  function AssistantRow(s: State, row: Row): State
    requires Sound(s)
  {
    var near := Near(s, row.answers);
    var rejoined := Rejoined(s.asks, s.current, row.answers);
    var origins := OriginsAfter(s, row);
    var distant := Distant(row.refs, near);
    var quote := Quote(distant);
    s.(origins := origins,
       contexts := if quote.Some? then s.contexts[row.id := quote.value] else s.contexts,
       agents := BumpEach(s.agents, Threads(distant)),
       messages := BumpEach(s.messages, Counted(distant, origins)),
       sets := seq(|s.sets|, i requires 0 <= i < |s.sets| =>
                 if i == s.current then near + RowKeys(row) else if i in rejoined then s.sets[i] + RowKeys(row)
                   else s.sets[i]))
  }

  function Step(s: State, row: Row): State
    requires Sound(s)
  {
    if row.hidden then s else if row.user then UserRow(s, row) else AssistantRow(s, row)
  }

  lemma {:induction false} SetEachValues<V>(m: map<Id, V>, ids: seq<Id>, v: V)
    ensures forall id :: id in SetEach(m, ids, v) <==> id in m || id in ids
    ensures forall id :: id in SetEach(m, ids, v) ==> SetEach(m, ids, v)[id] == if id in ids then v else m[id]
    decreases |ids|
  {
    if ids != [] {
      var n := |ids| - 1;
      SetEachValues(m, ids[..n], v);
      assert ids[..n] + [ids[n]] == ids;
    }
  }

  lemma {:induction false} StepSound(s: State, row: Row)
    requires Sound(s)
    ensures Sound(Step(s, row))
  {
    if !row.hidden && row.user {
      var at: nat := |s.sets|;
      SetEachValues<nat>(s.asks[row.id := at], row.aliasIds, at);
    }
  }

  function Project(rows: seq<Row>): (s: State)
    ensures Sound(s)
    decreases |rows|
  {
    if rows == [] then Empty
    else
      StepSound(Project(rows[..|rows| - 1]), rows[|rows| - 1]);
      Step(Project(rows[..|rows| - 1]), rows[|rows| - 1])
  }
}
