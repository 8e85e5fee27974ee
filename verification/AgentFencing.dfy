/** Lifecycle cards can arrive in any order: which agents may be left running. */
module AgentFencing {
  import opened Options
  import opened AgentActivity

  /** Lifecycle cards, whose attempts are numbered from one. */
  ghost predicate Cards(rows: seq<Row>) {
    forall r :: r in rows ==> r.Card? && r.generation >= 1
  }

  ghost predicate Starts(rows: seq<Row>, id: string, g: nat) {
    exists r :: r in rows && r.Card? && r.agentId == id && r.generation == g && r.event.Started?
  }

  ghost predicate StartsTitled(rows: seq<Row>, id: string, g: nat) {
    exists r :: r in rows && r.Card? && r.agentId == id && r.generation == g && r.event.Started?
                && r.event.description != ""
  }

  ghost predicate Ends(rows: seq<Row>, id: string, g: nat) {
    exists r :: r in rows && r.Card? && r.agentId == id && r.generation == g && r.event.Ended?
                && r.event.status != Running
  }

  /** Terminal cards carry a terminal status. */
  ghost predicate Terminal(rows: seq<Row>) {
    forall r :: r in rows && r.Card? && r.event.Ended? ==> r.event.status != Running
  }

  ghost function FoldCards(rows: seq<Row>): State { FoldRows(EMPTY, rows, map[]) }

  /** What the cards seen so far say about one agent's entry and fences. */
  ghost predicate Fenced(rows: seq<Row>, s: State, id: string) {
    && (forall g: nat :: Ends(rows, id, g) ==> g <= Get(s.settled, id))
    && (id in s.generations ==> Starts(rows, id, s.generations[id]))
    && (id in s.entries ==>
          && s.entries[id].title != ""
          && id in s.generations
          && exists g: nat :: g <= s.generations[id] && StartsTitled(rows, id, g))
    && (IsRunning(s, id) ==>
          && s.entries[id].attemptGeneration == Some(s.generations[id])
          && !Ends(rows, id, s.generations[id]))
  }

  /** A card changes nothing about an agent it does not name. */
  lemma {:induction false} OtherAgent(s: State, row: Row, id: string)
    requires row.Card? && row.agentId != id
    ensures var t := FoldCard(s, row);
            && (id in t.entries <==> id in s.entries) && (id in s.entries ==> t.entries[id] == s.entries[id])
            && (id in t.generations <==> id in s.generations)
            && Get(t.generations, id) == Get(s.generations, id)
            && Get(t.settled, id) == Get(s.settled, id)
  {
  }

  lemma {:induction false} Extend(before: seq<Row>, row: Row, id: string, g: nat)
    requires row.Card?
    ensures var rows := before + [row]; var own := row.agentId == id && row.generation == g;
            && (Starts(rows, id, g) <==> Starts(before, id, g) || (own && row.event.Started?))
            && (StartsTitled(rows, id, g) <==>
                StartsTitled(before, id, g) || (own && row.event.Started? && row.event.description != ""))
            && (Ends(rows, id, g) <==> Ends(before, id, g) || (own && row.event.Ended? && row.event.status != Running))
  {
    var rows := before + [row];
    assert forall r :: r in rows <==> r in before || r == row;
    assert row in rows;
  }

  lemma {:induction false} ExtendAll(before: seq<Row>, row: Row, id: string)
    requires row.Card?
    ensures var rows := before + [row];
            && (forall g: nat :: Starts(before, id, g) ==> Starts(rows, id, g))
            && (forall g: nat :: StartsTitled(before, id, g) ==> StartsTitled(rows, id, g))
            && (forall g: nat :: Ends(before, id, g) ==> Ends(rows, id, g))
            && (forall g: nat :: Ends(rows, id, g) ==>
                  Ends(before, id, g) || (row.agentId == id && row.generation == g && row.event.Ended?))
  {
    hide Starts, StartsTitled, Ends;
    forall g: nat
      ensures Starts(before, id, g) ==> Starts(before + [row], id, g)
      ensures StartsTitled(before, id, g) ==> StartsTitled(before + [row], id, g)
      ensures Ends(before, id, g) ==> Ends(before + [row], id, g)
      ensures Ends(before + [row], id, g) ==>
                Ends(before, id, g) || (row.agentId == id && row.generation == g && row.event.Ended?)
    {
      Extend(before, row, id, g);
    }
  }

  lemma {:induction false} FencedOther(before: seq<Row>, s: State, row: Row, id: string)
    requires Fenced(before, s, id) && row.Card? && row.agentId != id
    ensures Fenced(before + [row], FoldCard(s, row), id)
  {
    hide Starts, StartsTitled, Ends, FoldCard;
    OtherAgent(s, row, id);
    ExtendAll(before, row, id);
  }

  lemma {:induction false} FencedStart(before: seq<Row>, s: State, row: Row, id: string)
    requires Fenced(before, s, id) && row.Card? && row.agentId == id && row.event.Started?
    ensures Fenced(before + [row], FoldCard(s, row), id)
  {
    hide Starts, StartsTitled, Ends;
    ExtendAll(before, row, id);
    Extend(before, row, id, row.generation);
  }

  lemma {:induction false} FencedLater(before: seq<Row>, s: State, row: Row, id: string)
    requires Fenced(before, s, id) && row.Card? && row.agentId == id && row.generation >= 1 && !row.event.Started?
    requires row.event.Ended? ==> row.event.status != Running
    ensures Fenced(before + [row], FoldCard(s, row), id)
  {
    hide Starts, StartsTitled, Ends;
    ExtendAll(before, row, id);
    Extend(before, row, id, Get(s.generations, id));
  }

  lemma {:induction false} FencedStep(before: seq<Row>, s: State, row: Row, id: string)
    requires Fenced(before, s, id) && row.Card? && row.generation >= 1
    requires row.event.Ended? ==> row.event.status != Running
    ensures Fenced(before + [row], FoldCard(s, row), id)
  {
    hide Fenced, FoldCard;
    if row.agentId != id { FencedOther(before, s, row, id); }
    else if row.event.Started? { FencedStart(before, s, row, id); }
    else { FencedLater(before, s, row, id); }
  }

  lemma {:induction false} FoldFenced(rows: seq<Row>, id: string)
    requires Cards(rows) && Terminal(rows)
    ensures Fenced(rows, FoldCards(rows), id)
    decreases |rows|
  {
    if rows != [] {
      var n := |rows| - 1;
      assert forall r :: r in rows[..n] ==> r in rows;
      FoldFenced(rows[..n], id);
      FencedStep(rows[..n], FoldCards(rows[..n]), rows[n], id);
      assert rows[..n] + [rows[n]] == rows;
    }
  }

  /**
   * Whatever the order, an agent is left running only at an attempt that was
   * started and has no terminal card; so one whose every started attempt has
   * its terminal card somewhere is never left running.
   */
  lemma {:induction false} SettledNeverRuns(rows: seq<Row>, id: string)
    requires Cards(rows) && Terminal(rows)
    requires forall g: nat :: Starts(rows, id, g) ==> Ends(rows, id, g)
    ensures !IsRunning(FoldCards(rows), id)
  {
    FoldFenced(rows, id);
  }

  /** Once the newest start is in, nothing moves the agent off that attempt. */
  ghost predicate AtNewest(rows: seq<Row>, s: State, id: string, newest: nat) {
    && (Starts(rows, id, newest) ==> Get(s.generations, id) == newest && id in s.generations)
    && (StartsTitled(rows, id, newest) ==> IsRunning(s, id) && s.entries[id].attemptGeneration == Some(newest))
  }

  ghost predicate Outranks(rows: seq<Row>, id: string, newest: nat) {
    && (forall g: nat :: Starts(rows, id, g) ==> g <= newest)
    && (forall g: nat :: Ends(rows, id, g) ==> g < newest)
  }

  lemma {:induction false} SettledIsAnEnd(rows: seq<Row>, id: string)
    requires Cards(rows) && Terminal(rows)
    ensures var s := FoldCards(rows); Get(s.settled, id) == 0 || Ends(rows, id, Get(s.settled, id))
    decreases |rows|
  {
    hide Starts, StartsTitled, Ends;
    if rows != [] {
      var n := |rows| - 1;
      var before := rows[..n];
      assert forall r :: r in before ==> r in rows;
      SettledIsAnEnd(before, id);
      assert before + [rows[n]] == rows;
      Extend(before, rows[n], id, Get(FoldCards(before).settled, id));
      Extend(before, rows[n], id, rows[n].generation);
    }
  }

  lemma {:induction false} AtNewestStep(before: seq<Row>, s: State, row: Row, id: string, newest: nat)
    requires AtNewest(before, s, id, newest) && Fenced(before, s, id) && row.Card?
    requires Outranks(before + [row], id, newest) && Get(s.settled, id) < newest
    requires row.event.Ended? ==> row.event.status != Running
    ensures AtNewest(before + [row], FoldCard(s, row), id, newest)
  {
    hide Starts, StartsTitled, Ends;
    Extend(before, row, id, newest);
    if row.agentId != id {
      OtherAgent(s, row, id);
    } else {
      Extend(before, row, id, row.generation);
      Extend(before, row, id, Get(s.generations, id));
    }
  }

  /**
   * An agent whose newest start is titled and outranks every terminal card is
   * left running at that attempt.
   */
  lemma {:induction false} NewestRuns(rows: seq<Row>, id: string, newest: nat)
    requires Cards(rows) && Terminal(rows) && Outranks(rows, id, newest) && newest >= 1
    ensures AtNewest(rows, FoldCards(rows), id, newest)
    decreases |rows|
  {
    if rows != [] {
      var n := |rows| - 1;
      var before := rows[..n];
      assert forall r :: r in before ==> r in rows;
      assert before + [rows[n]] == rows;
      OutranksPrefix(before, rows[n], id, newest);
      NewestRuns(before, id, newest);
      FoldFenced(before, id);
      SettledIsAnEnd(before, id);
      AtNewestStep(before, FoldCards(before), rows[n], id, newest);
    }
  }

  lemma {:induction false} OutranksPrefix(before: seq<Row>, row: Row, id: string, newest: nat)
    requires Outranks(before + [row], id, newest) && row.Card?
    ensures Outranks(before, id, newest)
  {
    hide Starts, Ends, StartsTitled;
    ExtendAll(before, row, id);
  }

  // ------------------------------------------------------- every arrival order

  ghost predicate Reordered(q: seq<Row>, rows: seq<Row>) { multiset(q) == multiset(rows) }

  lemma {:induction false} ReorderedFacts(q: seq<Row>, rows: seq<Row>, id: string)
    requires Reordered(q, rows)
    ensures Cards(q) == Cards(rows) && Terminal(q) == Terminal(rows)
    ensures forall g: nat :: Starts(q, id, g) == Starts(rows, id, g)
    ensures forall g: nat :: StartsTitled(q, id, g) == StartsTitled(rows, id, g)
    ensures forall g: nat :: Ends(q, id, g) == Ends(rows, id, g)
  {
    assert forall r :: r in q <==> r in multiset(q);
    assert forall r :: r in rows <==> r in multiset(rows);
    assert forall r :: r in q <==> r in rows;
  }

  lemma {:induction false} FoldConcat(s: State, a: seq<Row>, b: seq<Row>, calls: Calls)
    ensures FoldRows(s, a + b, calls) == FoldRows(FoldRows(s, a, calls), b, calls)
    decreases |b|
  {
    if b == [] {
      assert a + b == a;
    } else {
      var n := |b| - 1;
      assert (a + b)[..|a + b| - 1] == a + b[..n];
      FoldConcat(s, a, b[..n], calls);
    }
  }

  function RemoveAt(rows: seq<Row>, i: nat): seq<Row>
    requires i < |rows|
  {
    rows[..i] + rows[i + 1..]
  }

  lemma {:induction false} PullFront(rows: seq<Row>, i: nat)
    requires i < |rows|
    ensures Reordered([rows[i]] + RemoveAt(rows, i), rows)
  {
    assert rows == rows[..i] + [rows[i]] + rows[i + 1..];
  }

  predicate EndsAgent(row: Row, id: string) { row.Card? && row.agentId == id && row.event.Ended? }

  /** The agent's terminal cards first, the rest after them. */
  function EndsOf(rows: seq<Row>, id: string): seq<Row> {
    if rows == [] then []
    else (if EndsAgent(rows[0], id) then [rows[0]] else []) + EndsOf(rows[1..], id)
  }

  function RestOf(rows: seq<Row>, id: string): seq<Row> {
    if rows == [] then []
    else (if EndsAgent(rows[0], id) then [] else [rows[0]]) + RestOf(rows[1..], id)
  }

  lemma {:induction false} EndsFirst(rows: seq<Row>, id: string)
    ensures Reordered(EndsOf(rows, id) + RestOf(rows, id), rows)
    ensures forall r :: r in EndsOf(rows, id) ==> r in rows && EndsAgent(r, id)
    ensures forall r :: r in RestOf(rows, id) ==> r in rows && !EndsAgent(r, id)
    decreases |rows|
  {
    if rows != [] {
      EndsFirst(rows[1..], id);
      assert rows == [rows[0]] + rows[1..];
    }
  }

  /** Terminal cards of other attempts do not touch a running one. */
  lemma {:induction false} EndsPassBy(s: State, rows: seq<Row>, id: string, g: nat)
    requires IsRunning(s, id) && id in s.generations && s.generations[id] == g
    requires forall r :: r in rows ==> EndsAgent(r, id) && r.generation != g
    ensures IsRunning(FoldRows(s, rows, map[]), id)
    ensures var t := FoldRows(s, rows, map[]); id in t.generations && t.generations[id] == g
    decreases |rows|
  {
    hide FoldRow, IsRunning;
    if rows != [] {
      var n := |rows| - 1;
      assert rows[n] in rows;
      assert forall r :: r in rows[..n] ==> r in rows;
      EndsPassBy(s, rows[..n], id, g);
      EndPassesBy(FoldRows(s, rows[..n], map[]), rows[n], id, g);
    }
  }

  lemma {:induction false} EndPassesBy(s: State, row: Row, id: string, g: nat)
    requires IsRunning(s, id) && id in s.generations && s.generations[id] == g
             && EndsAgent(row, id) && row.generation != g
    ensures var t := FoldRow(s, row, map[]); IsRunning(t, id) && id in t.generations && t.generations[id] == g
  {
  }

  /** Nothing but its own terminal card stops a running agent. */
  lemma {:induction false} RestKeepsRunning(s: State, rows: seq<Row>, id: string)
    requires IsRunning(s, id)
    requires forall r :: r in rows ==> r.Card? && !EndsAgent(r, id)
    ensures IsRunning(FoldRows(s, rows, map[]), id)
    decreases |rows|
  {
    if rows != [] {
      var n := |rows| - 1;
      assert rows[n] in rows;
      assert forall r :: r in rows[..n] ==> r in rows;
      RestKeepsRunning(s, rows[..n], id);
    }
  }

  lemma {:induction false} FoldOne(s: State, row: Row)
    ensures FoldRows(s, [row], map[]) == FoldRow(s, row, map[])
  {
    assert [row][..0] == [];
  }

  /** Started rows up front, an agent running at `g`, and no terminal card of `g`: it stays running. */
  lemma {:induction false} HeadRuns(head: seq<Row>, rest: seq<Row>, id: string, g: nat)
    requires IsRunning(FoldCards(head), id) && id in FoldCards(head).generations
    requires FoldCards(head).generations[id] == g
    requires Cards(rest) && Terminal(rest) && !Ends(rest, id, g)
    ensures IsRunning(FoldCards(head + (EndsOf(rest, id) + RestOf(rest, id))), id)
  {
    hide FoldRows, FoldCard;
    EndsFirst(rest, id);
    var s := FoldCards(head);
    FoldConcat(EMPTY, head, EndsOf(rest, id) + RestOf(rest, id), map[]);
    FoldConcat(s, EndsOf(rest, id), RestOf(rest, id), map[]);
    EndsPassBy(s, EndsOf(rest, id), id, g);
    RestKeepsRunning(FoldRows(s, EndsOf(rest, id), map[]), RestOf(rest, id), id);
  }

  predicate StartsAgent(row: Row, id: string) { row.Card? && row.agentId == id && row.event.Started? }

  /** A titled start, and then a start of an attempt no lower, run at the latter. */
  lemma {:induction false} TwoStarts(first: Row, second: Row, id: string)
    requires StartsAgent(first, id) && StartsAgent(second, id) && first.event.description != ""
    requires 1 <= first.generation <= second.generation
    ensures var s := FoldCards([first]);
            IsRunning(s, id) && id in s.generations && s.generations[id] == first.generation
    ensures var s := FoldCards([first, second]);
            IsRunning(s, id) && id in s.generations && s.generations[id] == second.generation
  {
    FoldOne(EMPTY, first);
    assert [first, second][..1] == [first];
  }

  lemma {:induction false} OneThenRest(first: Row, rest: seq<Row>, id: string) returns (q: seq<Row>)
    requires StartsAgent(first, id) && first.event.description != "" && first.generation >= 1
    requires Cards(rest) && Terminal(rest) && !Ends(rest, id, first.generation)
    ensures Reordered(q, [first] + rest) && IsRunning(FoldCards(q), id)
  {
    hide FoldRows, FoldCard, Cards, Terminal, Ends;
    TwoStarts(first, first, id);
    EndsFirst(rest, id);
    q := [first] + (EndsOf(rest, id) + RestOf(rest, id));
    HeadRuns([first], rest, id, first.generation);
  }

  lemma {:induction false} TwoThenRest(first: Row, second: Row, rest: seq<Row>, id: string) returns (q: seq<Row>)
    requires StartsAgent(first, id) && StartsAgent(second, id) && first.event.description != ""
    requires 1 <= first.generation <= second.generation
    requires Cards(rest) && Terminal(rest) && !Ends(rest, id, second.generation)
    ensures Reordered(q, [first] + ([second] + rest)) && IsRunning(FoldCards(q), id)
  {
    hide FoldRows, FoldCard, Cards, Terminal, Ends;
    TwoStarts(first, second, id);
    EndsFirst(rest, id);
    q := [first, second] + (EndsOf(rest, id) + RestOf(rest, id));
    assert [first, second] == [first] + [second];
    HeadRuns([first, second], rest, id, second.generation);
  }

  lemma {:induction false} PullFrontFacts(rows: seq<Row>, i: nat, id: string, g: nat)
    requires i < |rows| && Cards(rows) && Terminal(rows) && !Ends(rows, id, g)
    ensures var rest := RemoveAt(rows, i);
            Reordered([rows[i]] + rest, rows) && Cards(rest) && Terminal(rest) && !Ends(rest, id, g)
  {
    PullFront(rows, i);
    assert forall r :: r in RemoveAt(rows, i) ==> r in rows;
  }

  /** Some order of the same cards leaves the agent running at attempt `g`. */
  lemma {:induction false} SomeOrderRuns(rows: seq<Row>, first: Row, second: Row, id: string) returns (q: seq<Row>)
    requires Cards(rows) && Terminal(rows) && first in rows && second in rows
    requires StartsAgent(first, id) && StartsAgent(second, id) && first.event.description != ""
    requires first.generation <= second.generation && !Ends(rows, id, second.generation)
    ensures Reordered(q, rows) && IsRunning(FoldCards(q), id)
  {
    assert first.generation >= 1;
    hide FoldRows, FoldCard, Cards, Terminal, Ends;
    var i :| 0 <= i < |rows| && rows[i] == first;
    var rest := RemoveAt(rows, i);
    PullFrontFacts(rows, i, id, second.generation);
    if first == second {
      q := OneThenRest(first, rest, id);
    } else {
      assert second in multiset([first] + rest);
      assert second in rest;
      var k :| 0 <= k < |rest| && rest[k] == second;
      PullFrontFacts(rest, k, id, second.generation);
      q := TwoThenRest(first, second, RemoveAt(rest, k), id);
    }
  }

  /**
   * Some arrival order leaves the agent running exactly when some started
   * attempt has no terminal card and a start no later than it has a title.
   */
  lemma {:induction false} LeftRunningInSomeOrderIff(rows: seq<Row>, id: string)
    requires Cards(rows) && Terminal(rows)
    ensures (exists q :: Reordered(q, rows) && IsRunning(FoldCards(q), id))
            <==> (exists g: nat, t: nat ::
                    Starts(rows, id, g) && !Ends(rows, id, g) && t <= g && StartsTitled(rows, id, t))
  {
    hide FoldRows, FoldCard, Reordered;
    if q :| Reordered(q, rows) && IsRunning(FoldCards(q), id) {
      ReorderedFacts(q, rows, id);
      FoldFenced(q, id);
      var g := FoldCards(q).generations[id];
      var t: nat :| t <= g && StartsTitled(q, id, t);
      assert Starts(rows, id, g) && !Ends(rows, id, g) && StartsTitled(rows, id, t);
    }
    if g: nat, t: nat :| Starts(rows, id, g) && !Ends(rows, id, g) && t <= g && StartsTitled(rows, id, t) {
      var second :| second in rows && StartsAgent(second, id) && second.generation == g;
      var first :| first in rows && StartsAgent(first, id) && first.generation == t && first.event.description != "";
      var q := SomeOrderRuns(rows, first, second, id);
    }
  }

  lemma {:induction false} ShutOutStep(s: State, r: Row, id: string, newest: nat)
    requires id !in s.entries && Get(s.generations, id) == newest && r.Card?
    requires StartsAgent(r, id) && r.generation >= newest ==> r.generation == newest && r.event.description == ""
    ensures var t := FoldCard(s, r); id !in t.entries && Get(t.generations, id) == newest
  {
    if r.agentId != id { OtherAgent(s, r, id); }
  }

  /** An untitled newest start shuts out every earlier attempt that has not begun. */
  lemma {:induction false} ShutOut(s: State, rows: seq<Row>, id: string, newest: nat)
    requires id !in s.entries && Get(s.generations, id) == newest
    requires forall r :: r in rows ==>
               r.Card?
               && (StartsAgent(r, id) && r.generation >= newest
                   ==> r.generation == newest && r.event.description == "")
    ensures var t := FoldRows(s, rows, map[]); id !in t.entries && Get(t.generations, id) == newest
    decreases |rows|
  {
    hide FoldCard;
    if rows != [] {
      var n := |rows| - 1;
      assert rows[n] in rows;
      assert forall r :: r in rows[..n] ==> r in rows;
      ShutOut(s, rows[..n], id, newest);
      ShutOutStep(FoldRows(s, rows[..n], map[]), rows[n], id, newest);
    }
  }

  ghost predicate RunsAt(s: State, id: string, g: nat) {
    IsRunning(s, id) && s.entries[id].attemptGeneration == Some(g)
  }

  /** The newest start first: untitled, it leaves no entry for the rest to build on. */
  lemma {:induction false} UntitledFirst(rows: seq<Row>, i: nat, id: string, newest: nat)
    requires i < |rows| && Cards(rows) && Outranks(rows, id, newest) && !StartsTitled(rows, id, newest)
    requires StartsAgent(rows[i], id) && rows[i].generation == newest
    ensures id !in FoldCards([rows[i]] + RemoveAt(rows, i)).entries
  {
    var rest := RemoveAt(rows, i);
    UntitledHead(rows, i, id, newest);
    forall r | r in rest
      ensures r.Card?
              && (StartsAgent(r, id) && r.generation >= newest ==> r.generation == newest && r.event.description == "")
    {
      assert r in rows;
      if StartsAgent(r, id) { assert Starts(rows, id, r.generation); }
    }
    hide FoldRows, FoldCard;
    FoldConcat(EMPTY, [rows[i]], rest, map[]);
    ShutOut(FoldCards([rows[i]]), rest, id, newest);
  }

  lemma {:induction false} UntitledHead(rows: seq<Row>, i: nat, id: string, newest: nat)
    requires i < |rows| && Cards(rows) && !StartsTitled(rows, id, newest)
    requires StartsAgent(rows[i], id) && rows[i].generation == newest
    ensures var s := FoldCards([rows[i]]); id !in s.entries && Get(s.generations, id) == newest
  {
    var head := rows[i];
    assert head in rows;
    assert head.event.description == "";
    FoldOne(EMPTY, head);
  }

  /**
   * When the newest start outranks every terminal card, every arrival order
   * leaves the agent running at it exactly when one of its start cards is
   * titled; when none is, some order leaves the agent no entry at all.
   */
  lemma {:induction false} NewestRunsInEveryOrderIff(rows: seq<Row>, id: string, newest: nat)
    requires Cards(rows) && Terminal(rows) && Outranks(rows, id, newest) && Starts(rows, id, newest)
    ensures (forall q :: Reordered(q, rows) ==> RunsAt(FoldCards(q), id, newest)) <==> StartsTitled(rows, id, newest)
    ensures !StartsTitled(rows, id, newest) ==> exists q :: Reordered(q, rows) && id !in FoldCards(q).entries
  {
    hide FoldRows, Reordered;
    if StartsTitled(rows, id, newest) {
      forall q | Reordered(q, rows) ensures RunsAt(FoldCards(q), id, newest) {
        ReorderedFacts(q, rows, id);
        assert newest >= 1;
        NewestRuns(q, id, newest);
      }
    } else {
      var first :| first in rows && StartsAgent(first, id) && first.generation == newest;
      var i :| 0 <= i < |rows| && rows[i] == first;
      PullFront(rows, i);
      UntitledFirst(rows, i, id, newest);
      assert !RunsAt(FoldCards([rows[i]] + RemoveAt(rows, i)), id, newest);
    }
  }
}
