/**
 * What the projection means: which earlier rows are near a reply, that only
 * what lies outside is quoted or counted, and what the counts count.
 */
module ReplyProperties {
  import opened Options
  import opened ReplySpec
  import opened ReplyRows

  /** The exchanges the row after `rows` writes itself into. */
  ghost predicate Belongs(rows: seq<Row>, row: Row, e: nat) {
    (Ask(row) && e == AskCount(rows) + 1)
    || (Reply(row) && (e == AskCount(rows) || GoesBack(rows, row.answers, e)))
  }

  /**
   * Row `k` is part of exchange `e`: it was written there, or it is part of an
   * earlier exchange that a reply in `e` went back to.
   */
  ghost predicate Part(rows: seq<Row>, k: nat, e: nat)
    decreases |rows|
  {
    k < |rows| &&
    var before, row := rows[..|rows| - 1], rows[|rows| - 1];
    if k == |rows| - 1 then Belongs(before, row, e)
    else
      Part(before, k, e)
      || (Reply(row) && e == AskCount(before) && exists j :: GoesBack(before, row.answers, j) && Part(before, k, j))
  }

  ghost predicate Holds(rows: seq<Row>, e: nat, key: Key) {
    exists k :: 0 <= k < |rows| && Part(rows, k, e) && key in RowKeys(rows[k])
  }

  lemma {:induction false} UnionMeans(sets: seq<set<Key>>, which: seq<nat>, key: Key)
    requires forall i :: 0 <= i < |which| ==> which[i] < |sets|
    ensures key in UnionOf(sets, which) <==> exists i :: 0 <= i < |which| && key in sets[which[i]]
    decreases |which|
  {
    if which != [] {
      var n := |which| - 1;
      UnionMeans(sets, which[..n], key);
      assert forall i :: 0 <= i < n ==> which[..n][i] == which[i];
    }
  }

  /** Writing the last row: what it adds, and what it carries over. */
  lemma {:induction false} HoldsGrows(before: seq<Row>, row: Row, e: nat, key: Key)
    ensures Holds(before + [row], e, key) <==>
            Holds(before, e, key)
            || (Belongs(before, row, e) && key in RowKeys(row))
            || (Reply(row) && e == AskCount(before)
                && exists j :: GoesBack(before, row.answers, j) && Holds(before, j, key))
  {
    hide Belongs, RowKeys, AskCount, GoesBack;
    var rows := before + [row];
    assert rows[..|rows| - 1] == before;
    assert forall k :: 0 <= k < |before| ==> rows[k] == before[k];
    forall k, j | 0 <= k < |before| && Part(before, k, j) && key in RowKeys(before[k]) ensures Holds(before, j, key) {}
    forall k, d: nat | 0 <= k < |before| && Part(rows, k, d) && key in RowKeys(rows[k]) ensures Holds(rows, d, key) {}
    assert rows[|before|] == row;
    assert Part(rows, |before|, e) == Belongs(before, row, e);
    if Holds(before, e, key) {
      var k :| 0 <= k < |before| && Part(before, k, e) && key in RowKeys(before[k]);
      assert Part(rows, k, e);
    }
    if Reply(row) && e == AskCount(before) && exists j :: GoesBack(before, row.answers, j) && Holds(before, j, key) {
      var j :| GoesBack(before, row.answers, j) && Holds(before, j, key);
      var k :| 0 <= k < |before| && Part(before, k, j) && key in RowKeys(before[k]);
      assert Part(rows, k, e);
    }
  }

  lemma {:induction false} SetGrows(s: State, row: Row, e: nat, key: Key)
    requires Sound(s) && Reply(row) && e < |s.sets|
    ensures var which := Rejoined(s.asks, s.current, row.answers);
            key in AssistantRow(s, row).sets[e] <==>
            key in s.sets[e] || ((e == s.current || e in which) && key in RowKeys(row))
            || (e == s.current && exists j: nat :: j in which && j < |s.sets| && key in s.sets[j])
  {
    hide RowKeys, Rejoined, BumpEach, Counted, Threads, Distant, Quote, OriginsAfter;
    var which := Rejoined(s.asks, s.current, row.answers);
    RejoinedInRange(s, row.answers);
    UnionMeans(s.sets, which, key);
    if key in UnionOf(s.sets, which) {
      var i :| 0 <= i < |which| && key in s.sets[which[i]];
      assert which[i] in which && which[i] < |s.sets|;
    }
    if j: nat :| j in which && j < |s.sets| && key in s.sets[j] {
      var i :| 0 <= i < |which| && which[i] == j;
    }
  }

  /** An exchange holds exactly the keys of the rows that are part of it. */
  lemma {:induction false} ExchangeMeans(rows: seq<Row>, e: nat, key: Key)
    ensures |Project(rows).sets| == AskCount(rows) + 1 && Project(rows).current == AskCount(rows)
    ensures e <= AskCount(rows) ==> (key in Project(rows).sets[e] <==> Holds(rows, e, key))
    decreases |rows|
  {
    assert !Holds([], e, key);
    AsksMean(rows, []);
    if e > AskCount(rows) { return; }
    hide RowKeys, Rejoined, AssistantRow, Holds, GoesBack;
    if rows != [] {
      var before, row := rows[..|rows| - 1], rows[|rows| - 1];
      var s := Project(before);
      assert before + [row] == rows;
      HoldsGrows(before, row, e, key);
      ExchangeMeans(before, e, key);
      if Reply(row) {
        var which := Rejoined(s.asks, s.current, row.answers);
        RejoinedInRange(s, row.answers);
        forall j: nat ensures j in which <==> j != AskCount(before) && GoesBack(before, row.answers, j) {
          RejoinedMeans(before, row.answers, j);
        }
        forall j: nat | GoesBack(before, row.answers, j)
          ensures j < |s.sets| && (key in s.sets[j] <==> Holds(before, j, key))
        {
          BackInRange(before, row.answers, j);
          ExchangeMeans(before, j, key);
        }
        SetGrows(s, row, e, key);
      } else if e == |s.sets| {
        NotYet(before, e, key);
      }
    }
  }

  lemma {:induction false} BackInRange(rows: seq<Row>, answers: seq<Id>, e: nat)
    requires GoesBack(rows, answers, e)
    ensures e <= AskCount(rows)
  {
    hide Project;
    var a :| a in answers && ExchangeOf(rows, a) == Some(e);
    ExchangeInRange(rows, a);
  }

  lemma {:induction false} ExchangeInRange(rows: seq<Row>, id: Id)
    ensures ExchangeOf(rows, id).Some? ==> ExchangeOf(rows, id).value <= AskCount(rows)
    decreases |rows|
  {
    if rows != [] { ExchangeInRange(rows[..|rows| - 1], id); }
  }

  lemma {:induction false} PartInRange(rows: seq<Row>, k: nat, e: nat)
    requires Part(rows, k, e)
    ensures e <= AskCount(rows)
    decreases |rows|
  {
    hide GoesBack;
    var before, row := rows[..|rows| - 1], rows[|rows| - 1];
    if k == |rows| - 1 {
      if Reply(row) && e != AskCount(before) { BackInRange(before, row.answers, e); }
    } else if Part(before, k, e) {
      PartInRange(before, k, e);
    }
  }

  lemma {:induction false} NotYet(rows: seq<Row>, e: nat, key: Key)
    requires e > AskCount(rows)
    ensures !Holds(rows, e, key)
  {
    if Holds(rows, e, key) {
      var k :| 0 <= k < |rows| && Part(rows, k, e) && key in RowKeys(rows[k]);
      PartInRange(rows, k, e);
      assert false;
    }
  }

  /** Row `k` is near the reply after `rows`: part of the current exchange or of one the reply goes back to. */
  ghost predicate NearRow(rows: seq<Row>, reply: Row, k: nat) {
    k < |rows| && (Part(rows, k, AskCount(rows)) || exists j :: GoesBack(rows, reply.answers, j) && Part(rows, k, j))
  }

  lemma {:induction false} NearMeans(rows: seq<Row>, reply: Row, key: Key)
    ensures key in Near(Project(rows), reply.answers) <==>
            exists k :: 0 <= k < |rows| && NearRow(rows, reply, k) && key in RowKeys(rows[k])
  {
    hide RowKeys, Rejoined, Project, Part, GoesBack, AskCount;
    var s := Project(rows);
    var which := Rejoined(s.asks, s.current, reply.answers);
    RejoinedInRange(s, reply.answers);
    UnionMeans(s.sets, which, key);
    ExchangeMeans(rows, AskCount(rows), key);
    forall j: nat ensures j in which <==> j != AskCount(rows) && GoesBack(rows, reply.answers, j) {
      RejoinedMeans(rows, reply.answers, j);
    }
    forall i | 0 <= i < |which| ensures which[i] in which && (key in s.sets[which[i]] <==> Holds(rows, which[i], key)) {
      BackInRange(rows, reply.answers, which[i]);
      ExchangeMeans(rows, which[i], key);
    }
    if k :| 0 <= k < |rows| && NearRow(rows, reply, k) && key in RowKeys(rows[k]) {
      if !Part(rows, k, AskCount(rows)) {
        var j :| GoesBack(rows, reply.answers, j) && Part(rows, k, j);
        assert j in which;
        var i :| 0 <= i < |which| && which[i] == j;
        assert Holds(rows, j, key);
      } else {
        assert Holds(rows, AskCount(rows), key);
      }
    }
    if key in s.sets[s.current] {
      var k :| 0 <= k < |rows| && Part(rows, k, AskCount(rows)) && key in RowKeys(rows[k]);
      assert NearRow(rows, reply, k);
    } else if key in UnionOf(s.sets, which) {
      var i :| 0 <= i < |which| && key in s.sets[which[i]];
      var k :| 0 <= k < |rows| && Part(rows, k, which[i]) && key in RowKeys(rows[k]);
      assert GoesBack(rows, reply.answers, which[i]);
      assert NearRow(rows, reply, k);
    }
  }

  /** Everything visible since the last visible user message is near. */
  lemma {:induction false} SinceLastAskIsNear(rows: seq<Row>, reply: Row, k: nat)
    requires k < |rows| && !rows[k].hidden && forall i :: k < i < |rows| ==> !Ask(rows[i])
    ensures NearRow(rows, reply, k)
  {
    PartSince(rows, k);
  }

  lemma {:induction false} PartSince(rows: seq<Row>, k: nat)
    requires k < |rows| && !rows[k].hidden && forall i :: k < i < |rows| ==> !Ask(rows[i])
    ensures Part(rows, k, AskCount(rows))
    decreases |rows|
  {
    hide GoesBack;
    if k < |rows| - 1 { PartSince(rows[..|rows| - 1], k); }
  }

  // ------------------------------------------------------------ quoted, counted

  ghost predicate Outside(rows: seq<Row>, reply: Row, r: Ref) {
    forall k :: 0 <= k < |rows| && NearRow(rows, reply, k) ==> KeyOf(r) !in RowKeys(rows[k])
  }

  lemma {:induction false} DistantMeans(refs: seq<Ref>, near: set<Key>, r: Ref)
    ensures r in Distant(refs, near) <==> r in refs && KeyOf(r) !in near
    decreases |refs|
  {
    if refs != [] {
      DistantMeans(refs[..|refs| - 1], near, r);
      assert refs == refs[..|refs| - 1] + [refs[|refs| - 1]];
    }
  }

  lemma {:induction false} DistantIsOutside(rows: seq<Row>, reply: Row, r: Ref)
    ensures r in Distant(reply.refs, Near(Project(rows), reply.answers)) <==> r in reply.refs && Outside(rows, reply, r)
  {
    hide RowKeys, Project, Near, NearRow;
    DistantMeans(reply.refs, Near(Project(rows), reply.answers), r);
    NearMeans(rows, reply, KeyOf(r));
  }

  lemma {:induction false} AgentsMeans(refs: seq<Ref>, r: Ref)
    ensures r in Agents(refs) <==> r in refs && r.AgentRef?
    decreases |refs|
  {
    if refs != [] {
      AgentsMeans(refs[..|refs| - 1], r);
      assert refs == refs[..|refs| - 1] + [refs[|refs| - 1]];
    }
  }

  lemma {:induction false} FirstDistant(refs: seq<Ref>, near: set<Key>)
    ensures var d := Distant(refs, near);
            d != [] ==> exists i :: 0 <= i < |refs| && refs[i] == d[0] && KeyOf(d[0]) !in near
                                    && forall k :: 0 <= k < i ==> KeyOf(refs[k]) in near
    decreases |refs|
  {
    if refs != [] {
      var n := |refs| - 1;
      FirstDistant(refs[..n], near);
      DistantMeans(refs[..n], near, refs[n]);
      if Distant(refs[..n], near) != [] {
        var i :| 0 <= i < n && refs[..n][i] == Distant(refs[..n], near)[0]
                 && forall k :: 0 <= k < i ==> KeyOf(refs[..n][k]) in near;
        assert refs[i] == refs[..n][i] && forall k :: 0 <= k < i ==> refs[..n][k] == refs[k];
      } else {
        NoneDistant(refs[..n], near);
        assert forall k :: 0 <= k < n ==> refs[..n][k] == refs[k];
      }
    }
  }

  lemma {:induction false} NoneDistant(refs: seq<Ref>, near: set<Key>)
    requires Distant(refs, near) == []
    ensures forall k :: 0 <= k < |refs| ==> KeyOf(refs[k]) in near
    decreases |refs|
  {
    if refs != [] { NoneDistant(refs[..|refs| - 1], near); }
  }

  lemma {:induction false} AgentsMore(d: seq<Ref>, r: Ref)
    ensures Agents(d + [r]) == Agents(d) + if r.AgentRef? then [r] else []
  {
    assert (d + [r])[..|d|] == d;
  }

  lemma {:induction false} FirstAgent(refs: seq<Ref>, near: set<Key>)
    ensures var a := Agents(Distant(refs, near));
            a != [] ==> exists i :: 0 <= i < |refs| && refs[i] == a[0] && KeyOf(a[0]) !in near
                                    && forall k :: 0 <= k < i ==> KeyOf(refs[k]) in near || refs[k].MessageRef?
    decreases |refs|
  {
    assert Agents([]) == [];
    hide Agents, KeyOf;
    if refs != [] {
      var n := |refs| - 1;
      var front, last := refs[..n], refs[n];
      FirstAgent(front, near);
      var d := Distant(front, near);
      assert d + [] == d && Agents(d) + [] == Agents(d);
      AgentsMore(d, last);
      assert forall k :: 0 <= k < n ==> front[k] == refs[k];
      if Agents(d) != [] {
        var i :| 0 <= i < n && front[i] == Agents(d)[0] && KeyOf(Agents(d)[0]) !in near
                 && forall k :: 0 <= k < i ==> KeyOf(front[k]) in near || front[k].MessageRef?;
        assert refs[i] == Agents(Distant(refs, near))[0];
      } else {
        NoAgents(front, near);
      }
    }
  }

  lemma {:induction false} NoAgents(refs: seq<Ref>, near: set<Key>)
    requires Agents(Distant(refs, near)) == []
    ensures forall k :: 0 <= k < |refs| ==> KeyOf(refs[k]) in near || refs[k].MessageRef?
    decreases |refs|
  {
    if refs != [] {
      var n := |refs| - 1;
      var d := Distant(refs[..n], near);
      assert d + [] == d && (d + [refs[n]])[..|d|] == d;
      assert Agents(d) + [] == Agents(d);
      NoAgents(refs[..n], near);
    }
  }

  /**
   * Nothing near is quoted; something is quoted as soon as one reference
   * reaches outside; it is the first that does, but the first task that does
   * comes before any message.
   */
  lemma {:induction false} QuotesOutside(rows: seq<Row>, reply: Row)
    requires Reply(reply)
    ensures var quote := Quote(Distant(reply.refs, Near(Project(rows), reply.answers)));
            Project(rows + [reply]).contexts
              == (if quote.Some? then Project(rows).contexts[reply.id := quote.value] else Project(rows).contexts)
            && (quote.Some? ==> quote.value in reply.refs && Outside(rows, reply, quote.value))
            && (quote.None? <==> forall r :: r in reply.refs ==> !Outside(rows, reply, r))
            && (quote.Some? && quote.value.MessageRef?
                ==> forall r :: r in reply.refs && r.AgentRef? ==> !Outside(rows, reply, r))
            && (quote.Some? ==>
                  exists i :: 0 <= i < |reply.refs| && reply.refs[i] == quote.value
                    && forall k :: 0 <= k < i ==>
                         !Outside(rows, reply, reply.refs[k]) || (quote.value.AgentRef? && reply.refs[k].MessageRef?))
  {
    hide RowKeys, Near, NearRow, Rejoined, BumpEach, Counted, Threads, OriginsAfter, Outside, Distant, Agents;
    assert (rows + [reply])[..|rows|] == rows;
    var distant := Distant(reply.refs, Near(Project(rows), reply.answers));
    forall r: Ref ensures r in distant <==> r in reply.refs && Outside(rows, reply, r) {
      DistantIsOutside(rows, reply, r);
    }
    forall r: Ref ensures r in Agents(distant) <==> r in distant && r.AgentRef? { AgentsMeans(distant, r); }
    if Agents(distant) != [] { assert Agents(distant)[0] in Agents(distant); }
    if distant != [] { assert distant[0] in distant; }
    var near := Near(Project(rows), reply.answers);
    FirstDistant(reply.refs, near);
    FirstAgent(reply.refs, near);
    forall k | 0 <= k < |reply.refs| ensures KeyOf(reply.refs[k]) in near <==> !Outside(rows, reply, reply.refs[k]) {
      DistantMeans(reply.refs, near, reply.refs[k]);
    }
  }

  /** The ask a reference of the reply after `rows` is to: the message itself, or where the task came from. */
  ghost function CitedAsk(rows: seq<Row>, reply: Row, r: Ref): Option<Id> {
    if r.MessageRef? then Some(r.id)
    else if OriginOf(rows + [reply], r.threadId) == Some([]) then None
    else OriginOf(rows + [reply], r.threadId)
  }

  lemma {:induction false} CitedMeans(rows: seq<Row>, reply: Row, r: Ref)
    requires Reply(reply)
    ensures AskOf(r, OriginsAfter(Project(rows), reply)) == CitedAsk(rows, reply, r)
  {
    hide Project, OriginsAfter, OriginOf;
    if r.AgentRef? {
      OriginsMean(rows, r.threadId);
      OriginsAfterMean(rows, reply, r.threadId);
    }
  }

  /** A reply counts for an ask when one of its outside references is to that ask or to a task from it. */
  ghost predicate CountsFor(rows: seq<Row>, reply: Row, ask: Id) {
    Reply(reply) && exists r :: r in reply.refs && Outside(rows, reply, r) && CitedAsk(rows, reply, r) == Some(ask)
  }

  ghost function RepliesTo(rows: seq<Row>, ask: Id): nat {
    if rows == [] then 0
    else
      var before, row := rows[..|rows| - 1], rows[|rows| - 1];
      RepliesTo(before, ask) + if CountsFor(before, row, ask) then 1 else 0
  }

  ghost predicate Distinct(ids: seq<Id>) { forall i, j :: 0 <= i < j < |ids| ==> ids[i] != ids[j] }

  lemma {:induction false} CountedMeans(distant: seq<Ref>, origins: map<Id, Id>, ask: Id)
    ensures Distinct(Counted(distant, origins))
    ensures ask in Counted(distant, origins) <==> exists r :: r in distant && AskOf(r, origins) == Some(ask)
    decreases |distant|
  {
    hide AskOf;
    if distant != [] {
      var n := |distant| - 1;
      CountedMeans(distant[..n], origins, ask);
      assert distant == distant[..n] + [distant[n]];
      var last := AskOf(distant[n], origins);
      if last.Some? && last.value in Counted(distant[..n], origins) && last.value != ask {
        assert ask in Counted(distant, origins) <==> ask in Counted(distant[..n], origins);
      }
    }
  }

  lemma {:induction false} BumpMeans(m: map<Id, nat>, ids: seq<Id>, id: Id)
    requires Distinct(ids)
    ensures At(BumpEach(m, ids), id) == At(m, id) + if id in ids then 1 else 0
    decreases |ids|
  {
    if ids != [] {
      var n := |ids| - 1;
      BumpMeans(m, ids[..n], id);
      assert ids == ids[..n] + [ids[n]];
    }
  }

  /** The "N replies" badge is the number of replies that count for the ask, each of them once. */
  lemma {:induction false} CountsAreReplies(rows: seq<Row>, ask: Id)
    ensures At(Project(rows).messages, ask) == RepliesTo(rows, ask)
    decreases |rows|
  {
    hide RowKeys, Near, NearRow, Rejoined, BumpEach, Counted, Threads, OriginsAfter,
         Outside, Distant, Quote, SetEach, AskOf, At, CitedAsk;
    if rows == [] {
      NoCounts(ask);
    } else {
      var before, row := rows[..|rows| - 1], rows[|rows| - 1];
      CountsAreReplies(before, ask);
      if Reply(row) {
        var s := Project(before);
        var distant := Distant(row.refs, Near(s, row.answers));
        var origins := OriginsAfter(s, row);
        CountedMeans(distant, origins, ask);
        BumpMeans(s.messages, Counted(distant, origins), ask);
        forall r: Ref
          ensures r in distant <==> r in row.refs && Outside(before, row, r)
          ensures AskOf(r, origins) == CitedAsk(before, row, r)
        {
          DistantIsOutside(before, row, r);
          CitedMeans(before, row, r);
        }
      }
    }
  }

  lemma {:induction false} NoCounts(id: Id)
    ensures At(Project([]).messages, id) == 0 && At(Project([]).agents, id) == 0
  {
  }

  ghost function Times(refs: seq<Ref>, rows: seq<Row>, reply: Row, thread: Id): nat {
    if refs == [] then 0
    else
      var r := refs[|refs| - 1];
      Times(refs[..|refs| - 1], rows, reply, thread) + if r == AgentRef(thread) && Outside(rows, reply, r) then 1 else 0
  }

  /** A task's count is the number of citations of it from outside its exchange. */
  ghost function Citations(rows: seq<Row>, thread: Id): nat {
    if rows == [] then 0
    else
      var before, row := rows[..|rows| - 1], rows[|rows| - 1];
      Citations(before, thread) + if Reply(row) then Times(row.refs, before, row, thread) else 0
  }

  lemma {:induction false} ThreadBumps(m: map<Id, nat>, refs: seq<Ref>, rows: seq<Row>, reply: Row, thread: Id)
    ensures At(BumpEach(m, Threads(Distant(refs, Near(Project(rows), reply.answers)))), thread)
         == At(m, thread) + Times(refs, rows, reply, thread)
    decreases |refs|
  {
    hide Near, Project, NearRow, RowKeys, BumpEach, Threads, At;
    var near := Near(Project(rows), reply.answers);
    if refs == [] {
      OneThreadMore(m, [], MessageRef([]), thread);
    } else {
      var n := |refs| - 1;
      var d, r := Distant(refs[..n], near), refs[n];
      ThreadBumps(m, refs[..n], rows, reply, thread);
      NearMeans(rows, reply, KeyOf(r));
      assert d + [] == d;
      OneThreadMore(m, d, r, thread);
    }
  }

  lemma {:induction false} OneThreadMore(m: map<Id, nat>, d: seq<Ref>, r: Ref, thread: Id)
    ensures BumpEach(m, Threads([])) == m
    ensures At(BumpEach(m, Threads(d + [r])), thread)
         == At(BumpEach(m, Threads(d)), thread) + if r == AgentRef(thread) then 1 else 0
  {
    var t := Threads(d);
    assert (d + [r])[..|d|] == d;
    if r.AgentRef? {
      assert (t + [r.threadId])[..|t|] == t;
    } else {
      assert t + [] == t;
    }
  }

  lemma {:induction false} TaskCountsAreCitations(rows: seq<Row>, thread: Id)
    ensures At(Project(rows).agents, thread) == Citations(rows, thread)
    decreases |rows|
  {
    hide RowKeys, Near, NearRow, Rejoined, BumpEach, Counted, Threads, OriginsAfter,
         Outside, Distant, Quote, SetEach, At, Times;
    if rows == [] {
      NoCounts(thread);
    } else {
      var before, row := rows[..|rows| - 1], rows[|rows| - 1];
      TaskCountsAreCitations(before, thread);
      if Reply(row) { ThreadBumps(Project(before).agents, row.refs, before, row, thread); }
    }
  }

  // ----------------------------------------------------------------- hidden rows

  function Shown(rows: seq<Row>): seq<Row> {
    if rows == [] then []
    else Shown(rows[..|rows| - 1]) + if rows[|rows| - 1].hidden then [] else [rows[|rows| - 1]]
  }

  /** A hidden row changes nothing: it quotes, counts and starts nothing. */
  lemma {:induction false} HiddenRowsDrop(rows: seq<Row>)
    ensures Project(rows) == Project(Shown(rows))
    decreases |rows|
  {
    hide UserRow, AssistantRow;
    if rows != [] {
      var before, row := rows[..|rows| - 1], rows[|rows| - 1];
      HiddenRowsDrop(before);
      assert Shown(before) + [] == Shown(before);
      assert (Shown(before) + [row])[..|Shown(before)|] == Shown(before);
    }
  }
}
