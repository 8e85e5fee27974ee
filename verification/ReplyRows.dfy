/** What a conversation's rows say by themselves: which ask an id names, and which ask a task came from. */
module ReplyRows {
  import opened Options
  import opened ReplySpec

  predicate Reply(row: Row) { !row.hidden && !row.user }
  predicate Ask(row: Row) { !row.hidden && row.user }

  /** An ask goes by its own id and by every alias. */
  predicate KnownAs(row: Row, id: Id) { Ask(row) && (row.id == id || id in row.aliasIds) }

  /** Exchanges are numbered by their asks; 0 is what comes before the first. */
  function AskCount(rows: seq<Row>): nat {
    if rows == [] then 0 else AskCount(rows[..|rows| - 1]) + if Ask(rows[|rows| - 1]) then 1 else 0
  }

  /** The exchange of the latest ask known by an id. */
  function ExchangeOf(rows: seq<Row>, id: Id): Option<nat> {
    if rows == [] then None
    else if KnownAs(rows[|rows| - 1], id) then Some(AskCount(rows))
    else ExchangeOf(rows[..|rows| - 1], id)
  }

  function LastAsk(rows: seq<Row>): Option<Id> {
    if rows == [] then None
    else if Ask(rows[|rows| - 1]) then Some(rows[|rows| - 1].id)
    else LastAsk(rows[..|rows| - 1])
  }

  function FirstNamed(rows: seq<Row>, answers: seq<Id>): Option<Id> {
    if answers == [] then None
    else if ExchangeOf(rows, answers[0]).Some? then Some(answers[0])
    else FirstNamed(rows, answers[1..])
  }

  /** The ask a reply's tasks come from: the first it answers that is one, else the last one asked. */
  function Source(rows: seq<Row>, reply: Row): Option<Id> {
    var a := FirstNamed(rows, reply.answers);
    var o := if a.Some? then a else LastAsk(rows);
    if o == Some([]) then None else o
  }

  /** The ask a task came from: that of the last visible row that owns it. */
  function OriginOf(rows: seq<Row>, thread: Id): Option<Id> {
    if rows == [] then None
    else
      var before, row := rows[..|rows| - 1], rows[|rows| - 1];
      if thread !in row.ownsAgentIds || row.hidden then OriginOf(before, thread)
      else if row.user then Some(row.id)
      else if Source(before, row).Some? then Source(before, row)
      else OriginOf(before, thread)
  }

  /** The projection's exchanges are numbered by the asks, and every id names the latest ask known by it. */
  lemma {:induction false} AsksMean(rows: seq<Row>, id: Id)
    ensures var s := Project(rows);
            && s.current == AskCount(rows) && |s.sets| == AskCount(rows) + 1 && s.user == LastAsk(rows)
            && (id in s.asks <==> ExchangeOf(rows, id).Some?)
               && (id in s.asks ==> s.asks[id] == ExchangeOf(rows, id).value)
    decreases |rows|
  {
    hide RowKeys, SetEach, OriginsAfter, Near, Distant, BumpEach, Counted, Threads, Quote, Rejoined;
    if rows != [] {
      var before, row := rows[..|rows| - 1], rows[|rows| - 1];
      AsksMean(before, id);
      var s := Project(before);
      var at: nat := |s.sets|;
      SetEachValues<nat>(s.asks[row.id := at], row.aliasIds, at);
    }
  }

  lemma {:induction false} FirstMeans(rows: seq<Row>, answers: seq<Id>)
    ensures FirstAsk(Project(rows).asks, answers) == FirstNamed(rows, answers)
    decreases |answers|
  {
    hide Project, ExchangeOf;
    if answers != [] {
      AsksMean(rows, answers[0]);
      FirstMeans(rows, answers[1..]);
    }
  }

  lemma {:induction false} SourceMeans(rows: seq<Row>, reply: Row)
    ensures Origin(Project(rows).asks, Project(rows).user, reply.answers) == Source(rows, reply)
  {
    hide Project, ExchangeOf, FirstAsk, FirstNamed, LastAsk;
    FirstMeans(rows, reply.answers);
    AsksMean(rows, []);
  }

  /** A reply's tasks, as its rows give them. */
  lemma {:induction false} OriginsAfterMean(rows: seq<Row>, reply: Row, thread: Id)
    requires Reply(reply)
    requires var o := Project(rows).origins; (if thread in o then Some(o[thread]) else None) == OriginOf(rows, thread)
    ensures var o := OriginsAfter(Project(rows), reply);
            (if thread in o then Some(o[thread]) else None) == OriginOf(rows + [reply], thread)
  {
    hide Project, SetEach, Origin, Source;
    assert (rows + [reply])[..|rows|] == rows;
    SourceMeans(rows, reply);
    var source := Source(rows, reply);
    if source.Some? { SetEachValues(Project(rows).origins, reply.ownsAgentIds, source.value); }
  }

  /** The projection's origins are the asks the tasks came from. */
  lemma {:induction false} OriginsMean(rows: seq<Row>, thread: Id)
    ensures var o := Project(rows).origins; (if thread in o then Some(o[thread]) else None) == OriginOf(rows, thread)
    decreases |rows|
  {
    hide RowKeys, SetEach, OriginsAfter, Near, Distant, BumpEach, Counted, Threads, Quote, Rejoined, Source;
    if rows != [] {
      var before, row := rows[..|rows| - 1], rows[|rows| - 1];
      OriginsMean(before, thread);
      assert before + [row] == rows;
      if Reply(row) { OriginsAfterMean(before, row, thread); }
      SetEachValues(Project(before).origins, row.ownsAgentIds, row.id);
    }
  }

  /** A reply goes back to the exchange of an ask it answers. */
  ghost predicate GoesBack(rows: seq<Row>, answers: seq<Id>, e: nat) {
    exists a :: a in answers && ExchangeOf(rows, a) == Some(e)
  }

  lemma {:induction false} RejoinedMeans(rows: seq<Row>, answers: seq<Id>, e: nat)
    ensures e in Rejoined(Project(rows).asks, Project(rows).current, answers)
            <==> e != AskCount(rows) && GoesBack(rows, answers, e)
  {
    hide Project, ExchangeOf, AskCount;
    var s := Project(rows);
    forall a
      ensures (a in s.asks <==> ExchangeOf(rows, a).Some?) && (a in s.asks ==> s.asks[a] == ExchangeOf(rows, a).value) {
      AsksMean(rows, a);
    }
    AsksMean(rows, []);
    if GoesBack(rows, answers, e) {
      var a :| a in answers && ExchangeOf(rows, a) == Some(e);
      assert a in s.asks;
    }
  }
}
