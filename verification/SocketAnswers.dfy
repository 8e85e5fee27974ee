/** What the answers to scrollback hold, over runs in which the server sends the journal's own rows. */
module SocketAnswers {
  import opened Options
  import opened JournalRecords
  import opened SocketSpec
  import opened SocketStart
  import opened BackfillBudgets
  import opened SocketScrollback
  import V = ConversationViews

  /** Going on is refused: no token above the reserve, or no open socket. */
  ghost predicate Refused(s: State, io: Io) { !Take(s.budget, io.now, 4).granted || !s.attached || !io.open }

  /** The rows a range has. */
  ghost function Size(q: OlderRequest): int { q.toSeq - q.fromSeq + 1 }

  // ------------------------------------------------------------------------ one reply

  lemma {:induction false} GoingOn(s: State, q: OlderRequest, rows: seq<Record>, fromSeq: int, io: Io)
    ensures var asked := ContinueOlder(s, q, rows, fromSeq, io); var t := asked.s;
            && (asked.ok <==> !Refused(s, io))
            && t.requestCounter == s.requestCounter + 1
            && t.log == (if asked.ok then s.log + [Sent(RequestId('o', t.requestCounter), fromSeq, q.toSeq)] else s.log)
            && t.older
               == (if asked.ok then s.older[RequestId('o', t.requestCounter) := q.(nextSeq := fromSeq, records := rows)]
                           else s.older)
  {
    hide Take;
  }

  lemma {:induction false} Joined(q: OlderRequest, rows: seq<Record>)
    requires Gathered(q) && InRange(q, rows)
    ensures var all := q.records + rows;
            && |all| <= Size(q) && (forall i :: 0 <= i < |all| ==> all[i].seqNo == q.fromSeq + i)
            && AtOrAfter(rows, q.nextSeq) == rows && LastSeqOf(all, q.nextSeq - 1) == q.fromSeq + |all| - 1
  {
    AllAtOrAfter(rows, q.nextSeq);
    var all := q.records + rows;
    if all != [] {
      assert all[|all| - 1] == if rows == [] then q.records[|q.records| - 1] else rows[|rows| - 1];
    }
  }

  /** The reply ends the request: all rows received so far go into one answer. */
  ghost predicate Ends(s: State, f: BackfillFrame, io: Io, o: Output)
    requires f.requestId in s.older
  {
    var q := s.older[f.requestId];
    var rows := q.records + f.records;
    && o == OlderEvent(rows, f.complete && |rows| == Size(q), q.fromSeq, q.toSeq)
    && (f.complete || |rows| == Size(q) || Refused(s, io))
  }

  /** The reply was short, the server did not call it all, and the rest is asked for with the rows so far kept. */
  ghost predicate GoesOnWith(s: State, f: BackfillFrame, io: Io, t: State)
    requires f.requestId in s.older
  {
    var q := s.older[f.requestId];
    var rows := q.records + f.records;
    var id := RequestId('o', s.requestCounter + 1);
    && !f.complete && |rows| < Size(q) && !Refused(s, io)
    && t.older == (s.older - {f.requestId})[id := OlderRequest(q.fromSeq, q.toSeq, q.fromSeq + |rows|, rows)]
    && t.log == s.log + [Sent(id, q.fromSeq + |rows|, q.toSeq)]
  }

  /**
   * A reply in its range is answered with every row received for it, or the
   * rest is asked for; the second exactly when it is short, not called complete
   * and going on is not refused.
   */
  lemma {:induction false} ReplyEndsOrGoesOn(s: State, f: BackfillFrame, io: Io)
    requires f.requestId in s.older && AllGathered(s) && InRange(s.older[f.requestId], f.records)
    ensures var q, t := s.older[f.requestId], HandleOlderReply(s, f, io);
            if !f.complete && |q.records + f.records| < Size(q) && !Refused(s, io) then GoesOnWith(s, f, io, t)
            else exists o :: t.older == s.older - {f.requestId} && t.log == s.log + [o] && Ends(s, f, io, o)
  {
    hide ContinueOlder, AtOrAfter, LastSeqOf, Refused, Gathered, InRange;
    var q := s.older[f.requestId];
    Joined(q, f.records);
    var rows := q.records + f.records;
    var t := s.(older := s.older - {f.requestId});
    assert Refused(t, io) == Refused(s, io) by { SameRefusal(s, t, io); }
    GoingOn(t, q, rows, q.fromSeq + |rows|, io);
  }

  lemma {:induction false} SameRefusal(s: State, t: State, io: Io)
    requires t.budget == s.budget && t.attached == s.attached
    ensures Refused(t, io) == Refused(s, io)
  {
  }

  // ------------------------------------------------------------------------ every step

  /** The step is a reply to an open scrollback request. */
  ghost predicate OlderReply(s: State, step: Step) {
    s.attached && step.input.BackfillIn? && step.input.backfill.requestId in s.older
  }

  /** An open request was open before as it is now, is new and empty, or goes on from the one just answered. */
  ghost predicate Traced(s: State, step: Step, t: State) {
    forall id :: id in t.older ==>
      (id in s.older && t.older[id] == s.older[id] && (OlderReply(s, step) ==> id != step.input.backfill.requestId))
      || (id !in s.older
          && var q := t.older[id];
             if OlderReply(s, step) then
               var was, f := s.older[step.input.backfill.requestId], step.input.backfill;
               q.fromSeq == was.fromSeq && q.toSeq == was.toSeq && q.records == was.records + f.records
             else step.input == OlderWanted(q.fromSeq, q.toSeq) && q.records == [])
  }

  lemma {:induction false} ReplyTraces(s: State, step: Step)
    requires OlderReply(s, step) && Numbered(s) && AllGathered(s)
    requires InRange(s.older[step.input.backfill.requestId], step.input.backfill.records)
    ensures var t := Apply(s, step); Traced(s, step, t) && AllGathered(t)
  {
    hide HandleOlderReply, Refused, InRange;
    var f := step.input.backfill;
    ReplyEndsOrGoesOn(s, f, step.io);
    Joined(s.older[f.requestId], f.records);
  }

  lemma {:induction false} ElseTraces(s: State, step: Step)
    requires !OlderReply(s, step) && Numbered(s)
    ensures Traced(s, step, Apply(s, step))
  {
    hide Apply, HandleClose, RequestOlderRange, Answers, Resets;
    if step.input.OlderWanted? {
      WantedShape(s, step.input.fromSeq, step.input.toSeq, step.io);
      WantedApplies(s, step);
    } else if s.attached && step.input.Closed? {
      CloseDrops(s, step.input.terminal);
      CloseApplies(s, step);
    } else {
      ElseStands(s, step);
    }
  }

  lemma {:induction false} WantedApplies(s: State, step: Step)
    requires step.input.OlderWanted?
    ensures Apply(s, step) == RequestOlderRange(s, step.input.fromSeq, step.input.toSeq, step.io).s
  {
    hide RequestOlderRange;
  }

  lemma {:induction false} CloseApplies(s: State, step: Step)
    requires s.attached && step.input.Closed?
    ensures Apply(s, step) == HandleClose(s, step.input.terminal)
  {
    hide HandleClose;
  }

  lemma {:induction false} ElseKeeps(s: State, step: Step)
    requires !OlderReply(s, step) && AllGathered(s)
    ensures AllGathered(Apply(s, step)) && Answers(Apply(s, step).log) == Answers(s.log)
  {
    hide Apply, HandleClose, RequestOlderRange, Answers, Resets;
    if step.input.OlderWanted? {
      WantedShape(s, step.input.fromSeq, step.input.toSeq, step.io);
      WantedApplies(s, step);
    } else if s.attached && step.input.Closed? {
      CloseDrops(s, step.input.terminal);
      CloseApplies(s, step);
    } else {
      ElseStands(s, step);
    }
  }

  // ------------------------------------------------------------------------ whole runs

  /** Every reply to scrollback along the run stays in the range of its request. */
  ghost predicate InRangeRun(s0: State, steps: seq<Step>)
    decreases |steps|
  {
    steps == [] ||
    var before, step := steps[..|steps| - 1], steps[|steps| - 1];
    var s := Run(s0, before);
    && InRangeRun(s0, before)
    && (OlderReply(s, step) ==> InRange(s.older[step.input.backfill.requestId], step.input.backfill.records))
  }

  /** The rows that replies have brought for an open request and for those it went on from. */
  ghost function Received(s0: State, steps: seq<Step>, id: RequestId): seq<Record>
    decreases |steps|
  {
    if steps == [] then []
    else
      var before, step := steps[..|steps| - 1], steps[|steps| - 1];
      var s := Run(s0, before);
      if !OlderReply(s, step) then if id in s.older then Received(s0, before, id) else []
      else if id in s.older && id != step.input.backfill.requestId then Received(s0, before, id)
      else Received(s0, before, step.input.backfill.requestId) + step.input.backfill.records
  }

  /** The output answers a range, after `before` and by `step`, with all the rows replies have brought for it. */
  ghost predicate AnsweredBy(s0: State, before: seq<Step>, step: Step, o: Output) {
    var s := Run(s0, before);
    && OlderReply(s, step)
    && var q, f := s.older[step.input.backfill.requestId], step.input.backfill;
       var rows := Received(s0, before, f.requestId) + f.records;
       && o == OlderEvent(rows, f.complete && |rows| == Size(q), q.fromSeq, q.toSeq)
       && |rows| <= Size(q) && (forall i :: 0 <= i < |rows| ==> rows[i].seqNo == q.fromSeq + i)
       && (f.complete || |rows| == Size(q) || Refused(s, step.io))
  }

  /** Open requests hold what was received for them. */
  ghost predicate HoldsReceived(s0: State, steps: seq<Step>, s: State) {
    forall id :: id in s.older ==> s.older[id].records == Received(s0, steps, id)
  }

  lemma {:induction false} TracedReceives(s0: State, before: seq<Step>, step: Step)
    requires var s := Run(s0, before); HoldsReceived(s0, before, s) && Traced(s, step, Apply(s, step))
    ensures HoldsReceived(s0, before + [step], Apply(Run(s0, before), step))
  {
    hide Apply, Run;
    var steps := before + [step];
    assert steps[..|steps| - 1] == before && steps[|steps| - 1] == step;
  }

  lemma {:induction false} NothingOpen(cursor: Option<Cursor>, now: int)
    ensures var s0 := Initial(cursor, now);
            Run(s0, []) == s0 && Numbered(s0) && AllGathered(s0) && HoldsReceived(s0, [], s0) && Answers(s0.log) == []
            && s0.older == map[]
  {
  }

  lemma {:induction false} RunKeeps(cursor: Option<Cursor>, now: int, steps: seq<Step>)
    requires InRangeRun(Initial(cursor, now), steps)
    ensures var s0 := Initial(cursor, now); var s := Run(s0, steps);
            Numbered(s) && AllGathered(s) && HoldsReceived(s0, steps, s)
    decreases |steps|
  {
    var s0 := Initial(cursor, now);
    hide Apply, Run, Numbered, AllGathered, HoldsReceived, Traced, InRange, Received, Open, Answers, AnswersTo, Initial;
    if steps == [] {
      NothingOpen(cursor, now);
    } else {
      var before, step := steps[..|steps| - 1], steps[|steps| - 1];
      var s := Run(s0, before);
      assert before + [step] == steps;
      RunStep(s0, before, step);
      RunKeeps(cursor, now, before);
      StepCounts(s, step, 0, 0);
      if OlderReply(s, step) { ReplyTraces(s, step); } else { ElseTraces(s, step); ElseKeeps(s, step); }
      TracedReceives(s0, before, step);
    }
  }

  /** A reply adds to the answers what answers its request, or nothing. */
  lemma {:induction false} ReplyAnswers(s: State, step: Step)
    requires OlderReply(s, step) && AllGathered(s)
    requires InRange(s.older[step.input.backfill.requestId], step.input.backfill.records)
    ensures var t, q := Apply(s, step), s.older[step.input.backfill.requestId];
            || Answers(t.log) == Answers(s.log)
            || exists o :: Answers(t.log) == Answers(s.log) + [o] && Ends(s, step.input.backfill, step.io, o)
  {
    hide HandleOlderReply, Refused, Answers, AllGathered;
    var f := step.input.backfill;
    ReplyEndsOrGoesOn(s, f, step.io);
    var t := HandleOlderReply(s, f, step.io);
    if t.log != s.log {
      assert t.log == s.log + [t.log[|s.log|]];
      AnswersSay(s.log, t.log[|s.log|]);
    }
  }

  lemma {:induction false} NewAnswer(s0: State, before: seq<Step>, step: Step, o: Output)
    requires var s := Run(s0, before);
             && AllGathered(s) && HoldsReceived(s0, before, s)
             && (OlderReply(s, step) ==> InRange(s.older[step.input.backfill.requestId], step.input.backfill.records))
             && o in Answers(Apply(s, step).log) && o !in Answers(s.log)
    ensures AnsweredBy(s0, before, step, o)
  {
    hide Apply, Run, Received, Answers, Refused, Gathered, InRange;
    var s := Run(s0, before);
    if OlderReply(s, step) {
      ReplyAnswers(s, step);
      Joined(s.older[step.input.backfill.requestId], step.input.backfill.records);
    } else {
      ElseKeeps(s, step);
    }
  }

  /**
   * Over every run from a new client whose replies stay in range, each answer
   * holds exactly the rows that came for its range, without a gap from its
   * first row on. It is complete exactly when they are the whole range and the
   * last reply called it complete. It is incomplete only when that reply called
   * a short range complete, brought the last row without saying so, or going on
   * was refused.
   */
  lemma {:induction false} AnswersHold(cursor: Option<Cursor>, now: int, steps: seq<Step>, o: Output)
    requires InRangeRun(Initial(cursor, now), steps) && o in Answers(Run(Initial(cursor, now), steps).log)
    ensures exists k: nat :: k < |steps| && AnsweredBy(Initial(cursor, now), steps[..k], steps[k], o)
    decreases |steps|
  {
    var s0 := Initial(cursor, now);
    hide Apply, Run, AllGathered, InRange, Received, Answers, Initial, AnsweredBy, HoldsReceived;
    if steps == [] {
      NothingOpen(cursor, now);
    } else {
      var n := |steps| - 1;
      var before, step := steps[..n], steps[n];
      var s := Run(s0, before);
      assert before + [step] == steps;
      RunStep(s0, before, step);
      RunKeeps(cursor, now, before);
      if o in Answers(s.log) {
        AnswersHold(cursor, now, before, o);
        var k: nat :| k < n && AnsweredBy(s0, before[..k], before[k], o);
        assert before[..k] == steps[..k];
      } else {
        NewAnswer(s0, before, step, o);
      }
    }
  }

  /** An answer is complete exactly when its last reply said so and the view accepts its rows as the whole range. */
  lemma {:induction false} CompleteAnswersAreWhole(cursor: Option<Cursor>, now: int, steps: seq<Step>, o: Output)
    requires InRangeRun(Initial(cursor, now), steps) && o in Answers(Run(Initial(cursor, now), steps).log)
    ensures exists k: nat :: k < |steps| && AnsweredBy(Initial(cursor, now), steps[..k], steps[k], o)
              && (o.complete <==> steps[k].input.backfill.complete
                                  && V.OlderRangeIsComplete(o.rows,
                                                            V.Range(Some(true), Some(o.fromSeq), Some(o.toSeq))))
  {
    hide Run, InRangeRun, Answers, Received, Refused;
    AnswersHold(cursor, now, steps, o);
  }

  // ------------------------------------------------------------------------ the journal's rows

  /** `rows` are the journal's rows from number `from` on. */
  ghost predicate Holds(rows: seq<Record>, j: Journal, epoch: Option<int>, from: int) {
    rows == [] || (epoch.Some? && from >= 0 && IsSegment(rows, j, epoch.value, from))
  }

  /** What open requests hold is the journal's, of the epoch the client is on. */
  ghost predicate RowsKept(s: State, j: Journal) {
    forall id :: id in s.older ==> Holds(s.older[id].records, j, s.epoch, s.older[id].fromSeq)
  }

  /** A reply to scrollback holds the journal's rows from the one asked for, within the range. */
  ghost predicate Genuine(s: State, f: BackfillFrame, j: Journal) {
    f.requestId in s.older ==>
      InRange(s.older[f.requestId], f.records) && Holds(f.records, j, s.epoch, s.older[f.requestId].nextSeq)
  }

  ghost predicate GenuineRun(s0: State, steps: seq<Step>, j: Journal)
    decreases |steps|
  {
    steps == [] ||
    var before, step := steps[..|steps| - 1], steps[|steps| - 1];
    && GenuineRun(s0, before, j)
    && (OlderReply(Run(s0, before), step) ==> Genuine(Run(s0, before), step.input.backfill, j))
  }

  lemma {:induction false} ReadyDropsOnNewEpoch(s: State, f: ReadyFrame)
    ensures var t := HandleReady(s, f);
            t.epoch == Some(f.epoch) && (s.epoch.None? || t.epoch == s.epoch || t.older == map[])
  {
  }

  /** A step keeps the epoch, finds it unknown, or drops every open request. */
  lemma {:induction false} StepKeepsEpoch(s: State, step: Step)
    ensures var t := Apply(s, step); s.epoch.None? || t.epoch == s.epoch || t.older == map[]
  {
    hide Apply, HandleReady;
    if step.input.ReadyIn? && s.attached {
      ReadyApplies(s, step);
      ReadyDropsOnNewEpoch(s, step.input.ready);
    } else {
      assert Apply(s, step).epoch == s.epoch by { EpochStands(s, step); }
    }
  }

  lemma {:induction false} EpochStands(s: State, step: Step)
    requires step.input.ReadyIn? ==> !s.attached
    ensures Apply(s, step).epoch == s.epoch
  {
    hide Apply;
    StepContinues(s, step);
  }

  lemma {:induction false} JoinedHolds(q: OlderRequest, rows: seq<Record>, j: Journal, epoch: Option<int>)
    requires Gathered(q) && Holds(q.records, j, epoch, q.fromSeq) && Holds(rows, j, epoch, q.nextSeq)
    ensures Holds(q.records + rows, j, epoch, q.fromSeq)
  {
    if rows == [] {
      assert q.records + rows == q.records;
    } else if q.records == [] {
      assert q.records + rows == rows;
    } else {
      SegmentsJoin(q.records, rows, j, epoch.value, q.fromSeq);
    }
  }

  lemma {:induction false} SegmentsJoin(a: seq<Record>, b: seq<Record>, j: Journal, epoch: int, from: nat)
    requires IsSegment(a, j, epoch, from) && IsSegment(b, j, epoch, from + |a|)
    ensures IsSegment(a + b, j, epoch, from)
  {
    var all := a + b;
    forall i | 0 <= i < |all| ensures all[i] == Row(j, epoch, from + i) {
      assert all[i] == if i < |a| then a[i] else b[i - |a|];
    }
  }

  lemma {:induction false} StepKeepsRows(s: State, step: Step, j: Journal)
    requires AllGathered(s) && RowsKept(s, j) && Traced(s, step, Apply(s, step))
    requires OlderReply(s, step) ==> Genuine(s, step.input.backfill, j)
    ensures RowsKept(Apply(s, step), j)
  {
    hide Apply, Gathered, InRange;
    StepKeepsEpoch(s, step);
    if OlderReply(s, step) {
      EpochStands(s, step);
      JoinedHolds(s.older[step.input.backfill.requestId], step.input.backfill.records, j, s.epoch);
    }
  }

  lemma {:induction false} RunKeepsRows(cursor: Option<Cursor>, now: int, steps: seq<Step>, j: Journal)
    requires GenuineRun(Initial(cursor, now), steps, j)
    ensures InRangeRun(Initial(cursor, now), steps) && RowsKept(Run(Initial(cursor, now), steps), j)
    decreases |steps|
  {
    var s0 := Initial(cursor, now);
    hide Apply, Run, Numbered, AllGathered, HoldsReceived, RowsKept, Traced, InRange, Initial;
    if steps == [] {
      NothingOpen(cursor, now);
      assert RowsKept(s0, j) by { NothingKept(s0, j); }
    } else {
      var before, step := steps[..|steps| - 1], steps[|steps| - 1];
      var s := Run(s0, before);
      assert before + [step] == steps;
      RunStep(s0, before, step);
      RunKeepsRows(cursor, now, before, j);
      RunKeeps(cursor, now, before);
      if OlderReply(s, step) { ReplyTraces(s, step); } else { ElseTraces(s, step); }
      StepKeepsRows(s, step, j);
    }
  }

  lemma {:induction false} NothingKept(s: State, j: Journal)
    requires s.older == map[]
    ensures RowsKept(s, j)
  {
  }

  /** When the replies are genuine, an answer's rows are the journal's, from the first row of the range on. */
  lemma {:induction false} AnswersAreGenuine(cursor: Option<Cursor>, now: int,
                                             before: seq<Step>, step: Step, j: Journal, o: Output)
    requires var s0 := Initial(cursor, now); GenuineRun(s0, before + [step], j) && AnsweredBy(s0, before, step, o)
    ensures Holds(o.rows, j, Run(Initial(cursor, now), before).epoch, o.fromSeq)
  {
    hide Run, Received, Refused, InRange, Gathered, Holds, Initial;
    var s0 := Initial(cursor, now);
    var steps := before + [step];
    assert steps[..|steps| - 1] == before && steps[|steps| - 1] == step;
    RunKeeps(cursor, now, before) by { RunKeepsRows(cursor, now, before, j); }
    RunKeepsRows(cursor, now, before, j);
    var s := Run(s0, before);
    JoinedHolds(s.older[step.input.backfill.requestId], step.input.backfill.records, j, s.epoch);
  }
}
