/** Scrollback over whole runs: every range asked for is answered once, or lost to a reset or a close. */
module SocketScrollback {
  import opened Options
  import opened Ints
  import opened JournalRecords
  import opened SocketSpec
  import opened SocketStart
  import opened BackfillBudgets

  /** The answers given to scrollback, in order. */
  ghost function Answers(log: seq<Output>): seq<Output> {
    if log == [] then []
    else Answers(log[..|log| - 1]) + if log[|log| - 1].OlderEvent? then [log[|log| - 1]] else []
  }

  lemma {:induction false} AnswersSay(log: seq<Output>, o: Output)
    ensures Answers(log + [o]) == Answers(log) + if o.OlderEvent? then [o] else []
  {
    assert (log + [o])[..|log|] == log;
  }

  /** How many of them are for one range. */
  ghost function AnswersTo(answers: seq<Output>, fromSeq: int, toSeq: int): nat {
    if answers == [] then 0
    else
      var last := answers[|answers| - 1];
      AnswersTo(answers[..|answers| - 1], fromSeq, toSeq)
      + if last.OlderEvent? && last.fromSeq == fromSeq && last.toSeq == toSeq then 1 else 0
  }

  lemma {:induction false} OneAnswerMore(answers: seq<Output>, o: Output, fromSeq: int, toSeq: int)
    ensures AnswersTo(answers + [o], fromSeq, toSeq)
         == AnswersTo(answers, fromSeq, toSeq)
            + if o.OlderEvent? && o.fromSeq == fromSeq && o.toSeq == toSeq then 1 else 0
  {
    assert (answers + [o])[..|answers|] == answers;
  }

  /** The requests still open for a range. */
  ghost function Open(older: map<RequestId, OlderRequest>, fromSeq: int, toSeq: int): set<RequestId> {
    set id | id in older && older[id].fromSeq == fromSeq && older[id].toSeq == toSeq
  }

  /** Ids are handed out in order, so the next one is new. */
  ghost predicate Numbered(s: State) { forall id :: id in s.older ==> id.number <= s.requestCounter }

  // ---------------------------------------------- steps that do not concern scrollback

  /** Open requests and answers stand, or a reset of the stream drops every open request. */
  ghost predicate Stands(s: State, t: State) {
    && t.requestCounter >= s.requestCounter && Answers(t.log) == Answers(s.log)
    && ((t.older == s.older && Resets(t.log) == Resets(s.log)) || (t.older == map[] && Resets(t.log) > Resets(s.log)))
  }

  lemma {:induction false} StandsOn(s: State, t: State, u: State)
    requires Stands(s, t) && Stands(t, u)
    ensures Stands(s, u)
  {
  }

  lemma {:induction false} SaysElse(s: State, t: State)
    requires t.requestCounter >= s.requestCounter && t.older == s.older
    requires t.log == s.log || (|t.log| == |s.log| + 1 && t.log[..|s.log|] == s.log
                                && !t.log[|s.log|].OlderEvent? && !t.log[|s.log|].ResetEvent?)
    ensures Stands(s, t)
  {
    if t.log != s.log {
      assert t.log == s.log + [t.log[|s.log|]];
      AnswersSay(s.log, t.log[|s.log|]);
      ResetsSay(s.log, t.log[|s.log|]);
    }
  }

  lemma {:induction false} ResetStands(s: State, reason: ResetReason)
    ensures Stands(s, ResetStream(s, reason)) && ResetStream(s, reason).older == map[]
    ensures Stands(s, ForceReconnect(ResetStream(s, reason)))
  {
    hide Answers, Resets;
    var t := ResetStream(s, reason);
    AnswersSay(s.log, ResetEvent(reason));
    ResetsSay(s.log, ResetEvent(reason));
    SaysElse(t, ForceReconnect(t));
  }

  lemma {:induction false} GapStands(s: State, throughSeq: int, io: Io)
    ensures Stands(s, RequestGap(s, throughSeq, io).s)
  {
    hide Take, Stands;
    SaysElse(s, RequestGap(s, throughSeq, io).s);
  }

  lemma {:induction false} CollectStands(p: Placing, r: Record, io: Io)
    ensures Stands(p.s, Collect(p, r, io).s)
  {
    hide Adopt, RequestGap, ResetStream, ForceReconnect, Drain, Stands;
    var s := Adopt(p.s);
    AdoptStands(p.s);
    SaysElse(s, s);
    EarlyStands(s, r, io);
    NextStands(s, Placing(s.(lastSeq := r.seqNo), p.applied + [r]));
    StandsOn(p.s, s, Collect(p, r, io).s);
  }

  lemma {:induction false} AdoptStands(s: State)
    ensures Stands(s, Adopt(s))
  {
    hide Stands;
    SaysElse(s, Adopt(s));
  }

  lemma {:induction false} NextStands(s: State, q: Placing)
    requires q.s.requestCounter == s.requestCounter && q.s.older == s.older && q.s.log == s.log
    ensures Stands(s, Drain(q).s)
  {
    hide Drain, Stands;
    Drains(q);
    SaysElse(s, Drain(q).s);
  }

  lemma {:induction false} EarlyStands(s: State, r: Record, io: Io)
    ensures Stands(s, ForceReconnect(ResetStream(s, WindowReset)))
    ensures Stands(s, RequestGap(s.(ahead := s.ahead[r.seqNo := r]), r.seqNo - 1, io).s)
  {
    hide RequestGap, ResetStream, ForceReconnect, Stands;
    ResetStands(s, WindowReset);
    var t := s.(ahead := s.ahead[r.seqNo := r]);
    SaysElse(s, t);
    GapStands(t, r.seqNo - 1, io);
    StandsOn(s, t, RequestGap(t, r.seqNo - 1, io).s);
  }

  lemma {:induction false} CollectAllStands(p: Placing, rows: seq<Record>, io: Io)
    ensures Stands(p.s, CollectAll(p, rows, io).s)
    decreases |rows|
  {
    hide Collect, Stands;
    if rows == [] {
      SaysElse(p.s, p.s);
    } else {
      var n := |rows| - 1;
      CollectAllStands(p, rows[..n], io);
      var q := CollectAll(p, rows[..n], io);
      CollectStands(q, rows[n], io);
      StandsOn(p.s, q.s, Collect(q, rows[n], io).s);
    }
  }

  lemma {:induction false} RecordStands(s: State, r: Record, io: Io)
    ensures Stands(s, HandleRecord(s, r, io))
  {
    hide Collect, Stands;
    var q := Collect(Placing(s, []), r, io);
    CollectStands(Placing(s, []), r, io);
    SaysElse(q.s, Flush(q));
    StandsOn(s, q.s, Flush(q));
  }

  lemma {:induction false} FailStands(s: State)
    ensures Stands(s, FailGapRecovery(s))
  {
    hide Stands;
    SaysElse(s, FailGapRecovery(s));
  }

  lemma {:induction false} RetryStands(s: State, throughSeq: int, io: Io)
    ensures Stands(s, RetryOrFail(s, throughSeq, io))
  {
    hide RequestGap, FailGapRecovery, Stands;
    var asked := RequestGap(s, throughSeq, io).s;
    SaysElse(s, s);
    GapStands(s, throughSeq, io);
    FailStands(asked);
    StandsOn(s, asked, FailGapRecovery(asked));
  }

  lemma {:induction false} AfterStands(s: State, rows: seq<Record>, io: Io)
    ensures Stands(s, AfterRows(s, rows, io))
  {
    hide CollectAll, Stands;
    var p := Placing(s.(gapPending := false), []);
    var q := CollectAll(p, rows, io);
    CollectAllStands(p, rows, io);
    SaysElse(s, p.s);
    SaysElse(q.s, Flush(q));
    StandsOn(s, p.s, q.s);
    StandsOn(s, q.s, Flush(q));
  }

  lemma {:induction false} RepairStands(s: State, f: BackfillFrame, io: Io)
    ensures Stands(s, HandleRepair(s, f, io))
  {
    hide AfterRows, RetryOrFail, FailGapRecovery, ThroughSeq, Stands;
    AfterStands(s, f.records, io);
    var t := AfterRows(s, f.records, io);
    var through := ThroughSeq(t, f.toSeq);
    var next := t.(noProgress := if t.lastSeq >= through || t.lastSeq > s.lastSeq then 0 else t.noProgress + 1);
    SaysElse(t, next);
    FailStands(next);
    RetryStands(next, through, io);
    StandsOn(s, t, next);
    StandsOn(s, next, FailGapRecovery(next));
    StandsOn(s, next, RetryOrFail(next, through, io));
  }

  lemma {:induction false} ReadyStands(s: State, f: ReadyFrame)
    ensures Stands(s, HandleReady(s, f))
  {
    hide ResetStream, ForceReconnect, Stands;
    var u :=
      s.(headSeq := f.headSeq, windowStartSeq := f.windowStartSeq, floorSeq := f.floorSeq, epoch := Some(f.epoch));
    SaysElse(s, u);
    ResetStands(u, EpochReset);
    ResetStands(u, WindowReset);
    var c := ReadyCursor(s, f);
    StandsOn(s, u, c);
    ResetStands(c, WindowReset);
    StandsOn(s, c, ForceReconnect(ResetStream(c, WindowReset)));
    SaysElse(c, ArmResumeGrace(Say(c, ReadyEvent(f))));
    StandsOn(s, c, ArmResumeGrace(Say(c, ReadyEvent(f))));
  }

  lemma {:induction false} TimerStands(s: State, io: Io)
    ensures Stands(s, GraceTimer(s, io))
  {
    hide Take, Stands;
    SaysElse(s, GraceTimer(s, io));
  }

  // ----------------------------------------------------------------- scrollback's own

  /** Every open request holds the rows from its first up to the next one it needs, which it still needs. */
  ghost predicate Gathered(q: OlderRequest) {
    && q.nextSeq <= q.toSeq && |q.records| == q.nextSeq - q.fromSeq
    && forall i :: 0 <= i < |q.records| ==> q.records[i].seqNo == q.fromSeq + i
  }

  ghost predicate AllGathered(s: State) { forall id :: id in s.older ==> Gathered(s.older[id]) }

  /** The server sends consecutive rows of the range, from the one asked for. */
  ghost predicate InRange(q: OlderRequest, rows: seq<Record>) {
    |rows| <= IntMax(0, q.toSeq - q.nextSeq + 1) && forall i :: 0 <= i < |rows| ==> rows[i].seqNo == q.nextSeq + i
  }

  lemma {:induction false} AllAtOrAfter(rows: seq<Record>, n: int)
    requires forall i :: 0 <= i < |rows| ==> rows[i].seqNo >= n
    ensures AtOrAfter(rows, n) == rows
    decreases |rows|
  {
    if rows != [] {
      AllAtOrAfter(rows[1..], n);
      assert [rows[0]] + rows[1..] == rows;
    }
  }

  ghost predicate For(q: OlderRequest, fromSeq: int, toSeq: int) { q.fromSeq == fromSeq && q.toSeq == toSeq }

  lemma {:induction false} OpenLess(older: map<RequestId, OlderRequest>, id: RequestId, fromSeq: int, toSeq: int)
    requires id in older
    ensures |Open(older, fromSeq, toSeq)|
         == |Open(older - {id}, fromSeq, toSeq)| + if For(older[id], fromSeq, toSeq) then 1 else 0
  {
    var rest := Open(older - {id}, fromSeq, toSeq);
    assert Open(older, fromSeq, toSeq) == if For(older[id], fromSeq, toSeq) then rest + {id} else rest;
  }

  lemma {:induction false} OpenMore(older: map<RequestId, OlderRequest>, id: RequestId,
                                    q: OlderRequest, fromSeq: int, toSeq: int)
    requires id !in older
    ensures |Open(older[id := q], fromSeq, toSeq)|
         == |Open(older, fromSeq, toSeq)| + if For(q, fromSeq, toSeq) then 1 else 0
  {
    var more := older[id := q];
    assert more - {id} == older;
    OpenLess(more, id, fromSeq, toSeq);
  }

  /** The rows a request holds once a reply to it is in. */
  ghost function Extended(q: OlderRequest, f: BackfillFrame): seq<Record> {
    q.records + AtOrAfter(f.records, q.nextSeq)
  }

  ghost function AnswerTo(q: OlderRequest, f: BackfillFrame): Output {
    var rows := Extended(q, f);
    OlderEvent(rows, f.complete && LastSeqOf(rows, q.nextSeq - 1) >= q.toSeq, q.fromSeq, q.toSeq)
  }

  /** A reply is answered, or its request goes on under the next id with the rows so far. */
  ghost predicate Answered(s: State, f: BackfillFrame, t: State) {
    f.requestId in s.older && t.older == s.older - {f.requestId} && t.requestCounter >= s.requestCounter
    && Answers(t.log) == Answers(s.log) + [AnswerTo(s.older[f.requestId], f)] && Resets(t.log) == Resets(s.log)
  }

  ghost predicate GoesOn(s: State, f: BackfillFrame, t: State) {
    f.requestId in s.older
    && var q := s.older[f.requestId]; var rows := Extended(q, f);
       && t.requestCounter == s.requestCounter + 1 && LastSeqOf(rows, q.nextSeq - 1) < q.toSeq
       && t.older == (s.older - {f.requestId})[RequestId('o', t.requestCounter)
                       := q.(nextSeq := LastSeqOf(rows, q.nextSeq - 1) + 1, records := rows)]
       && Answers(t.log) == Answers(s.log) && Resets(t.log) == Resets(s.log)
  }

  lemma {:induction false} ContinueShape(s: State, q: OlderRequest, rows: seq<Record>, fromSeq: int, io: Io)
    ensures var asked := ContinueOlder(s, q, rows, fromSeq, io); var t := asked.s;
            && t.requestCounter == s.requestCounter + 1 && Answers(t.log) == Answers(s.log)
               && Resets(t.log) == Resets(s.log)
            && var id := RequestId('o', t.requestCounter);
               t.older == if asked.ok then s.older[id := q.(nextSeq := fromSeq, records := rows)] else s.older
  {
    hide Take, Answers, Resets;
    var t := ContinueOlder(s, q, rows, fromSeq, io).s;
    if t.log != s.log {
      AnswersSay(s.log, t.log[|s.log|]);
      ResetsSay(s.log, t.log[|s.log|]);
    }
  }

  lemma {:induction false} ReplyShape(s: State, f: BackfillFrame, io: Io)
    requires f.requestId in s.older
    ensures Answered(s, f, HandleOlderReply(s, f, io)) || GoesOn(s, f, HandleOlderReply(s, f, io))
  {
    hide ContinueOlder, Answers, Resets, AtOrAfter, LastSeqOf;
    var q := s.older[f.requestId];
    var t := s.(older := s.older - {f.requestId});
    var rows := Extended(q, f);
    var asked := ContinueOlder(t, q, rows, LastSeqOf(rows, q.nextSeq - 1) + 1, io).s;
    ContinueShape(t, q, rows, LastSeqOf(rows, q.nextSeq - 1) + 1, io);
    AnswersSay(t.log, AnswerTo(q, f));
    ResetsSay(t.log, AnswerTo(q, f));
    AnswersSay(asked.log, AnswerTo(q, f));
    ResetsSay(asked.log, AnswerTo(q, f));
  }

  /** A reply to scrollback answers its range or keeps it open: the two together stay the same. */
  lemma {:induction false} ReplyCounts(s: State, f: BackfillFrame, io: Io, fromSeq: int, toSeq: int)
    requires f.requestId in s.older && Numbered(s)
    ensures var t := HandleOlderReply(s, f, io);
            && Numbered(t) && Resets(t.log) == Resets(s.log)
            && AnswersTo(Answers(t.log), fromSeq, toSeq) + |Open(t.older, fromSeq, toSeq)|
               == AnswersTo(Answers(s.log), fromSeq, toSeq) + |Open(s.older, fromSeq, toSeq)|
  {
    hide HandleOlderReply, Answers, AnswersTo, Open, Extended, LastSeqOf, Resets;
    var q := s.older[f.requestId];
    ReplyShape(s, f, io);
    OpenLess(s.older, f.requestId, fromSeq, toSeq);
    var t := HandleOlderReply(s, f, io);
    if Answered(s, f, t) {
      OneAnswerMore(Answers(s.log), AnswerTo(q, f), fromSeq, toSeq);
    } else {
      var rows := Extended(q, f);
      var next := q.(nextSeq := LastSeqOf(rows, q.nextSeq - 1) + 1, records := rows);
      OpenMore(s.older - {f.requestId}, RequestId('o', t.requestCounter), next, fromSeq, toSeq);
    }
  }

  // ------------------------------------------------------------------------ requests

  /** The step asks for the range and the request goes out. */
  ghost predicate Accepts(s: State, step: Step, fromSeq: int, toSeq: int) {
    step.input == OlderWanted(fromSeq, toSeq) && RequestOlderRange(s, fromSeq, toSeq, step.io).ok
  }

  lemma {:induction false} WantedShape(s: State, fromSeq: int, toSeq: int, io: Io)
    ensures var asked := RequestOlderRange(s, fromSeq, toSeq, io); var t := asked.s;
            && t.requestCounter >= s.requestCounter && Answers(t.log) == Answers(s.log)
               && Resets(t.log) == Resets(s.log)
            && (!asked.ok ==> t.older == s.older)
            && (asked.ok ==> fromSeq <= toSeq && t.requestCounter == s.requestCounter + 1
                             && var id := RequestId('o', t.requestCounter);
                                t.older == s.older[id := OlderRequest(fromSeq, toSeq, fromSeq, [])])
  {
    hide Take, Answers, Resets;
    var t := RequestOlderRange(s, fromSeq, toSeq, io).s;
    if t.log != s.log {
      AnswersSay(s.log, t.log[|s.log|]);
      ResetsSay(s.log, t.log[|s.log|]);
    }
  }

  /** A close of the socket, or a reset of the stream within the step, drops the open requests. */
  ghost predicate Drops(s: State, step: Step) {
    (s.attached && step.input.Closed?) || Resets(Apply(s, step).log) > Resets(s.log)
  }

  lemma {:induction false} LinkStands(s: State, step: Step)
    requires step.input.Opened? || step.input.GapIn? || step.input.ProbeTimeout?
             || step.input.RetryPressed? || step.input.Stopped?
             || !s.attached
    requires !step.input.GraceDue? && !step.input.OlderWanted?
    ensures Stands(s, Apply(s, step))
  {
    hide HandleRecord, HandleBackfill, HandleReady, HandleClose, GraceTimer, RequestOlderRange, ResetStream, Stands;
    SaysElse(s, Apply(s, step));
  }

  lemma {:induction false} CloseDrops(s: State, terminal: bool)
    ensures var t := HandleClose(s, terminal);
            t.older == map[] && t.requestCounter == s.requestCounter && t.log == s.log
  {
  }

  /** Every step but a request, a reply to one, and a close leaves scrollback alone or resets it. */
  lemma {:induction false} ElseStands(s: State, step: Step)
    requires !step.input.OlderWanted? && !(s.attached && step.input.Closed?)
    requires !(s.attached && step.input.BackfillIn? && step.input.backfill.requestId in s.older)
    ensures Stands(s, Apply(s, step))
  {
    hide HandleRepair, HandleOlderReply, HandleRecord, GraceTimer, RequestOlderRange,
         ResetStream, HandleClose, ForceReconnect, Retry,
         HandleReady, Stands;
    match step.input
    case ReadyIn(f) => if s.attached { ReadyStands(s, f); } else { LinkStands(s, step); }
    case RecordIn(r) => if s.attached { RecordStands(s, r, step.io); } else { LinkStands(s, step); }
    case BackfillIn(f) => if s.attached { RepairStands(s, f, step.io); } else { LinkStands(s, step); }
    case ResetIn(reason) => if s.attached { ResetStands(s, reason); } else { LinkStands(s, step); }
    case GraceDue => TimerStands(s, step.io);
    case _ => LinkStands(s, step);
  }

  // ------------------------------------------------------------------------ one step

  lemma {:induction false} NoneOpen(fromSeq: int, toSeq: int)
    ensures |Open(map[], fromSeq, toSeq)| == 0
  {
    assert Open(map[], fromSeq, toSeq) == {};
  }

  lemma {:induction false} StandsCounts(s: State, t: State, fromSeq: int, toSeq: int)
    requires Numbered(s) && Stands(s, t)
    ensures Numbered(t)
    ensures AnswersTo(Answers(t.log), fromSeq, toSeq) == AnswersTo(Answers(s.log), fromSeq, toSeq)
    ensures |Open(t.older, fromSeq, toSeq)| == if Resets(t.log) > Resets(s.log) then 0
            else |Open(s.older, fromSeq, toSeq)|
  {
    NoneOpen(fromSeq, toSeq);
  }

  lemma {:induction false} StepCounts(s: State, step: Step, fromSeq: int, toSeq: int)
    requires Numbered(s)
    ensures var t := Apply(s, step);
            && Numbered(t)
            && AnswersTo(Answers(t.log), fromSeq, toSeq) + |Open(t.older, fromSeq, toSeq)|
               + (if Drops(s, step) then |Open(s.older, fromSeq, toSeq)| else 0)
               == AnswersTo(Answers(s.log), fromSeq, toSeq) + |Open(s.older, fromSeq, toSeq)|
                  + (if Accepts(s, step, fromSeq, toSeq) then 1 else 0)
  {
    hide HandleRepair, HandleOlderReply, HandleRecord, HandleReady, GraceTimer,
         RequestOlderRange, ResetStream, HandleClose,
         ForceReconnect, Retry, Answers, AnswersTo, Open, Resets, Stands;
    var t := Apply(s, step);
    if step.input.OlderWanted? {
      var a, b := step.input.fromSeq, step.input.toSeq;
      WantedShape(s, a, b, step.io);
      if RequestOlderRange(s, a, b, step.io).ok {
        OpenMore(s.older, RequestId('o', t.requestCounter), OlderRequest(a, b, a, []), fromSeq, toSeq);
      }
    } else if s.attached && step.input.Closed? {
      CloseDrops(s, step.input.terminal);
      NoneOpen(fromSeq, toSeq);
    } else if s.attached && step.input.BackfillIn? && step.input.backfill.requestId in s.older {
      ReplyCounts(s, step.input.backfill, step.io, fromSeq, toSeq);
    } else {
      ElseStands(s, step);
      StandsCounts(s, t, fromSeq, toSeq);
    }
  }

  // ------------------------------------------------------------------------ whole runs

  ghost function Accepted(s: State, steps: seq<Step>, fromSeq: int, toSeq: int): nat
    decreases |steps|
  {
    if steps == [] then 0
    else
      (if Accepts(s, steps[0], fromSeq, toSeq) then 1 else 0)
      + Accepted(Apply(s, steps[0]), steps[1..], fromSeq, toSeq)
  }

  /** The requests for a range that a close or a reset dropped. */
  ghost function Dropped(s: State, steps: seq<Step>, fromSeq: int, toSeq: int): nat
    decreases |steps|
  {
    if steps == [] then 0
    else
      (if Drops(s, steps[0]) then |Open(s.older, fromSeq, toSeq)| else 0)
        + Dropped(Apply(s, steps[0]), steps[1..], fromSeq, toSeq)
  }

  lemma {:induction false} RunCounts(s: State, steps: seq<Step>, fromSeq: int, toSeq: int)
    requires Numbered(s)
    ensures var t := Run(s, steps);
            AnswersTo(Answers(t.log), fromSeq, toSeq) + |Open(t.older, fromSeq, toSeq)|
              + Dropped(s, steps, fromSeq, toSeq)
            == AnswersTo(Answers(s.log), fromSeq, toSeq) + |Open(s.older, fromSeq, toSeq)|
              + Accepted(s, steps, fromSeq, toSeq)
    decreases |steps|
  {
    hide Apply, Answers, AnswersTo, Open, Accepts, Drops, Numbered;
    if steps != [] {
      StepCounts(s, steps[0], fromSeq, toSeq);
      RunCounts(Apply(s, steps[0]), steps[1..], fromSeq, toSeq);
    }
  }

  /**
   * Over every run from a new client each accepted request for a range has
   * been answered once, or is still open, or was dropped by a close or a
   * reset; there are no other answers.
   */
  lemma {:induction false} AnsweredOnce(cursor: Option<Cursor>, now: int, steps: seq<Step>, fromSeq: int, toSeq: int)
    ensures var s0 := Initial(cursor, now); var t := Run(s0, steps);
            Accepted(s0, steps, fromSeq, toSeq)
            == AnswersTo(Answers(t.log), fromSeq, toSeq) + |Open(t.older, fromSeq, toSeq)|
              + Dropped(s0, steps, fromSeq, toSeq)
  {
    hide Run, Accepted, Dropped, Open;
    var s0 := Initial(cursor, now);
    RunCounts(s0, steps, fromSeq, toSeq);
    NoneOpen(fromSeq, toSeq);
  }
}
