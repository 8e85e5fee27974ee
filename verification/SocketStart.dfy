/** Where the stream starts: the row the client was promised, read off the run alone. */
module SocketStart {
  import opened Options
  import opened JournalRecords
  import opened SocketSpec
  import BackfillBudgets

  lemma {:induction false} RunStep(s: State, steps: seq<Step>, step: Step)
    ensures Run(s, steps + [step]) == Apply(Run(s, steps), step)
    decreases |steps|
  {
    hide Apply;
    var all := steps + [step];
    if steps == [] {
      assert all[1..] == [];
    } else {
      assert all[1..] == steps[1..] + [step];
      RunStep(Apply(s, steps[0]), steps[1..], step);
    }
  }

  /** The last `ready` that reached an attached client. */
  ghost function LastReady(s: State, steps: seq<Step>): Option<ReadyFrame> {
    if steps == [] then None
    else
      var before, step := steps[..|steps| - 1], steps[|steps| - 1];
      if step.input.ReadyIn? && Run(s, before).attached then Some(step.input.ready) else LastReady(s, before)
  }

  ghost function CursorOf(cursor: Option<Cursor>): Option<Cursor> {
    if cursor.Some? && CursorAccepted(cursor.value) then cursor else None
  }

  /** The first row of the window: as the last `ready` gave it, else as the restored cursor did. */
  ghost function WindowStart(cursor: Option<Cursor>, now: int, steps: seq<Step>): int {
    var ready := LastReady(Initial(cursor, now), steps);
    if ready.Some? then ready.value.windowStartSeq
    else if CursorOf(cursor).Some? then cursor.value.windowStartSeq else 0
  }

  ghost function Epoch(cursor: Option<Cursor>, now: int, steps: seq<Step>): Option<int> {
    var ready := LastReady(Initial(cursor, now), steps);
    if ready.Some? then Some(ready.value.epoch)
    else if CursorOf(cursor).Some? then Some(cursor.value.epoch) else None
  }

  ghost function Resets(log: seq<Output>): nat {
    if log == [] then 0
    else Resets(log[..|log| - 1]) + if log[|log| - 1].ResetEvent? then 1 else 0
  }

  lemma {:induction false} ResetsSay(log: seq<Output>, o: Output)
    ensures Resets(log + [o]) == Resets(log) + if o.ResetEvent? then 1 else 0
  {
    assert (log + [o])[..|log|] == log;
  }

  /**
   * The first row this stream promised: the restored cursor plus one, or the
   * start of the window in force when the client last held no position, be it
   * before a step or because it reset in the middle of one.
   */
  ghost function Promised(cursor: Option<Cursor>, now: int, steps: seq<Step>): int
    decreases |steps|
  {
    if steps == [] then if CursorOf(cursor).Some? then cursor.value.lastSeq + 1 else 0
    else
      var before := steps[..|steps| - 1];
      var s, t := Run(Initial(cursor, now), before), Run(Initial(cursor, now), steps);
      if s.lastSeq < 0 || Resets(t.log) > Resets(s.log) then WindowStart(cursor, now, before)
      else Promised(cursor, now, before)
  }

  /** From `s` to `t` the window and the epoch stand, and so does the start unless the position was lost. */
  ghost predicate Continues(s: State, t: State) {
    && t.windowStartSeq == s.windowStartSeq && t.epoch == s.epoch && Resets(t.log) >= Resets(s.log)
    && if s.lastSeq < 0 || Resets(t.log) > Resets(s.log) then t.lastSeq >= 0 ==> t.origin == s.windowStartSeq
       else t.lastSeq >= 0 && t.origin == s.origin
  }

  lemma {:induction false} ContinuesOn(s: State, t: State, u: State)
    requires Continues(s, t) && Continues(t, u)
    ensures Continues(s, u)
  {
  }

  /** One more output and nothing else the start depends on. */
  lemma {:induction false} Says(s: State, t: State)
    requires t.windowStartSeq == s.windowStartSeq && t.epoch == s.epoch && t.lastSeq == s.lastSeq
             && t.origin == s.origin
    requires t.log == s.log || (|t.log| == |s.log| + 1 && t.log[..|s.log|] == s.log && !t.log[|s.log|].ResetEvent?)
    ensures Continues(s, t)
  {
    if t.log != s.log {
      ResetsSay(s.log, t.log[|s.log|]);
      assert t.log == s.log + [t.log[|s.log|]];
    }
  }

  lemma {:induction false} ResetContinues(s: State, reason: ResetReason)
    ensures Continues(s, ResetStream(s, reason)) && Continues(s, ForceReconnect(ResetStream(s, reason)))
  {
    hide Resets;
    ResetsSay(s.log, ResetEvent(reason));
    Says(ResetStream(s, reason), ForceReconnect(ResetStream(s, reason)));
  }

  lemma {:induction false} GapContinues(s: State, throughSeq: int, io: Io)
    ensures Continues(s, RequestGap(s, throughSeq, io).s)
  {
    hide BackfillBudgets.Take, Resets, Continues;
    Says(s, RequestGap(s, throughSeq, io).s);
  }

  lemma {:induction false} CollectContinues(p: Placing, r: Record, io: Io)
    ensures Continues(p.s, Collect(p, r, io).s)
  {
    hide RequestGap, ResetStream, ForceReconnect, Resets;
    var s := Adopt(p.s);
    assert Continues(p.s, s);
    if r.seqNo > s.lastSeq + 1 {
      if |s.ahead| >= MAX_BUFFERED_AHEAD {
        ResetContinues(s, WindowReset);
      } else {
        GapContinues(s.(ahead := s.ahead[r.seqNo := r]), r.seqNo - 1, io);
      }
    } else if r.seqNo == s.lastSeq + 1 {
      Drains(Placing(s.(lastSeq := r.seqNo), p.applied + [r]));
    }
  }

  lemma {:induction false} CollectAllContinues(p: Placing, rows: seq<Record>, io: Io)
    ensures Continues(p.s, CollectAll(p, rows, io).s)
    decreases |rows|
  {
    hide Collect;
    if rows != [] {
      var n := |rows| - 1;
      CollectAllContinues(p, rows[..n], io);
      CollectContinues(CollectAll(p, rows[..n], io), rows[n], io);
    }
  }

  lemma {:induction false} FailContinues(s: State)
    ensures Continues(s, FailGapRecovery(s))
  {
    hide Resets, Continues;
    Says(s, FailGapRecovery(s));
  }

  lemma {:induction false} RetryContinues(s: State, throughSeq: int, io: Io)
    ensures Continues(s, RetryOrFail(s, throughSeq, io))
  {
    hide RequestGap, FailGapRecovery, Resets, Continues;
    var asked := RequestGap(s, throughSeq, io).s;
    Says(s, s);
    GapContinues(s, throughSeq, io);
    FailContinues(asked);
    ContinuesOn(s, asked, FailGapRecovery(asked));
  }

  lemma {:induction false} RepairContinues(s: State, f: BackfillFrame, io: Io)
    ensures Continues(s, HandleRepair(s, f, io))
  {
    hide AfterRows, RetryOrFail, FailGapRecovery, Resets, Continues, ThroughSeq;
    AfterContinues(s, f.records, io);
    var t := AfterRows(s, f.records, io);
    var through := ThroughSeq(t, f.toSeq);
    var next := t.(noProgress := if t.lastSeq >= through || t.lastSeq > s.lastSeq then 0 else t.noProgress + 1);
    Says(t, next);
    FailContinues(next);
    RetryContinues(next, through, io);
    ContinuesOn(s, t, next);
    ContinuesOn(s, next, FailGapRecovery(next));
    ContinuesOn(s, next, RetryOrFail(next, through, io));
  }

  lemma {:induction false} AfterContinues(s: State, rows: seq<Record>, io: Io)
    ensures Continues(s, AfterRows(s, rows, io))
  {
    hide CollectAll, Resets, Continues;
    var p := Placing(s.(gapPending := false), []);
    var q := CollectAll(p, rows, io);
    CollectAllContinues(p, rows, io);
    Says(s, p.s);
    Says(q.s, Flush(q));
    ContinuesOn(s, p.s, q.s);
    ContinuesOn(s, q.s, Flush(q));
  }

  lemma {:induction false} OlderContinues(s: State, f: BackfillFrame, io: Io)
    requires f.requestId in s.older
    ensures Continues(s, HandleOlderReply(s, f, io))
  {
    hide BackfillBudgets.Take, AtOrAfter, LastSeqOf, Continues;
    var request := s.older[f.requestId];
    var t := s.(older := s.older - {f.requestId});
    var records := request.records + AtOrAfter(f.records, request.nextSeq);
    var last := LastSeqOf(records, request.nextSeq - 1);
    var asked := ContinueOlder(t, request, records, last + 1, io);
    Says(s, asked.s);
    if !asked.ok {
      Says(s, Say(asked.s, OlderEvent(records, f.complete && last >= request.toSeq, request.fromSeq, request.toSeq)));
    }
    Says(s, Say(t, OlderEvent(records, f.complete && last >= request.toSeq, request.fromSeq, request.toSeq)));
  }

  /** A `ready` brings its window and epoch, and leaves no position or the one there was. */
  lemma {:induction false} ReadyKeepsOrClears(s: State, f: ReadyFrame)
    ensures var t := HandleReady(s, f);
            && t.windowStartSeq == f.windowStartSeq && t.epoch == Some(f.epoch)
            && (t.lastSeq == -1 || (t.lastSeq == s.lastSeq && t.origin == s.origin && Resets(t.log) == Resets(s.log)))
  {
    hide Resets;
    var t := HandleReady(s, f);
    if t.lastSeq != -1 { ResetsSay(s.log, ReadyEvent(f)); }
  }

  lemma {:induction false} RecordContinues(s: State, r: Record, io: Io)
    ensures Continues(s, HandleRecord(s, r, io))
  {
    hide Collect, Resets, Continues;
    var q := Collect(Placing(s, []), r, io);
    CollectContinues(Placing(s, []), r, io);
    Says(q.s, Flush(q));
    ContinuesOn(s, q.s, Flush(q));
  }

  lemma {:induction false} TimerContinues(s: State, io: Io)
    ensures Continues(s, GraceTimer(s, io))
  {
    hide BackfillBudgets.Take, Resets, Continues;
    Says(s, GraceTimer(s, io));
  }

  lemma {:induction false} WantedContinues(s: State, fromSeq: int, toSeq: int, io: Io)
    ensures Continues(s, RequestOlderRange(s, fromSeq, toSeq, io).s)
  {
    hide BackfillBudgets.Take, Resets, Continues;
    Says(s, RequestOlderRange(s, fromSeq, toSeq, io).s);
  }

  /** Opening, closing, reconnecting and retrying. */
  lemma {:induction false} LinkContinues(s: State, step: Step)
    requires step.input.Opened? || step.input.GapIn? || step.input.Closed? || step.input.ProbeTimeout?
             || step.input.RetryPressed? || step.input.Stopped? || !s.attached
    requires !step.input.GraceDue? && !step.input.OlderWanted?
    ensures Continues(s, Apply(s, step))
  {
    hide HandleRecord, HandleBackfill, HandleReady, GraceTimer, RequestOlderRange, Resets, ResetStream, Continues;
    Says(s, Apply(s, step));
  }

  lemma {:induction false} StepContinues(s: State, step: Step)
    requires step.input.ReadyIn? ==> !s.attached
    ensures Continues(s, Apply(s, step))
  {
    hide HandleRepair, HandleOlderReply, HandleRecord, GraceTimer, RequestOlderRange,
         ResetStream, HandleClose, ForceReconnect, Retry,
         HandleReady, Continues;
    match step.input
    case RecordIn(r) => if s.attached { RecordContinues(s, r, step.io); } else { LinkContinues(s, step); }
    case BackfillIn(f) =>
      if !s.attached { LinkContinues(s, step); }
      else if f.requestId in s.older { OlderContinues(s, f, step.io); }
      else { RepairContinues(s, f, step.io); }
    case ResetIn(reason) => if s.attached { ResetContinues(s, reason); } else { LinkContinues(s, step); }
    case GraceDue => TimerContinues(s, step.io);
    case OlderWanted(a, b) => WantedContinues(s, a, b, step.io);
    case _ => LinkContinues(s, step);
  }

  lemma {:induction false} ReadyApplies(s: State, step: Step)
    requires step.input.ReadyIn? && s.attached
    ensures Apply(s, step) == HandleReady(s, step.input.ready)
  {
  }

  /**
   * After any run the client stands on the last window and epoch it was given,
   * and its stream starts where promised.
   */
  lemma {:induction false} StartIsPromised(cursor: Option<Cursor>, now: int, steps: seq<Step>)
    ensures var s := Run(Initial(cursor, now), steps);
            && s.windowStartSeq == WindowStart(cursor, now, steps) && s.epoch == Epoch(cursor, now, steps)
            && (s.lastSeq >= 0 ==> s.origin == Promised(cursor, now, steps))
    decreases |steps|
  {
    hide Apply, Resets, HandleReady;
    if steps != [] {
      var before, step := steps[..|steps| - 1], steps[|steps| - 1];
      assert before + [step] == steps;
      var s0 := Initial(cursor, now);
      StartIsPromised(cursor, now, before);
      RunStep(s0, before, step);
      var s := Run(s0, before);
      if step.input.ReadyIn? && s.attached {
        assert Run(s0, steps) == HandleReady(s, step.input.ready) by { ReadyApplies(s, step); }
        ReadyKeepsOrClears(s, step.input.ready);
      } else {
        StepContinues(s, step);
      }
    }
  }
}
