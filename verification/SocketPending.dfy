/** The mark of a pending repair: what sets it, what clears it, and when it is set with nothing to wait for. */
module SocketPending {
  import opened Options
  import opened Ints
  import opened JournalRecords
  import opened SocketSpec
  import opened SocketStart
  import opened BackfillBudgets

  /** The repair and resume requests sent, in order. */
  ghost function Requests(log: seq<Output>): seq<Output> {
    if log == [] then []
    else
      var last := log[|log| - 1];
      Requests(log[..|log| - 1]) + if last.Sent? && last.requestId.prefix == 'g' then [last] else []
  }

  lemma {:induction false} RequestsSay(log: seq<Output>, o: Output)
    ensures Requests(log + [o]) == Requests(log) + if o.Sent? && o.requestId.prefix == 'g' then [o] else []
  {
    assert (log + [o])[..|log|] == log;
  }

  lemma {:induction false} RequestsAreSent(log: seq<Output>)
    ensures forall o :: o in Requests(log) ==> o.Sent?
    decreases |log|
  {
    if log != [] { RequestsAreSent(log[..|log| - 1]); }
  }

  /** At most one output more, and no repair request. */
  lemma {:induction false} SaysNoRequest(s: State, t: State)
    requires t.log == s.log
             || (|t.log| == |s.log| + 1 && t.log[..|s.log|] == s.log
                 && (t.log[|s.log|].Sent? ==> t.log[|s.log|].requestId.prefix != 'g'))
    ensures Requests(t.log) == Requests(s.log)
  {
    if t.log != s.log {
      assert t.log == s.log + [t.log[|s.log|]];
      RequestsSay(s.log, t.log[|s.log|]);
    }
  }

  /** A reply that is not for scrollback is taken for the repair's. */
  ghost predicate RepairReply(s: State, step: Step) {
    s.attached && step.input.BackfillIn? && step.input.backfill.requestId !in s.older
  }

  /** A `ready` on the same epoch whose window and head the cursor can still reach. */
  ghost predicate Resumes(s: State, f: ReadyFrame) {
    && (s.epoch.None? || s.epoch.value == f.epoch)
    && (s.lastSeq >= 0 ==> f.windowStartSeq <= s.lastSeq + 1 && f.headSeq - s.lastSeq <= MAX_CATCHUP_RESUME_RECORDS)
  }

  /** A reset of the stream or a close of the socket. */
  ghost predicate Releases(s: State, step: Step) {
    s.attached &&
    match step.input
    case ReadyIn(f) => !Resumes(s, f)
    case RecordIn(r) => Overflows(s, r)
    case ResetIn(_) => true
    case Closed(_) => true
    case _ => false
  }

  /** The resume timer wants rows and has a token, but no socket takes the request. */
  ghost predicate ResumeUnsent(s: State, step: Step) {
    var from := if s.lastSeq >= 0 then s.lastSeq + 1 else IntMax(s.floorSeq, s.headSeq - INITIAL_WINDOW_RECORDS + 1);
    && step.input.GraceDue? && s.graceArmed && !s.gapPending && s.lastSeq < s.headSeq && from <= s.headSeq
    && Take(s.budget, step.io.now, 0).granted && !(s.attached && step.io.open)
  }

  // ------------------------------------------------------------------- one step

  lemma {:induction false} GapPending(s: State, throughSeq: int, io: Io)
    ensures var t := RequestGap(s, throughSeq, io).s;
            && (!s.gapPending && t.gapPending ==> AsksOnce(s, t))
            && (!t.gapPending ==> Requests(t.log) == Requests(s.log))
  {
    hide Take, Requests;
    var t := RequestGap(s, throughSeq, io).s;
    if t.log != s.log { RequestsSay(s.log, t.log[|s.log|]); }
  }

  /** From `s` to `t` a repair was asked for, by one more request on the live socket. */
  ghost predicate AsksOnce(s: State, t: State) {
    t.attached && exists o: Output :: Requests(t.log) == Requests(s.log) + [o] && o.Sent?
  }

  lemma {:induction false} CollectPending(p: Placing, r: Record, io: Io)
    ensures var s, t := p.s, Collect(p, r, io).s;
            if Overflows(s, r) then !t.gapPending && !t.attached && Requests(t.log) == Requests(s.log)
            else
              && t.attached == s.attached && t.stopped == s.stopped
              && (s.gapPending ==> t.gapPending && Requests(t.log) == Requests(s.log))
              && (!s.gapPending && t.gapPending ==> AsksOnce(s, t))
              && (!t.gapPending ==> Requests(t.log) == Requests(s.log))
  {
    hide RequestGap, Requests;
    var s := Adopt(p.s);
    if r.seqNo > s.lastSeq + 1 {
      if Overflows(p.s, r) {
        ResetPending(s, WindowReset);
      } else {
        GapPending(s.(ahead := s.ahead[r.seqNo := r]), r.seqNo - 1, io);
        GapFrame(s.(ahead := s.ahead[r.seqNo := r]), r.seqNo - 1, io);
      }
    } else if r.seqNo == s.lastSeq + 1 {
      Drains(Placing(s.(lastSeq := r.seqNo), p.applied + [r]));
    }
  }

  lemma {:induction false} FlushPending(p: Placing)
    ensures var t := Flush(p);
            t.gapPending == p.s.gapPending && t.attached == p.s.attached && Requests(t.log) == Requests(p.s.log)
  {
    hide Requests;
    SaysNoRequest(p.s, Flush(p));
  }

  lemma {:induction false} RecordPending(s: State, r: Record, io: Io)
    ensures var t := HandleRecord(s, r, io);
            if Overflows(s, r) then !t.gapPending && !t.attached && Requests(t.log) == Requests(s.log)
            else
              && t.attached == s.attached
              && (s.gapPending ==> t.gapPending && Requests(t.log) == Requests(s.log))
              && (!s.gapPending && t.gapPending ==> AsksOnce(s, t))
              && (!t.gapPending ==> Requests(t.log) == Requests(s.log))
  {
    hide Requests, Collect, Flush, Overflows;
    CollectPending(Placing(s, []), r, io);
    FlushPending(Collect(Placing(s, []), r, io));
  }

  lemma {:induction false} ResetPending(s: State, reason: ResetReason)
    ensures var t := ResetStream(s, reason);
            Requests(t.log) == Requests(s.log) && !t.gapPending && t.attached == s.attached && t.lastSeq == -1
    ensures var u := ForceReconnect(ResetStream(s, reason));
            Requests(u.log) == Requests(s.log) && !u.gapPending && !u.attached
  {
    hide Requests;
    var t := ResetStream(s, reason);
    SaysNoRequest(s, t);
    SaysNoRequest(t, ForceReconnect(t));
  }

  lemma {:induction false} CursorPending(s: State, f: ReadyFrame)
    ensures var t := ReadyCursor(s, f);
            var kept := (s.epoch.None? || s.epoch.value == f.epoch)
              && (s.lastSeq >= 0 ==> f.windowStartSeq <= s.lastSeq + 1);
            Requests(t.log) == Requests(s.log) && t.attached == s.attached && t.gapPending == (s.gapPending && kept)
            && t.lastSeq == if kept then s.lastSeq else -1
  {
    hide Requests, ResetStream;
    var u :=
      s.(headSeq := f.headSeq, windowStartSeq := f.windowStartSeq, floorSeq := f.floorSeq, epoch := Some(f.epoch));
    ResetPending(u, EpochReset);
    ResetPending(u, WindowReset);
  }

  lemma {:induction false} ReadyPending(s: State, f: ReadyFrame)
    ensures var t := HandleReady(s, f);
            Requests(t.log) == Requests(s.log) && (t.gapPending <==> s.gapPending && Resumes(s, f))
            && (t.attached ==> s.attached) && (Resumes(s, f) ==> t.attached == s.attached)
  {
    hide Requests, ReadyCursor, ResetStream, ForceReconnect;
    var c := ReadyCursor(s, f);
    CursorPending(s, f);
    ResetPending(c, WindowReset);
    SaysNoRequest(c, ArmResumeGrace(Say(c, ReadyEvent(f))));
  }

  lemma {:induction false} TimerPending(s: State, step: Step)
    requires step.input.GraceDue?
    ensures var t := GraceTimer(s, step.io);
            && t.attached == s.attached
            && (s.gapPending ==> t.gapPending && Requests(t.log) == Requests(s.log))
            && (!s.gapPending && t.gapPending ==> ResumeUnsent(s, step) || AsksOnce(s, t))
            && (!t.gapPending || ResumeUnsent(s, step) ==> Requests(t.log) == Requests(s.log))
            && (ResumeUnsent(s, step) ==> t.gapPending)
  {
    hide Take, Requests;
    var t := GraceTimer(s, step.io);
    if t.log != s.log { RequestsSay(s.log, t.log[|s.log|]); }
  }

  lemma {:induction false} WantedPending(s: State, fromSeq: int, toSeq: int, io: Io)
    ensures var t := RequestOlderRange(s, fromSeq, toSeq, io).s;
            t.gapPending == s.gapPending && t.attached == s.attached && Requests(t.log) == Requests(s.log)
  {
    hide Take, Requests;
    SaysNoRequest(s, RequestOlderRange(s, fromSeq, toSeq, io).s);
  }

  lemma {:induction false} ContinuePending(s: State, request: OlderRequest, records: seq<Record>, fromSeq: int, io: Io)
    ensures var t := ContinueOlder(s, request, records, fromSeq, io).s;
            t.gapPending == s.gapPending && t.attached == s.attached && Requests(t.log) == Requests(s.log)
  {
    hide Take, Requests;
    SaysNoRequest(s, ContinueOlder(s, request, records, fromSeq, io).s);
  }

  lemma {:induction false} OlderPending(s: State, f: BackfillFrame, io: Io)
    requires f.requestId in s.older
    ensures var t := HandleOlderReply(s, f, io);
            t.gapPending == s.gapPending && t.attached == s.attached && Requests(t.log) == Requests(s.log)
  {
    hide ContinueOlder, Requests, AtOrAfter, LastSeqOf;
    var request := s.older[f.requestId];
    var t := s.(older := s.older - {f.requestId});
    var records := request.records + AtOrAfter(f.records, request.nextSeq);
    var last := LastSeqOf(records, request.nextSeq - 1);
    var answer := OlderEvent(records, f.complete && last >= request.toSeq, request.fromSeq, request.toSeq);
    ContinuePending(t, request, records, last + 1, io);
    var asked := ContinueOlder(t, request, records, last + 1, io);
    SaysNoRequest(asked.s, Say(asked.s, answer));
    SaysNoRequest(t, Say(t, answer));
  }

  /** What every step but a repair reply makes of the mark. */
  ghost predicate Marks(s: State, step: Step, t: State) {
    && (t.attached ==> s.attached || step.input.Opened?)
    && (s.gapPending ==> (t.gapPending <==> !Releases(s, step)) && Requests(t.log) == Requests(s.log))
    && (!s.gapPending && t.gapPending ==> ResumeUnsent(s, step) || AsksOnce(s, t))
    && (!t.gapPending || ResumeUnsent(s, step) ==> Requests(t.log) == Requests(s.log))
    && (ResumeUnsent(s, step) ==> t.gapPending && t.attached == s.attached)
    && (Releases(s, step) ==> !t.gapPending)
  }

  lemma {:induction false} LinkMarks(s: State, step: Step)
    requires !s.attached || step.input.Opened? || step.input.GapIn? || step.input.ResetIn? || step.input.Closed?
             || step.input.ProbeTimeout? || step.input.RetryPressed? || step.input.Stopped?
    requires !step.input.GraceDue? && !step.input.OlderWanted?
    ensures Marks(s, step, Apply(s, step))
  {
    hide Requests, HandleReady, HandleRecord, HandleBackfill, GraceTimer, RequestOlderRange, AsksOnce;
    SaysNoRequest(s, Apply(s, step));
  }

  /**
   * Except by a repair reply, a pending mark is cleared exactly by a reset or
   * a close, and while it stands no repair is asked for; it is set exactly by
   * asking for one, or by a resume timer whose request no socket took.
   */
  lemma {:induction false} PendingClearsIff(s: State, step: Step)
    requires !RepairReply(s, step)
    ensures Marks(s, step, Apply(s, step))
  {
    hide Requests, HandleReady, HandleRecord, HandleRepair, HandleOlderReply, GraceTimer,
         RequestOlderRange, Resumes, Overflows, AsksOnce,
         ResetStream, HandleClose, ForceReconnect, Retry;
    match step.input
    case ReadyIn(f) => if s.attached { ReadyPending(s, f); } else { LinkMarks(s, step); }
    case RecordIn(r) => if s.attached { RecordPending(s, r, step.io); } else { LinkMarks(s, step); }
    case BackfillIn(f) => if s.attached { OlderPending(s, f, step.io); } else { LinkMarks(s, step); }
    case GraceDue => TimerPending(s, step);
    case OlderWanted(a, b) => WantedPending(s, a, b, step.io);
    case _ => LinkMarks(s, step);
  }

  // ------------------------------------------------------------- a repair reply

  /** Since `s` nothing sent is forgotten, and a pending mark means a new request on the live socket. */
  ghost predicate Asking(s: State, t: State) {
    Requests(s.log) <= Requests(t.log) && (t.gapPending ==> t.attached && |Requests(t.log)| > |Requests(s.log)|)
    && (t.attached ==> s.attached)
  }

  lemma {:induction false} CollectAsking(s: State, p: Placing, r: Record, io: Io)
    requires Asking(s, p.s)
    ensures Asking(s, Collect(p, r, io).s)
  {
    hide Requests, Collect, Overflows;
    CollectPending(p, r, io);
  }

  lemma {:induction false} CollectAllAsking(s: State, p: Placing, rows: seq<Record>, io: Io)
    requires Asking(s, p.s)
    ensures Asking(s, CollectAll(p, rows, io).s)
    decreases |rows|
  {
    hide Asking, Collect;
    if rows != [] {
      var n := |rows| - 1;
      CollectAllAsking(s, p, rows[..n], io);
      CollectAsking(s, CollectAll(p, rows[..n], io), rows[n], io);
    }
  }

  lemma {:induction false} RetryAsking(s: State, t: State, throughSeq: int, io: Io)
    requires Asking(s, t)
    ensures Asking(s, RetryOrFail(t, throughSeq, io))
  {
    hide Requests, RequestGap;
    GapPending(t, throughSeq, io);
    GapFrame(t, throughSeq, io);
    var asked := RequestGap(t, throughSeq, io).s;
    SaysNoRequest(asked, FailGapRecovery(asked));
  }

  /** After a repair reply the mark stands only for a request the reply itself led to. */
  lemma {:induction false} ReplyAsks(s: State, f: BackfillFrame, io: Io)
    requires s.attached
    ensures Asking(s, HandleRepair(s, f, io))
  {
    hide Requests, CollectAll, Flush, RetryOrFail, ThroughSeq;
    var p := Placing(s.(gapPending := false), []);
    var q := CollectAll(p, f.records, io);
    CollectAllAsking(s, p, f.records, io);
    FlushPending(q);
    var t := Flush(q);
    var through := ThroughSeq(t, f.toSeq);
    var next := t.(noProgress := if t.lastSeq > s.lastSeq then 0 else t.noProgress + 1);
    RetryAsking(s, next, through, io);
    SaysNoRequest(next, FailGapRecovery(next));
  }

  // ------------------------------------------------------------------- over runs

  /** The repair requests sent on the present socket that no reply has come to. */
  ghost function Unanswered(s0: State, steps: seq<Step>): set<RequestId>
    decreases |steps|
  {
    if steps == [] then {}
    else
      var before, step := steps[..|steps| - 1], steps[|steps| - 1];
      var s, t := Run(s0, before), Run(s0, steps);
      if !t.attached then {}
      else
        (if RepairReply(s, step) then Unanswered(s0, before) - {step.input.backfill.requestId}
         else Unanswered(s0, before))
        + NewIds(Requests(s.log), Requests(t.log))
  }

  ghost function NewIds(before: seq<Output>, after: seq<Output>): set<RequestId> {
    set i | |before| <= i < |after| && after[i].Sent? :: after[i].requestId
  }

  /**
   * Since the mark last stood for a request that could be answered, the socket
   * was dropped without a close, or the resume timer's request was never sent;
   * and no reply, reset or close has come since.
   */
  ghost predicate Stranded(s0: State, steps: seq<Step>)
    decreases |steps|
  {
    steps != [] &&
    var before, step := steps[..|steps| - 1], steps[|steps| - 1];
    var s, t := Run(s0, before), Run(s0, steps);
    if Releases(s, step) || RepairReply(s, step) then false
    else if ResumeUnsent(s, step) then Unanswered(s0, before) == {}
    else (s.gapPending && s.attached && !t.attached) || Stranded(s0, before)
  }

  lemma {:induction false} DetachedAsksNothing(s0: State, steps: seq<Step>)
    requires !s0.attached
    ensures !Run(s0, steps).attached ==> Unanswered(s0, steps) == {}
  {
  }

  /** The mark is set with no request outstanding exactly when the run has stranded the repair. */
  lemma {:induction false} StrandedIff(cursor: Option<Cursor>, now: int, steps: seq<Step>)
    ensures var s0 := Initial(cursor, now);
            Run(s0, steps).gapPending && Unanswered(s0, steps) == {} <==> Stranded(s0, steps)
    decreases |steps|
  {
    hide Requests, Apply, Releases, ResumeUnsent, AsksOnce, RepairReply;
    var s0 := Initial(cursor, now);
    if steps != [] {
      var before, step := steps[..|steps| - 1], steps[|steps| - 1];
      assert before + [step] == steps;
      StrandedIff(cursor, now, before);
      RunStep(s0, before, step);
      DetachedAsksNothing(s0, before);
      StrandedStep(s0, before, step);
    }
  }

  lemma {:induction false} StrandedStep(s0: State, before: seq<Step>, step: Step)
    requires Run(s0, before + [step]) == Apply(Run(s0, before), step)
    requires !Run(s0, before).attached ==> Unanswered(s0, before) == {}
    requires Run(s0, before).gapPending && Unanswered(s0, before) == {} <==> Stranded(s0, before)
    ensures var steps := before + [step];
            Run(s0, steps).gapPending && Unanswered(s0, steps) == {} <==> Stranded(s0, steps)
  {
    hide Requests, Apply, Releases, ResumeUnsent, Run;
    var steps := before + [step];
    var s, t := Run(s0, before), Run(s0, steps);
    assert steps[..|steps| - 1] == before && steps[|steps| - 1] == step;
    if RepairReply(s, step) {
      ReplyApplies(s, step);
      ReplyAsks(s, step.input.backfill, step.io);
      RequestsAreSent(t.log);
      if t.gapPending {
        assert Requests(t.log)[|Requests(s.log)|].requestId in NewIds(Requests(s.log), Requests(t.log));
      }
    } else {
      PendingClearsIff(s, step);
      if AsksOnce(s, t) {
        assert Requests(t.log)[|Requests(s.log)|].requestId in NewIds(Requests(s.log), Requests(t.log));
      }
    }
  }

  lemma {:induction false} ReplyApplies(s: State, step: Step)
    requires RepairReply(s, step)
    ensures Apply(s, step) == HandleRepair(s, step.input.backfill, step.io)
  {
    hide HandleRepair;
  }

  /** The server answers only what was asked on the present socket. */
  ghost predicate AnswersOnly(s0: State, before: seq<Step>, after: seq<Step>) {
    forall k: nat :: k < |after| && RepairReply(Run(s0, before + after[..k]), after[k]) ==>
      after[k].input.backfill.requestId in Unanswered(s0, before + after[..k])
  }

  /** No reset and no close comes. */
  ghost predicate NoRelease(s0: State, before: seq<Step>, after: seq<Step>) {
    forall k: nat :: k < |after| ==> !Releases(Run(s0, before + after[..k]), after[k])
  }

  /**
   * A stranded repair stays stranded, and unasked for, exactly as long as no
   * reset and no close comes: through live rows, reconnects, timers, retries,
   * stops and scrollback the mark stays and no repair is requested. Missing
   * rows can still come unasked, if the server replays them.
   */
  lemma {:induction false} LostRepairStaysLost(cursor: Option<Cursor>, now: int, before: seq<Step>, after: seq<Step>)
    requires Stranded(Initial(cursor, now), before) && AnswersOnly(Initial(cursor, now), before, after)
    ensures var s0 := Initial(cursor, now);
            (forall k :: 0 <= k <= |after| ==> Stranded(s0, before + after[..k])) <==> NoRelease(s0, before, after)
    ensures var s0 := Initial(cursor, now);
            NoRelease(s0, before, after) ==> Run(s0, before + after).gapPending
                                             && Requests(Run(s0, before + after).log) == Requests(Run(s0, before).log)
    decreases |after|
  {
    hide Requests, Apply, Run, Stranded, Unanswered, Releases, RepairReply, Initial;
    var s0 := Initial(cursor, now);
    StrandedIff(cursor, now, before);
    assert before + [] == before;
    if after == [] {
      assert before + after == before;
      assert forall k :: 0 <= k <= |after| ==> before + after[..k] == before;
    } else {
      var n := |after| - 1;
      var front, step := after[..n], after[n];
      assert forall k :: 0 <= k <= n ==> front[..k] == after[..k];
      assert before + after == (before + front) + [step] && after[..|after|] == after;
      LostRepairStaysLost(cursor, now, before, front);
      assert NoRelease(s0, before, after) <==> NoRelease(s0, before, front) && !Releases(Run(s0, before + front), step);
      if NoRelease(s0, before, front) {
        assert Stranded(s0, before + front[..n]);
        LostStep(cursor, now, before + front, step);
      }
    }
  }

  lemma {:induction false} LostStep(cursor: Option<Cursor>, now: int, steps: seq<Step>, step: Step)
    requires var s0 := Initial(cursor, now);
             Stranded(s0, steps)
               && (RepairReply(Run(s0, steps), step) ==> step.input.backfill.requestId in Unanswered(s0, steps))
    ensures var s0 := Initial(cursor, now); var s, t := Run(s0, steps), Run(s0, steps + [step]);
            (Stranded(s0, steps + [step]) <==> !Releases(s, step)) && Requests(t.log) == Requests(s.log)
            && (Stranded(s0, steps + [step]) ==> t.gapPending)
  {
    hide Requests, Apply, Run, Releases, ResumeUnsent, Initial, Unanswered, AsksOnce, RepairReply;
    var s0 := Initial(cursor, now);
    StrandedIff(cursor, now, steps);
    StrandedIff(cursor, now, steps + [step]);
    RunStep(s0, steps, step);
    var s := Run(s0, steps);
    PendingClearsIff(s, step);
    assert (steps + [step])[..|steps|] == steps;
    assert !ResumeUnsent(s, step) by { WaitingNeedsNoResume(s, step); }
  }

  lemma {:induction false} WaitingNeedsNoResume(s: State, step: Step)
    requires s.gapPending
    ensures !ResumeUnsent(s, step)
  {
  }

  // -------------------------------------------------------------------- a witness

  /** Online with rows to fetch; the resume timer finds the socket as `open` says, and the socket then goes silent. */
  ghost function Stranding(now: int, open: bool): seq<Step> {
    var io := Io(now, true);
    var ready := ReadyIn(ReadyFrame(0, 5, 0, 0));
    [Step(RetryPressed, io), Step(Opened, io), Step(ready, io), Step(GraceDue, Io(now, open)),
     Step(ProbeTimeout, io), Step(Opened, io), Step(ready, io), Step(GraceDue, io)]
  }

  /**
   * Such a run from a new client ends attached, running and behind its head,
   * waiting for a request that was lost with its socket, or was never sent at
   * all, with nothing outstanding.
   */
  lemma {:induction false} StrandingHappens(now: int, open: bool)
    ensures var s0 := Initial(None, now); var s := Run(s0, Stranding(now, open));
            && s.attached && !s.stopped && s.lastSeq < s.headSeq && s.gapPending
            && Requests(s.log) == (if open then [Sent(RequestId('g', 1), 0, 5)] else [])
            && Stranded(s0, Stranding(now, open))
  {
    hide Requests, Unanswered, Stranded, Apply, Run, Initial, Resumes, AsksOnce;
    var s0 := Initial(None, now);
    var steps := Stranding(now, open);
    StrandedMidway(now, open);
    forall k | 5 <= k < 8 ensures !RepairReply(Run(s0, steps[..k]), steps[k]) {}
    NextStep(s0, steps, 5);
    NextStep(s0, steps, 6);
    NextStep(s0, steps, 7);
    BackOnline(Run(s0, steps[..5]), steps[5], steps[6], steps[7]);
    LostStep(None, now, steps[..5], steps[5]);
    LostStep(None, now, steps[..6], steps[6]);
    LostStep(None, now, steps[..7], steps[7]);
    assert steps[..8] == steps;
  }

  lemma {:induction false} NextStep(s: State, steps: seq<Step>, k: nat)
    requires k < |steps|
    ensures steps[..k + 1] == steps[..k] + [steps[k]] && Run(s, steps[..k + 1]) == Apply(Run(s, steps[..k]), steps[k])
  {
    hide Apply, Run;
    assert steps[..k + 1] == steps[..k] + [steps[k]];
    RunStep(s, steps[..k], steps[k]);
  }

  /** Reconnected on the same epoch, the client finds the mark set and leaves it. */
  lemma {:induction false} BackOnline(s: State, online: Step, ready: Step, due: Step)
    requires !s.stopped && !s.attached && s.lastSeq == -1 && s.epoch == Some(0) && s.gapPending
    requires online.input.Opened? && ready.input == ReadyIn(ReadyFrame(0, 5, 0, 0)) && due.input.GraceDue?
    ensures var t := Apply(s, online); var u := Apply(t, ready); var v := Apply(u, due);
            && v.attached && !v.stopped && v.lastSeq < v.headSeq
            && !Releases(s, online) && !Releases(t, ready) && !Releases(u, due)
  {
    hide Take;
  }

  lemma {:induction false} StrandedMidway(now: int, open: bool)
    ensures var s0 := Initial(None, now); var s := Run(s0, Stranding(now, open)[..5]);
            && !s.stopped && !s.attached && s.lastSeq == -1 && s.epoch == Some(0) && s.gapPending
            && Requests(s.log) == (if open then [Sent(RequestId('g', 1), 0, 5)] else [])
            && Stranded(s0, Stranding(now, open)[..5])
  {
    hide Requests, Unanswered, Run, Apply, Releases, ResumeUnsent, Take;
    var s0 := Initial(None, now);
    var steps := Stranding(now, open);
    assert steps[..0] == [];
    assert Run(s0, steps[..0]) == s0 by { NoSteps(s0); }
    NextStep(s0, steps, 0);
    NextStep(s0, steps, 1);
    NextStep(s0, steps, 2);
    NextStep(s0, steps, 3);
    NextStep(s0, steps, 4);
    var s3 := Run(s0, steps[..3]);
    ThreeSteps(s0, now, steps[0], steps[1], steps[2]);
    Dropped(s3, steps[3], steps[4]);
    assert steps[..5][..4] == steps[..4];
  }

  lemma {:induction false} NoSteps(s: State)
    ensures Run(s, []) == s
  {
  }

  lemma {:induction false} ThreeSteps(s: State, now: int, retry: Step, online: Step, ready: Step)
    requires s == Initial(None, now) && retry.input.RetryPressed? && online.input.Opened?
    requires ready.input == ReadyIn(ReadyFrame(0, 5, 0, 0))
    ensures var t := Apply(Apply(Apply(s, retry), online), ready);
            t == s.(attached := true, stopped := false, epoch := Some(0), headSeq := 5, graceArmed := true,
                    log := [Connecting, ReadyEvent(ReadyFrame(0, 5, 0, 0))])
  {
  }

  /** The timer of a client with rows to fetch sets the mark, whether or not its request goes out. */
  lemma {:induction false} Fires(s: State, io: Io)
    requires s == Initial(None, io.now).(
                    attached := true, stopped := false, epoch := Some(0), headSeq := 5, graceArmed := true,
                    log := [Connecting, ReadyEvent(ReadyFrame(0, 5, 0, 0))])
    ensures var t := GraceTimer(s, io);
            t == s.(graceArmed := false, gapPending := true, requestCounter := 1, budget := t.budget,
                    log := s.log + if io.open then [Sent(RequestId('g', 1), 0, 5)] else [])
  {
  }

  lemma {:induction false} FirstOutputs()
    ensures Requests([Connecting, ReadyEvent(ReadyFrame(0, 5, 0, 0))]) == []
  {
    assert Requests([]) == [];
    RequestsSay([], Connecting);
    RequestsSay([Connecting], ReadyEvent(ReadyFrame(0, 5, 0, 0)));
    assert [] + [Connecting] == [Connecting];
    assert [Connecting] + [ReadyEvent(ReadyFrame(0, 5, 0, 0))] == [Connecting, ReadyEvent(ReadyFrame(0, 5, 0, 0))];
  }

  lemma {:induction false} Dropped(s: State, due: Step, silent: Step)
    requires due.input.GraceDue? && silent.input.ProbeTimeout?
    requires s == Initial(None, due.io.now).(
                    attached := true, stopped := false, epoch := Some(0), headSeq := 5, graceArmed := true,
                    log := [Connecting, ReadyEvent(ReadyFrame(0, 5, 0, 0))])
    ensures var t := Apply(s, due); var u := Apply(t, silent);
            && t.gapPending && t.attached && !u.stopped && !u.attached && u.lastSeq == -1
               && u.epoch == Some(0) && u.gapPending
            && Requests(u.log) == (if due.io.open then [Sent(RequestId('g', 1), 0, 5)] else [])
            && !Releases(t, silent) && !RepairReply(t, silent) && !ResumeUnsent(t, silent)
  {
    hide GraceTimer, Requests, HandleReady, HandleRecord, HandleBackfill, Take;
    FirstOutputs();
    Fires(s, due.io);
    var t := GraceTimer(s, due.io);
    assert s.log + [] == s.log;
    RequestsSay(s.log, Sent(RequestId('g', 1), 0, 5));
    RequestsSay(t.log, Connecting);
  }
}
