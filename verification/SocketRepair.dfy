/** Gap repair: it ends, and every frame of it is paid for. */
module SocketRepair {
  import opened Options
  import opened Ints
  import opened JournalRecords
  import opened SocketSpec
  import opened BackfillBudgets

  /** How a repair reply is judged. */
  datatype Verdict = Resolved | Progressed | Stalled

  ghost function Judge(s: State, f: BackfillFrame, io: Io): Verdict {
    var t := AfterRows(s, f.records, io);
    if t.lastSeq >= ThroughSeq(t, f.toSeq) then Resolved
    else if t.lastSeq > s.lastSeq then Progressed
    else Stalled
  }

  ghost predicate NoOverflow(p: Placing, rows: seq<Record>, io: Io)
    decreases |rows|
  {
    rows == [] ||
    var n := |rows| - 1;
    NoOverflow(p, rows[..n], io) && !Overflows(CollectAll(p, rows[..n], io).s, rows[n])
  }

  /** The cursor never starts below the journal. */
  ghost predicate Grounded(s: State) { s.windowStartSeq >= 0 && s.lastSeq >= -1 }

  /** Same connection, same count of fruitless replies, cursor no lower. */
  ghost predicate Steady(s: State, t: State) {
    && t.lastSeq >= s.lastSeq && t.noProgress == s.noProgress
    && t.attached == s.attached && t.stopped == s.stopped
    && t.windowStartSeq == s.windowStartSeq && t.older == s.older
  }

  lemma RequestGapSteady(s: State, throughSeq: int, io: Io)
    ensures Steady(s, RequestGap(s, throughSeq, io).s) && RequestGap(s, throughSeq, io).s.lastSeq == s.lastSeq
  {
    hide Take;
  }

  lemma {:induction false} CollectSteady(p: Placing, r: Record, io: Io)
    requires Grounded(p.s) && !Overflows(p.s, r)
    ensures Steady(p.s, Collect(p, r, io).s)
  {
    hide RequestGap;
    var s := Adopt(p.s);
    if r.seqNo > s.lastSeq + 1 {
      RequestGapSteady(s.(ahead := s.ahead[r.seqNo := r]), r.seqNo - 1, io);
    } else if r.seqNo == s.lastSeq + 1 {
      Drains(Placing(s.(lastSeq := r.seqNo), p.applied + [r]));
    }
  }

  lemma {:induction false} CollectAllSteady(p: Placing, rows: seq<Record>, io: Io)
    requires Grounded(p.s) && NoOverflow(p, rows, io)
    ensures Steady(p.s, CollectAll(p, rows, io).s)
    decreases |rows|
  {
    hide Collect, Overflows;
    if rows != [] {
      var n := |rows| - 1;
      CollectAllSteady(p, rows[..n], io);
      CollectSteady(CollectAll(p, rows[..n], io), rows[n], io);
    }
  }

  /** Work left before row `T` is reached, plus the fruitless replies still tolerated. */
  ghost function Measure(s: State, T: int): int {
    3 * IntMax(0, T - s.lastSeq) + (MAX_NO_PROGRESS_BACKFILLS - s.noProgress)
  }

  ghost predicate Tolerant(s: State) {
    Grounded(s)
      && (s.noProgress < MAX_NO_PROGRESS_BACKFILLS || (s.noProgress == MAX_NO_PROGRESS_BACKFILLS && !s.attached))
  }

  lemma RetrySteady(s: State, throughSeq: int, io: Io)
    ensures var t := RetryOrFail(s, throughSeq, io);
            && t.lastSeq == s.lastSeq && t.noProgress == s.noProgress && t.windowStartSeq == s.windowStartSeq
            && (t.stopped || Steady(s, t)) && t.older == s.older
            && (s.attached && !t.attached ==> t.stopped) && (t.attached ==> t.stopped == s.stopped)
  {
    hide RequestGap;
    RequestGapSteady(s, throughSeq, io);
  }

  /**
   * A reply that leaves rows missing strictly lowers the measure; one that does
   * not gives back at most the two fruitless replies it forgives. The third
   * fruitless reply in a row stops the client.
   */
  lemma {:induction false} ReplyMeasure(s: State, f: BackfillFrame, io: Io, T: int)
    requires s.attached && Tolerant(s) && f.requestId !in s.older && f.toSeq <= T
    requires NoOverflow(Placing(s.(gapPending := false), []), f.records, io)
    ensures var t := HandleRepair(s, f, io);
            && Tolerant(t) && t.older == s.older
            && (Judge(s, f, io) != Resolved ==> Measure(t, T) < Measure(s, T))
            && (Judge(s, f, io) == Resolved ==> Measure(t, T) <= Measure(s, T) + 2)
            && (Judge(s, f, io) == Stalled ==> t.noProgress == s.noProgress + 1)
            && (t.noProgress == MAX_NO_PROGRESS_BACKFILLS ==> t.stopped)
            && (!t.attached ==> t.stopped) && (t.attached ==> t.stopped == s.stopped)
  {
    hide RetryOrFail, CollectAll, MinKey, NoOverflow;
    var p := Placing(s.(gapPending := false), []);
    CollectAllSteady(p, f.records, io);
    var t := AfterRows(s, f.records, io);
    assert Steady(s, t);
    var through := ThroughSeq(t, f.toSeq);
    assert through <= T;
    RetrySteady(t.(noProgress := 0), through, io);
    RetrySteady(t.(noProgress := t.noProgress + 1), through, io);
  }

  /** Only live rows and repair replies up to `T`, none of which overflows the buffer. */
  ghost predicate RepairPhase(s: State, steps: seq<Step>, T: int)
    decreases |steps|
  {
    steps == [] ||
    (&& (match steps[0].input
         case RecordIn(r) => s.attached ==> !Overflows(s, r)
         case BackfillIn(f) =>
           s.attached ==> f.requestId !in s.older && f.toSeq <= T
                          && NoOverflow(Placing(s.(gapPending := false), []), f.records, steps[0].io)
         case _ => false)
     && RepairPhase(Apply(s, steps[0]), steps[1..], T))
  }

  /** Replies judged `v` along the run. */
  ghost function Replies(s: State, steps: seq<Step>, v: Verdict): nat
    decreases |steps|
  {
    if steps == [] then 0
    else
      var step := steps[0];
      (if step.input.BackfillIn? && s.attached && Judge(s, step.input.backfill, step.io) == v then 1 else 0)
      + Replies(Apply(s, step), steps[1..], v)
  }

  lemma {:induction false} RecordSteady(s: State, r: Record, io: Io)
    requires Grounded(s) && !Overflows(s, r)
    ensures Steady(s, HandleRecord(s, r, io))
  {
    hide Collect;
    CollectSteady(Placing(s, []), r, io);
  }

  /**
   * Repair ends: along any such run the replies that leave rows missing are
   * bounded by the work left at its start and the replies that left none.
   */
  lemma {:induction false} RepairsTerminate(s: State, steps: seq<Step>, T: int)
    requires Tolerant(s) && RepairPhase(s, steps, T)
    ensures var t := Run(s, steps);
            && Tolerant(t)
            && Replies(s, steps, Progressed) + Replies(s, steps, Stalled) + Measure(t, T)
               <= Measure(s, T) + 2 * Replies(s, steps, Resolved)
    decreases |steps|
  {
    hide HandleRecord, HandleRepair, Judge, NoOverflow, Overflows, HandleOlderReply;
    if steps != [] {
      var step := steps[0];
      if s.attached {
        match step.input {
          case RecordIn(r) => RecordSteady(s, r, step.io);
          case BackfillIn(f) => ReplyMeasure(s, f, step.io, T);
          case _ =>
        }
      }
      RepairsTerminate(Apply(s, step), steps[1..], T);
    }
  }

  /**
   * A client whose replies all stall is stopped by the third of them, however
   * many live rows arrive in between.
   */
  lemma {:induction false} StallsBlock(s: State, steps: seq<Step>, T: int)
    requires Tolerant(s) && s.attached && !s.stopped && RepairPhase(s, steps, T)
    requires Replies(s, steps, Progressed) == 0 && Replies(s, steps, Resolved) == 0
    ensures var t := Run(s, steps);
            && (!t.stopped ==> t.attached && t.noProgress == s.noProgress + Replies(s, steps, Stalled))
            && (s.noProgress + Replies(s, steps, Stalled) >= MAX_NO_PROGRESS_BACKFILLS ==> t.stopped)
    decreases |steps|
  {
    hide HandleRecord, HandleRepair, Judge, NoOverflow, Overflows, HandleOlderReply;
    if steps != [] {
      var step := steps[0];
      match step.input {
        case RecordIn(r) => RecordSteady(s, r, step.io);
        case BackfillIn(f) => ReplyMeasure(s, f, step.io, T);
        case _ =>
      }
      var t := Apply(s, step);
      if t.attached { StallsBlock(t, steps[1..], T); }
      else { DetachedStays(t, steps[1..], T); }
    }
  }

  lemma {:induction false} DetachedStays(s: State, steps: seq<Step>, T: int)
    requires !s.attached && RepairPhase(s, steps, T)
    ensures Run(s, steps) == s
    ensures forall v :: Replies(s, steps, v) == 0
    decreases |steps|
  {
    hide HandleRecord, HandleRepair, Judge, HandleOlderReply;
    if steps != [] { DetachedStays(s, steps[1..], T); }
  }

  /** The backfill frames sent so far. */
  ghost function SentCount(log: seq<Output>): nat
    decreases |log|
  {
    if log == [] then 0
    else SentCount(log[..|log| - 1]) + (if log[|log| - 1].Sent? then 1 else 0)
  }

  lemma SentSay(log: seq<Output>, o: Output)
    ensures SentCount(log + [o]) == SentCount(log) + (if o.Sent? then 1 else 0)
  {
    assert (log + [o])[..|log|] == log;
  }

  /** Every frame sent between `s` and `t` was paid for at `now`. */
  ghost predicate Paid(s: State, t: State, now: int) {
    && Sound(t.budget, now)
    && SentCount(t.log) as real - SentCount(s.log) as real + Spendable(t.budget, now) <= Spendable(s.budget, now)
  }

  lemma {:induction false} RequestGapPaid(s: State, throughSeq: int, io: Io)
    requires Sound(s.budget, io.now)
    ensures Paid(s, RequestGap(s, throughSeq, io).s, io.now)
  {
    hide Take, Spendable, SentCount;
    TakeSpends(s.budget, io.now, 0);
    var t := RequestGap(s, throughSeq, io).s;
    if t.log != s.log { SentSay(s.log, t.log[|s.log|]); }
  }

  lemma {:induction false} ResetPaid(s: State, t: State, reason: ResetReason, now: int)
    requires Paid(s, t, now)
    ensures Paid(s, ResetStream(t, reason), now)
    ensures Paid(s, ForceReconnect(ResetStream(t, reason)), now)
  {
    hide SentCount, Spendable;
    SentSay(t.log, ResetEvent(reason));
    SentSay(ResetStream(t, reason).log, Connecting);
  }

  lemma {:induction false} PaidFrom(s: State, t: State, u: State, now: int)
    requires t.log == s.log && t.budget == s.budget
    ensures Paid(s, u, now) == Paid(t, u, now)
    ensures Sound(s.budget, now) ==> Paid(s, t, now)
  {
    hide Spendable, SentCount;
  }

  lemma {:induction false} CollectPaid(p: Placing, r: Record, io: Io)
    requires Sound(p.s.budget, io.now)
    ensures Paid(p.s, Collect(p, r, io).s, io.now)
  {
    hide RequestGap, Paid, ResetStream, ForceReconnect, Drain;
    var s := Adopt(p.s);
    var t := Collect(p, r, io).s;
    PaidFrom(p.s, s, t, io.now);
    if Overflows(p.s, r) {
      ResetPaid(p.s, s, WindowReset, io.now);
    } else if r.seqNo > s.lastSeq + 1 {
      var u := s.(ahead := s.ahead[r.seqNo := r]);
      RequestGapPaid(u, r.seqNo - 1, io);
      PaidFrom(p.s, u, t, io.now);
    } else if r.seqNo == s.lastSeq + 1 {
      Drains(Placing(s.(lastSeq := r.seqNo), p.applied + [r]));
      PaidFrom(p.s, t, t, io.now);
    }
  }

  lemma {:induction false} CollectAllPaid(p: Placing, rows: seq<Record>, io: Io)
    requires Sound(p.s.budget, io.now)
    ensures Paid(p.s, CollectAll(p, rows, io).s, io.now)
    decreases |rows|
  {
    hide Collect, Spendable, SentCount;
    if rows != [] {
      var n := |rows| - 1;
      CollectAllPaid(p, rows[..n], io);
      CollectPaid(CollectAll(p, rows[..n], io), rows[n], io);
    }
  }

  lemma {:induction false} FlushPaid(s: State, p: Placing, now: int)
    requires Paid(s, p.s, now)
    ensures Paid(s, Flush(p), now)
  {
    hide SentCount, Spendable;
    if p.applied != [] {
      SentSay(p.s.log, RecordsEvent(p.applied));
    }
  }

  lemma {:induction false} RetryPaid(s: State, t: State, throughSeq: int, io: Io)
    requires Paid(s, t, io.now)
    ensures Paid(s, RetryOrFail(t, throughSeq, io), io.now)
  {
    hide SentCount, Spendable, RequestGap;
    RequestGapPaid(t, throughSeq, io);
    SentSay(RequestGap(t, throughSeq, io).s.log, BlockedEvent);
  }

  lemma {:induction false} RepairPaid(s: State, f: BackfillFrame, io: Io)
    requires Sound(s.budget, io.now)
    ensures Paid(s, HandleRepair(s, f, io), io.now)
  {
    hide SentCount, Spendable, RetryOrFail, CollectAll, Flush, MinKey;
    var p := Placing(s.(gapPending := false), []);
    CollectAllPaid(p, f.records, io);
    FlushPaid(s, CollectAll(p, f.records, io), io.now);
    var t := AfterRows(s, f.records, io);
    var through := ThroughSeq(t, f.toSeq);
    RetryPaid(s, t.(noProgress := 0), through, io);
    RetryPaid(s, t.(noProgress := t.noProgress + 1), through, io);
    SentSay(t.log, BlockedEvent);
  }

  lemma {:induction false} ContinuePaid(s: State, request: OlderRequest, records: seq<Record>, fromSeq: int, io: Io)
    requires Sound(s.budget, io.now)
    ensures Paid(s, ContinueOlder(s, request, records, fromSeq, io).s, io.now)
  {
    hide SentCount, Spendable, Take;
    TakeSpends(s.budget, io.now, 4);
    var t := ContinueOlder(s, request, records, fromSeq, io).s;
    if t.log != s.log { SentSay(s.log, t.log[|s.log|]); }
  }

  lemma {:induction false} OlderReplyPaid(s: State, f: BackfillFrame, io: Io)
    requires Sound(s.budget, io.now) && f.requestId in s.older
    ensures Paid(s, HandleOlderReply(s, f, io), io.now)
  {
    hide ContinueOlder, AtOrAfter, LastSeqOf, SentCount, Spendable;
    var request := s.older[f.requestId];
    var t := s.(older := s.older - {f.requestId});
    var records := request.records + AtOrAfter(f.records, request.nextSeq);
    var last := LastSeqOf(records, request.nextSeq - 1);
    var answer := OlderEvent(records, f.complete && last >= request.toSeq, request.fromSeq, request.toSeq);
    SentSay(t.log, answer);
    ContinuePaid(t, request, records, last + 1, io);
    SentSay(ContinueOlder(t, request, records, last + 1, io).s.log, answer);
  }

  lemma {:induction false} ReadyCursorPaid(s: State, f: ReadyFrame, now: int)
    requires Sound(s.budget, now)
    ensures Paid(s, ReadyCursor(s, f), now)
  {
    hide SentCount, Spendable, ResetStream;
    var t := s.(headSeq := f.headSeq, windowStartSeq := f.windowStartSeq, floorSeq := f.floorSeq,
                epoch := Some(f.epoch));
    ResetPaid(s, t, EpochReset, now);
    ResetPaid(s, t, WindowReset, now);
  }

  lemma {:induction false} ReadyPaid(s: State, f: ReadyFrame, now: int)
    requires Sound(s.budget, now)
    ensures Paid(s, HandleReady(s, f), now)
  {
    hide SentCount, Spendable, ReadyCursor, ResetStream, ForceReconnect;
    ReadyCursorPaid(s, f, now);
    var u := ReadyCursor(s, f);
    SentSay(u.log, ReadyEvent(f));
    ResetPaid(s, u, WindowReset, now);
  }

  lemma {:induction false} GracePaid(s: State, io: Io)
    requires Sound(s.budget, io.now)
    ensures Paid(s, GraceTimer(s, io), io.now)
  {
    hide SentCount, Spendable, Take;
    TakeSpends(s.budget, io.now, 0);
    var t := GraceTimer(s, io);
    if t.log != s.log { SentSay(s.log, t.log[|s.log|]); }
  }

  lemma {:induction false} OlderPaid(s: State, fromSeq: int, toSeq: int, io: Io)
    requires Sound(s.budget, io.now)
    ensures Paid(s, RequestOlderRange(s, fromSeq, toSeq, io).s, io.now)
  {
    hide SentCount, Spendable, Take;
    TakeSpends(s.budget, io.now, 4);
    var t := RequestOlderRange(s, fromSeq, toSeq, io).s;
    if t.log != s.log { SentSay(s.log, t.log[|s.log|]); }
  }

  lemma {:induction false} LinkPaid(s: State, step: Step)
    requires Sound(s.budget, step.io.now)
    requires step.input.Opened? || step.input.GapIn? || step.input.ResetIn? || step.input.Closed?
             || step.input.ProbeTimeout? || step.input.RetryPressed? || step.input.Stopped?
    ensures Paid(s, Apply(s, step), step.io.now)
  {
    hide SentCount, Spendable, HandleReady, HandleRecord, HandleBackfill, GraceTimer, RequestOlderRange;
    var t := Apply(s, step);
    if t.log != s.log { SentSay(s.log, t.log[|s.log|]); }
  }

  lemma {:induction false} StepPaid(s: State, step: Step)
    requires Sound(s.budget, step.io.now)
    ensures Paid(s, Apply(s, step), step.io.now)
  {
    hide SentCount, Spendable, HandleReady, Collect, HandleRepair, HandleOlderReply, GraceTimer, RequestOlderRange,
         ResetStream, HandleClose, ForceReconnect, Retry, Flush;
    var io := step.io;
    match step.input {
      case ReadyIn(f) => ReadyPaid(s, f, io.now);
      case RecordIn(r) =>
        CollectPaid(Placing(s, []), r, io);
        FlushPaid(s, Collect(Placing(s, []), r, io), io.now);
      case BackfillIn(f) =>
        if f.requestId in s.older { OlderReplyPaid(s, f, io); } else { RepairPaid(s, f, io); }
      case GraceDue => GracePaid(s, io);
      case OlderWanted(a, b) => OlderPaid(s, a, b, io);
      case _ => LinkPaid(s, step);
    }
  }

  ghost predicate ClockForward(steps: seq<Step>) {
    forall i, j :: 0 <= i <= j < |steps| ==> steps[i].io.now <= steps[j].io.now
  }

  lemma {:induction false} RunPaid(s: State, steps: seq<Step>, from: int)
    requires Sound(s.budget, from) && ClockForward(steps) && (steps != [] ==> from <= steps[0].io.now)
    ensures var t := Run(s, steps);
            var to := if steps == [] then from else steps[|steps| - 1].io.now;
            && Sound(t.budget, to)
            && SentCount(t.log) as real - SentCount(s.log) as real + Spendable(t.budget, to)
               <= Spendable(s.budget, from) + (to - from) as real / 3000.0
    decreases |steps|
  {
    hide SentCount, Spendable, Apply;
    if steps != [] {
      var step := steps[0];
      SpendableGrows(s.budget, from, step.io.now);
      StepPaid(s, step);
      var u := Apply(s, step);
      RunPaid(u, steps[1..], step.io.now);
      assert steps[1..] != [] ==> steps[1..][|steps| - 2] == steps[|steps| - 1];
    }
  }

  /**
   * Whatever the run before it, the client sends fewer than 21 + L/3000
   * backfill frames in any window of L milliseconds: gap repair, resume and
   * scrollback together.
   */
  lemma {:induction false} FramesBounded(cursor: Option<Cursor>, start: int, before: seq<Step>, window: seq<Step>)
    requires window != [] && ClockForward(before + window) && start <= (before + window)[0].io.now
    ensures var s := Run(Initial(cursor, start), before);
            (SentCount(Run(s, window).log) - SentCount(s.log)) as real
            < 21.0 + (window[|window| - 1].io.now - window[0].io.now) as real / 3000.0
  {
    hide Apply, Spendable, SentCount;
    var all := before + window;
    assert forall i :: 0 <= i < |before| ==> before[i] == all[i];
    assert forall i :: 0 <= i < |window| ==> window[i] == all[|before| + i];
    var s0 := Initial(cursor, start);
    RunPaid(s0, before, start);
    var s := Run(s0, before);
    var now := window[0].io.now;
    SpendableGrows(s.budget, if before == [] then start else before[|before| - 1].io.now, now);
    TakeSpends(s.budget, now, 0);
    RunPaid(s, window, now);
    SpendableNonNegative(Run(s, window).budget, window[|window| - 1].io.now);
  }
}
