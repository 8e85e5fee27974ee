/** What a repair asks for, and that a server that sends exactly that brings the stream to its head. */
module SocketRequests {
  import opened Options
  import opened Ints
  import opened JournalRecords
  import opened SocketSpec
  import opened SocketStart
  import opened BackfillBudgets
  import opened SocketPending
  import R = SocketRepair

  /** A request for the rows from `from` up to `through`, at most as many as one may ask for. */
  ghost predicate Spans(o: Output, from: int, through: int) {
    o.Sent? && o.sentFrom == from <= o.sentTo == IntMin(through, from + MAX_RESUME_RECORDS - 1)
  }

  /** From `s` to `t` nothing is asked for, or once: the rows after the cursor of `s`, up to `through`. */
  ghost predicate Asks(s: State, t: State, from: int, through: int) {
    Requests(t.log) == Requests(s.log)
    || (t.attached && t.gapPending && exists o :: Requests(t.log) == Requests(s.log) + [o] && Spans(o, from, through))
  }

  lemma {:induction false} GapAsks(s: State, throughSeq: int, io: Io)
    ensures var t := RequestGap(s, throughSeq, io).s;
            Asks(s, t, s.lastSeq + 1, throughSeq)
  {
    hide Take, Requests;
    var t := RequestGap(s, throughSeq, io).s;
    if t.log != s.log { RequestsSay(s.log, t.log[|s.log|]); }
  }

  lemma {:induction false} ResetAsks(s: State, reason: ResetReason)
    ensures Requests(ResetStream(s, reason).log) == Requests(s.log)
    ensures Requests(ForceReconnect(ResetStream(s, reason)).log) == Requests(s.log)
  {
    hide Requests;
    var t := ResetStream(s, reason);
    SaysNoRequest(s, t);
    SaysNoRequest(t, ForceReconnect(t));
  }

  /** Placing a row asks only when the row is early, and then for what lies between. */
  lemma {:induction false} CollectAsks(p: Placing, r: Record, io: Io)
    ensures var s, t := p.s, Collect(p, r, io).s;
            && Asks(s, t, Adopt(s).lastSeq + 1, r.seqNo - 1)
            && (s.gapPending ==> Requests(t.log) == Requests(s.log))
            && (Overflows(s, r) ==> !t.attached && !t.gapPending)
            && (!Overflows(s, r) ==> t.attached == s.attached && (s.gapPending ==> t.gapPending))
  {
    hide RequestGap, Requests, Drain;
    var s := Adopt(p.s);
    if r.seqNo > s.lastSeq + 1 {
      GapAsks(s.(ahead := s.ahead[r.seqNo := r]), r.seqNo - 1, io);
      GapFrame(s.(ahead := s.ahead[r.seqNo := r]), r.seqNo - 1, io);
      ResetAsks(s, WindowReset);
    } else if r.seqNo == s.lastSeq + 1 {
      Drains(Placing(s.(lastSeq := r.seqNo), p.applied + [r]));
    }
  }

  /** The row before which a frame's `n`th row asks, or after all of them what the reply still lacks. */
  ghost function Through(s: State, f: BackfillFrame, io: Io, n: nat): int {
    if n < |f.records| then f.records[n].seqNo - 1 else ThroughSeq(AfterRows(s, f.records, io), f.toSeq)
  }

  ghost function PlacedBefore(s: State, f: BackfillFrame, io: Io, n: nat): State
    requires n <= |f.records|
  {
    CollectAll(Placing(s.(gapPending := false), []), f.records[..n], io).s
  }

  /**
   * What a step may ask for: a live row, what lies before it; the resume timer,
   * the rows up to the head, of an empty view only the newest; a reply, what
   * lies before an early row of it, or what it still lacks.
   */
  ghost predicate Wants(s: State, step: Step, o: Output) {
    match step.input
    case RecordIn(r) => Spans(o, Adopt(s).lastSeq + 1, r.seqNo - 1)
    case GraceDue =>
      var newest := IntMax(s.floorSeq, s.headSeq - INITIAL_WINDOW_RECORDS + 1);
      Spans(o, if s.lastSeq >= 0 then s.lastSeq + 1 else newest, s.headSeq)
    case BackfillIn(f) =>
      exists n: nat :: n <= |f.records| && WantedAt(s, f, step.io, n, o)
    case _ => false
  }

  ghost predicate WantedAt(s: State, f: BackfillFrame, io: Io, n: nat, o: Output)
    requires n <= |f.records|
  {
    var u := PlacedBefore(s, f, io, n);
    Spans(o, (if n < |f.records| then Adopt(u) else u).lastSeq + 1, Through(s, f, io, n))
  }

  /** At most one request, and that one wanted. */
  ghost predicate AsksWanted(s: State, step: Step, t: State) {
    Requests(t.log) == Requests(s.log) || exists o :: Requests(t.log) == Requests(s.log) + [o] && Wants(s, step, o)
  }

  lemma {:induction false} RecordAsks(s: State, step: Step)
    requires step.input.RecordIn? && s.attached
    ensures AsksWanted(s, step, HandleRecord(s, step.input.record, step.io))
  {
    hide Collect, Requests, Spans;
    var q := Collect(Placing(s, []), step.input.record, step.io);
    CollectAsks(Placing(s, []), step.input.record, step.io);
    SaysNoRequest(q.s, Flush(q));
  }

  lemma {:induction false} TimerAsks(s: State, step: Step)
    requires step.input.GraceDue?
    ensures AsksWanted(s, step, GraceTimer(s, step.io))
  {
    hide Take, Requests;
    var t := GraceTimer(s, step.io);
    if t.log != s.log { RequestsSay(s.log, t.log[|s.log|]); }
  }

  /** While a frame's rows are placed: nothing asked yet, or one request, pending unless the socket is gone. */
  ghost predicate AskedWhilePlacing(s: State, f: BackfillFrame, io: Io, n: nat)
    requires n <= |f.records|
  {
    var u := PlacedBefore(s, f, io, n);
    if Requests(u.log) == Requests(s.log) then true
    else
      (u.gapPending || !u.attached)
      && exists o, k: nat :: k < n && Requests(u.log) == Requests(s.log) + [o] && WantedAt(s, f, io, k, o)
  }

  lemma {:induction false} DetachedAsksNothing(s: State, throughSeq: int, io: Io)
    requires !s.attached
    ensures Requests(RequestGap(s, throughSeq, io).s.log) == Requests(s.log)
  {
    hide Take;
  }

  lemma {:induction false} CollectDetached(p: Placing, r: Record, io: Io)
    requires !p.s.attached
    ensures Requests(Collect(p, r, io).s.log) == Requests(p.s.log) && !Collect(p, r, io).s.attached
  {
    hide RequestGap, Requests, Drain;
    var s := Adopt(p.s);
    CollectAsks(p, r, io);
    if r.seqNo > s.lastSeq + 1 { DetachedAsksNothing(s.(ahead := s.ahead[r.seqNo := r]), r.seqNo - 1, io); }
  }

  lemma {:induction false} RowsAsk(s: State, f: BackfillFrame, io: Io, n: nat)
    requires s.attached && n <= |f.records|
    ensures AskedWhilePlacing(s, f, io, n)
    decreases n
  {
    hide Collect, Requests, Spans, Through;
    var p := Placing(s.(gapPending := false), []);
    if n > 0 {
      RowsAsk(s, f, io, n - 1);
      var q := CollectAll(p, f.records[..n - 1], io);
      assert f.records[..n][..n - 1] == f.records[..n - 1];
      assert CollectAll(p, f.records[..n], io) == Collect(q, f.records[n - 1], io);
      CollectAsks(q, f.records[n - 1], io);
      if !q.s.attached { CollectDetached(q, f.records[n - 1], io); }
      WantedNow(s, f, io, n - 1);
      var t := Collect(q, f.records[n - 1], io).s;
      if Requests(q.s.log) != Requests(s.log) {
        var o, k: nat :| k < n - 1 && Requests(q.s.log) == Requests(s.log) + [o] && WantedAt(s, f, io, k, o);
        assert Requests(t.log) == Requests(s.log) + [o];
      } else if Requests(t.log) != Requests(s.log) {
        var o :| Requests(t.log) == Requests(q.s.log) + [o]
          && Spans(o, Adopt(q.s).lastSeq + 1, f.records[n - 1].seqNo - 1);
        assert WantedAt(s, f, io, n - 1, o);
      }
    }
  }

  lemma {:induction false} WantedNow(s: State, f: BackfillFrame, io: Io, k: nat)
    requires k < |f.records|
    ensures forall o :: Spans(o, Adopt(PlacedBefore(s, f, io, k)).lastSeq + 1, f.records[k].seqNo - 1)
                ==> WantedAt(s, f, io, k, o)
  {
    hide CollectAll, Spans;
  }

  lemma {:induction false} RetryAsks(t: State, throughSeq: int, io: Io)
    ensures var u := RetryOrFail(t, throughSeq, io);
            && (t.gapPending || !t.attached ==> Requests(u.log) == Requests(t.log))
            && (Requests(u.log) == Requests(t.log)
                || exists o :: Requests(u.log) == Requests(t.log) + [o] && Spans(o, t.lastSeq + 1, throughSeq))
  {
    hide RequestGap, Requests, Spans;
    GapAsks(t, throughSeq, io);
    GapFrame(t, throughSeq, io);
    if !t.attached { DetachedAsksNothing(t, throughSeq, io); }
    var asked := RequestGap(t, throughSeq, io).s;
    SaysNoRequest(asked, FailGapRecovery(asked));
  }

  /** After the rows the reply may ask once more, for what it still lacks, unless it has asked already. */
  lemma {:induction false} JudgementAsks(s: State, f: BackfillFrame, io: Io)
    ensures var t, u := AfterRows(s, f.records, io), HandleRepair(s, f, io);
            && (t.gapPending || !t.attached ==> Requests(u.log) == Requests(t.log))
            && (Requests(u.log) == Requests(t.log)
                || exists o ::
                     Requests(u.log) == Requests(t.log) + [o] && Spans(o, t.lastSeq + 1, ThroughSeq(t, f.toSeq)))
  {
    hide AfterRows, RetryOrFail, FailGapRecovery, Requests, Spans, ThroughSeq;
    var t := AfterRows(s, f.records, io);
    var through := ThroughSeq(t, f.toSeq);
    var next := t.(noProgress := if t.lastSeq >= through || t.lastSeq > s.lastSeq then 0 else t.noProgress + 1);
    RetryAsks(next, through, io);
    FailAsks(next);
  }

  lemma {:induction false} FailAsks(s: State)
    ensures Requests(FailGapRecovery(s).log) == Requests(s.log)
  {
    hide Requests;
    SaysNoRequest(s, FailGapRecovery(s));
  }

  lemma {:induction false} FlushAsks(p: Placing)
    ensures var t := Flush(p);
            Requests(t.log) == Requests(p.s.log) && t.lastSeq == p.s.lastSeq && t.gapPending == p.s.gapPending
            && t.attached == p.s.attached
  {
    hide Requests;
    SaysNoRequest(p.s, Flush(p));
  }

  /** The rows of a reply asked for nothing, or once, which is pending unless the socket is gone. */
  lemma {:induction false} AllRowsAsk(s: State, f: BackfillFrame, io: Io)
    requires s.attached
    ensures var t := AfterRows(s, f.records, io);
            && t.lastSeq == PlacedBefore(s, f, io, |f.records|).lastSeq
            && (Requests(t.log) == Requests(s.log)
                || ((t.gapPending || !t.attached)
                    && exists o, k: nat ::
                         k < |f.records| && Requests(t.log) == Requests(s.log) + [o] && WantedAt(s, f, io, k, o)))
  {
    hide CollectAll, Requests, Spans, Flush, WantedAt;
    var q := CollectAll(Placing(s.(gapPending := false), []), f.records, io);
    assert f.records[..|f.records|] == f.records;
    RowsAsk(s, f, io, |f.records|);
    FlushAsks(q);
  }

  lemma {:induction false} ReplyWanted(s: State, f: BackfillFrame, io: Io)
    requires s.attached
    ensures AsksWanted(s, Step(BackfillIn(f), io), HandleRepair(s, f, io))
  {
    hide AfterRows, HandleRepair, PlacedBefore, Requests, Spans, ThroughSeq, WantedAt;
    var n := |f.records|;
    var t, u := AfterRows(s, f.records, io), HandleRepair(s, f, io);
    AllRowsAsk(s, f, io);
    JudgementAsks(s, f, io);
    if Requests(t.log) != Requests(s.log) {
      var o, k: nat :| k < n && Requests(t.log) == Requests(s.log) + [o] && WantedAt(s, f, io, k, o);
      assert Requests(u.log) == Requests(s.log) + [o];
    } else if Requests(u.log) != Requests(t.log) {
      var o :| Requests(u.log) == Requests(t.log) + [o] && Spans(o, t.lastSeq + 1, ThroughSeq(t, f.toSeq));
      WantedLast(s, f, io, o);
    }
  }

  lemma {:induction false} WantedLast(s: State, f: BackfillFrame, io: Io, o: Output)
    requires var t := AfterRows(s, f.records, io);
             t.lastSeq == PlacedBefore(s, f, io, |f.records|).lastSeq && Spans(o, t.lastSeq + 1, ThroughSeq(t, f.toSeq))
    ensures WantedAt(s, f, io, |f.records|, o)
  {
    hide AfterRows, PlacedBefore, Spans, ThroughSeq;
  }

  // ------------------------------------------------------------------- every step

  lemma {:induction false} LinkAsksNothing(s: State, step: Step)
    requires !s.attached || step.input.Opened? || step.input.GapIn? || step.input.ResetIn? || step.input.Closed?
             || step.input.ProbeTimeout? || step.input.RetryPressed? || step.input.Stopped?
    requires !step.input.GraceDue? && !step.input.OlderWanted?
    ensures Requests(Apply(s, step).log) == Requests(s.log)
  {
    hide Requests, HandleReady, HandleRecord, HandleBackfill, GraceTimer, RequestOlderRange;
    SaysNoRequest(s, Apply(s, step));
  }

  /** Whatever happens to the client, it asks for a repair at most once, and only for what the event calls for. */
  lemma {:induction false} StepAsksWanted(s: State, step: Step)
    ensures AsksWanted(s, step, Apply(s, step))
  {
    hide Requests, Wants, HandleReady, HandleRecord, HandleRepair, HandleOlderReply, GraceTimer, RequestOlderRange,
         ResetStream, HandleClose, ForceReconnect, Retry;
    match step.input
    case ReadyIn(f) => if s.attached { ReadyPending(s, f); } else { LinkAsksNothing(s, step); }
    case RecordIn(r) => if s.attached { RecordAsks(s, step); } else { LinkAsksNothing(s, step); }
    case BackfillIn(f) =>
      if !s.attached { LinkAsksNothing(s, step); }
      else if f.requestId in s.older { OlderPending(s, f, step.io); }
      else { ReplyWanted(s, f, step.io); }
    case GraceDue => TimerAsks(s, step);
    case OlderWanted(a, b) => WantedPending(s, a, b, step.io);
    case _ => LinkAsksNothing(s, step);
  }

  /**
   * Over every run from a new client each repair request was called for by
   * some step: it asks for the rows after the cursor of that moment, through
   * the hole, the end of the range judged, or the head, and for no more than
   * one request may.
   */
  lemma {:induction false} RequestsMean(cursor: Option<Cursor>, now: int, steps: seq<Step>, o: Output)
    requires o in Requests(Run(Initial(cursor, now), steps).log)
    ensures exists k: nat :: k < |steps| && Wants(Run(Initial(cursor, now), steps[..k]), steps[k], o)
    decreases |steps|
  {
    hide Apply, Wants, Run;
    var s0 := Initial(cursor, now);
    if steps == [] {
      NoSteps(s0);
    } else {
      var n := |steps| - 1;
      var before := steps[..n];
      assert before + [steps[n]] == steps;
      RunStep(s0, before, steps[n]);
      StepAsksWanted(Run(s0, before), steps[n]);
      if o in Requests(Run(s0, before).log) {
        RequestsMean(cursor, now, before, o);
        var k: nat :| k < n && Wants(Run(s0, before[..k]), before[k], o);
        assert before[..k] == steps[..k];
      }
    }
  }
}
