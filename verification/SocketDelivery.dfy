/** Exactly once, in order: what the stream of `records` events amounts to. */
module SocketDelivery {
  import opened Options
  import opened JournalRecords
  import opened SocketSpec
  import opened SocketStart
  import BackfillBudgets

  /** The rows announced since the last `reset`, in the order announced. */
  ghost function Announced(log: seq<Output>): seq<Record>
    decreases |log|
  {
    if log == [] then []
    else
      var last := log[|log| - 1];
      if last.ResetEvent? then []
      else Announced(log[..|log| - 1]) + (if last.RecordsEvent? then last.records else [])
  }

  lemma {:induction false} AnnouncedSay(log: seq<Output>, o: Output)
    ensures Announced(log + [o]) ==
            if o.ResetEvent? then []
            else Announced(log) + (if o.RecordsEvent? then o.records else [])
  {
    assert (log + [o])[..|log|] == log;
  }

  /**
   * Placed and announced rows together are one gapless segment of the journal
   * of the epoch the client is on, and every buffered row is from it too.
   */
  ghost predicate InOrder(s: State, applied: seq<Record>, j: Journal) {
    && SegmentOk(s.lastSeq, s.origin, s.epoch, Announced(s.log) + applied, j)
    && BufferOk(s.epoch, s.ahead, j)
  }

  ghost predicate SegmentOk(lastSeq: int, origin: int, epoch: Option<int>, rows: seq<Record>, j: Journal) {
    if lastSeq < 0 then rows == []
    else
      && epoch.Some?
      && 0 <= origin
      && origin + |rows| == lastSeq + 1
      && IsSegment(rows, j, epoch.value, origin)
  }

  ghost predicate BufferOk(epoch: Option<int>, ahead: Buffer, j: Journal) {
    if epoch.None? then ahead == map[]
    else forall k :: k in ahead ==> k >= 0 && ahead[k] == Row(j, epoch.value, k)
  }

  ghost predicate Delivered(s: State, j: Journal) { InOrder(s, [], j) }

  /** A row taken from the journal of the epoch the client is on. */
  ghost predicate Genuine(s: State, r: Record, j: Journal) {
    s.epoch.Some? && r == Row(j, s.epoch.value, r.seqNo)
  }

  /**
   * No row of a frame overflows the buffer once an earlier row of the same
   * frame has been placed. The frame and the state before it decide this.
   */
  ghost predicate NoSplit(p: Placing, rows: seq<Record>, io: Io)
    decreases |rows|
  {
    rows == [] ||
    var n := |rows| - 1;
    var q := CollectAll(p, rows[..n], io);
    NoSplit(p, rows[..n], io) && (Overflows(q.s, rows[n]) ==> q.applied == [])
  }

  /** Nothing the stream consists of differs. */
  ghost predicate SameStream(s: State, t: State) {
    && t.lastSeq == s.lastSeq && t.origin == s.origin && t.epoch == s.epoch && t.ahead == s.ahead
    && Announced(t.log) == Announced(s.log)
  }

  lemma {:induction false} SaySameStream(s: State, o: Output)
    requires !o.ResetEvent? && !o.RecordsEvent?
    ensures SameStream(s, Say(s, o))
  {
    AnnouncedSay(s.log, o);
  }

  lemma {:induction false} RequestGapKeepsStream(s: State, throughSeq: int, io: Io)
    ensures SameStream(s, RequestGap(s, throughSeq, io).s)
  {
    var t := RequestGap(s, throughSeq, io).s;
    if t.log != s.log { AnnouncedSay(s.log, t.log[|s.log|]); }
  }

  lemma {:induction false} DrainInOrder(p: Placing, j: Journal)
    requires InOrder(p.s, p.applied, j) && p.s.lastSeq >= 0
    ensures var q := Drain(p);
            && InOrder(q.s, q.applied, j)
            && p.applied <= q.applied
            && q.s == p.s.(ahead := q.s.ahead, lastSeq := q.s.lastSeq)
            && q.s.lastSeq >= p.s.lastSeq
    decreases |p.s.ahead|
  {
    var key := p.s.lastSeq + 1;
    if key in p.s.ahead {
      assert (p.s.ahead - {key}).Keys == p.s.ahead.Keys - {key};
      var next := Placing(p.s.(ahead := p.s.ahead - {key}, lastSeq := key), p.applied + [p.s.ahead[key]]);
      assert Announced(p.s.log) + next.applied == (Announced(p.s.log) + p.applied) + [p.s.ahead[key]];
      DrainInOrder(next, j);
    }
  }

  lemma {:induction false} ResetInOrder(s: State, reason: ResetReason, j: Journal)
    requires s.epoch.Some?
    ensures Delivered(ResetStream(s, reason), j)
    ensures Delivered(ForceReconnect(ResetStream(s, reason)), j)
  {
    var t := ResetStream(s, reason);
    AnnouncedSay(s.log, ResetEvent(reason));
    AnnouncedSay(t.log, Connecting);
  }

  lemma {:induction false} BufferInOrder(s: State, applied: seq<Record>, r: Record, io: Io, j: Journal)
    requires InOrder(s, applied, j) && Genuine(s, r, j)
    ensures InOrder(RequestGap(s.(ahead := s.ahead[r.seqNo := r]), r.seqNo - 1, io).s, applied, j)
  {
    var t := s.(ahead := s.ahead[r.seqNo := r]);
    assert InOrder(t, applied, j);
    RequestGapKeepsStream(t, r.seqNo - 1, io);
  }

  lemma {:induction false} PlaceInOrder(s: State, applied: seq<Record>, r: Record, j: Journal)
    requires InOrder(s, applied, j) && Genuine(s, r, j)
    requires s.lastSeq >= 0 || s.origin == 0
    requires r.seqNo == s.lastSeq + 1
    ensures InOrder(s.(lastSeq := r.seqNo), applied + [r], j)
  {
    assert Announced(s.log) + (applied + [r]) == (Announced(s.log) + applied) + [r];
  }

  lemma {:induction false} CollectOverflow(p: Placing, r: Record, io: Io, j: Journal)
    requires p.s.epoch.Some? && Overflows(p.s, r) && p.applied == []
    ensures var q := Collect(p, r, io); InOrder(q.s, q.applied, j) && q.s.epoch == p.s.epoch
  {
    ResetInOrder(Adopt(p.s), WindowReset, j);
  }

  lemma {:induction false} CollectEarly(p: Placing, r: Record, io: Io, j: Journal)
    requires InOrder(p.s, p.applied, j) && Genuine(p.s, r, j)
    requires r.seqNo > Adopt(p.s).lastSeq + 1 && !Overflows(p.s, r)
    ensures var q := Collect(p, r, io); InOrder(q.s, q.applied, j) && q.s.epoch == p.s.epoch
  {
    hide RequestGap;
    var s := Adopt(p.s);
    BufferInOrder(s, p.applied, r, io, j);
    RequestGapKeepsStream(s.(ahead := s.ahead[r.seqNo := r]), r.seqNo - 1, io);
  }

  lemma {:induction false} CollectNext(p: Placing, r: Record, io: Io, j: Journal)
    requires InOrder(p.s, p.applied, j) && Genuine(p.s, r, j)
    requires r.seqNo == Adopt(p.s).lastSeq + 1
    ensures var q := Collect(p, r, io); InOrder(q.s, q.applied, j) && q.s.epoch == p.s.epoch
  {
    var s := Adopt(p.s);
    PlaceInOrder(s, p.applied, r, j);
    DrainInOrder(Placing(s.(lastSeq := r.seqNo), p.applied + [r]), j);
  }

  /** Placing one genuine row keeps the stream in order unless it splits a frame. */
  lemma {:induction false} CollectInOrder(p: Placing, r: Record, io: Io, j: Journal)
    requires InOrder(p.s, p.applied, j) && Genuine(p.s, r, j)
    requires Overflows(p.s, r) ==> p.applied == []
    ensures var q := Collect(p, r, io); InOrder(q.s, q.applied, j) && q.s.epoch == p.s.epoch
  {
    var last := Adopt(p.s).lastSeq;
    if Overflows(p.s, r) { CollectOverflow(p, r, io, j); }
    else if r.seqNo > last + 1 { CollectEarly(p, r, io, j); }
    else if r.seqNo == last + 1 { CollectNext(p, r, io, j); }
  }

  ghost predicate AllGenuine(s: State, rows: seq<Record>, j: Journal) {
    forall i :: 0 <= i < |rows| ==> Genuine(s, rows[i], j)
  }

  lemma {:induction false} CollectAllInOrder(p: Placing, rows: seq<Record>, io: Io, j: Journal)
    requires InOrder(p.s, p.applied, j) && AllGenuine(p.s, rows, j) && NoSplit(p, rows, io)
    ensures var q := CollectAll(p, rows, io); InOrder(q.s, q.applied, j) && q.s.epoch == p.s.epoch
    decreases |rows|
  {
    if rows != [] {
      var n := |rows| - 1;
      CollectAllInOrder(p, rows[..n], io, j);
      var q := CollectAll(p, rows[..n], io);
      assert Genuine(p.s, rows[n], j);
      CollectInOrder(q, rows[n], io, j);
    }
  }

  /** How many announced or placed rows the cursor does not account for. */
  ghost function Excess(p: Placing): int {
    |Announced(p.s.log)| + |p.applied| - (if p.s.lastSeq < 0 then 0 else p.s.lastSeq + 1 - p.s.origin)
  }

  lemma {:induction false} DrainExcess(p: Placing)
    requires p.s.lastSeq >= 0
    ensures var q := Drain(p); Excess(q) == Excess(p) && |q.applied| >= |p.applied| && q.s.lastSeq >= 0
    decreases |p.s.ahead|
  {
    var key := p.s.lastSeq + 1;
    if key in p.s.ahead {
      assert (p.s.ahead - {key}).Keys == p.s.ahead.Keys - {key};
      DrainExcess(Placing(p.s.(ahead := p.s.ahead - {key}, lastSeq := key), p.applied + [p.s.ahead[key]]));
    }
  }

  /** Rows announced on top of a split stay unaccounted for, whatever follows in the frame. */
  lemma {:induction false} CollectExcess(p: Placing, r: Record, io: Io)
    requires p.applied != []
    requires Overflows(p.s, r) || (Excess(p) >= 1 && (p.s.lastSeq < 0 ==> Announced(p.s.log) == []))
    ensures var q := Collect(p, r, io);
            Excess(q) >= 1 && q.applied != [] && (q.s.lastSeq < 0 ==> Announced(q.s.log) == [])
  {
    hide RequestGap;
    var s := Adopt(p.s);
    if Overflows(p.s, r) {
      var t := ResetStream(s, WindowReset);
      AnnouncedSay(s.log, ResetEvent(WindowReset));
      AnnouncedSay(t.log, Connecting);
    } else if r.seqNo > s.lastSeq + 1 {
      RequestGapKeepsStream(s.(ahead := s.ahead[r.seqNo := r]), r.seqNo - 1, io);
    } else if r.seqNo == s.lastSeq + 1 {
      DrainExcess(Placing(s.(lastSeq := r.seqNo), p.applied + [r]));
    }
  }

  lemma {:induction false} CollectAllExcess(p: Placing, rows: seq<Record>, io: Io, j: Journal)
    requires InOrder(p.s, p.applied, j) && p.applied == [] && AllGenuine(p.s, rows, j)
    requires !NoSplit(p, rows, io)
    ensures var q := CollectAll(p, rows, io);
            Excess(q) >= 1 && q.applied != [] && (q.s.lastSeq < 0 ==> Announced(q.s.log) == [])
    decreases |rows|
  {
    hide Collect, InOrder, Excess, Overflows;
    var n := |rows| - 1;
    var q := CollectAll(p, rows[..n], io);
    if NoSplit(p, rows[..n], io) {
      CollectAllInOrder(p, rows[..n], io, j);
    } else {
      CollectAllExcess(p, rows[..n], io, j);
    }
    CollectExcess(q, rows[n], io);
  }

  lemma {:induction false} FlushAnnounces(p: Placing)
    ensures var t := Flush(p);
            && Announced(t.log) == Announced(p.s.log) + p.applied
            && t.lastSeq == p.s.lastSeq && t.origin == p.s.origin && t.epoch == p.s.epoch
            && t.ahead == p.s.ahead
  {
    if p.applied != [] { AnnouncedSay(p.s.log, RecordsEvent(p.applied)); }
    else { assert Announced(p.s.log) + [] == Announced(p.s.log); }
  }

  lemma {:induction false} FailSameStream(s: State)
    ensures SameStream(s, FailGapRecovery(s))
  {
    SaySameStream(s.(attached := false, stopped := true, graceArmed := false, gapPending := false), BlockedEvent);
  }

  /** Judging a repair reply changes nothing the stream consists of. */
  lemma {:induction false} RepairSameStream(s: State, f: BackfillFrame, io: Io)
    ensures SameStream(AfterRows(s, f.records, io), HandleRepair(s, f, io))
  {
    hide AfterRows, RequestGap, FailGapRecovery, Announced, MinKey;
    var t := AfterRows(s, f.records, io);
    var through := ThroughSeq(t, f.toSeq);
    var next := t.(noProgress := if t.lastSeq > s.lastSeq then 0 else t.noProgress + 1);
    RequestGapKeepsStream(next, through, io);
    FailSameStream(RequestGap(next, through, io).s);
    FailSameStream(next);
  }

  lemma {:induction false} SameStreamDelivered(s: State, t: State, j: Journal)
    requires SameStream(s, t)
    ensures Delivered(s, j) == Delivered(t, j)
  {
  }

  /**
   * A repair reply keeps the announced rows one gapless journal segment exactly
   * when no row of the frame overflows the buffer after another was placed.
   */
  lemma {:induction false} RepairDeliversIffNoSplit(s: State, f: BackfillFrame, io: Io, j: Journal)
    requires Delivered(s, j) && AllGenuine(s, f.records, j)
    ensures Delivered(HandleRepair(s, f, io), j)
            <==> NoSplit(Placing(s.(gapPending := false), []), f.records, io)
  {
    hide HandleRepair, Collect, Announced, Overflows;
    var p := Placing(s.(gapPending := false), []);
    var q := CollectAll(p, f.records, io);
    RepairSameStream(s, f, io);
    SameStreamDelivered(AfterRows(s, f.records, io), HandleRepair(s, f, io), j);
    FlushAnnounces(q);
    assert Announced(Flush(q).log) + [] == Announced(Flush(q).log);
    if NoSplit(p, f.records, io) {
      CollectAllInOrder(p, f.records, io, j);
    } else {
      CollectAllExcess(p, f.records, io, j);
    }
  }

  lemma {:induction false} RecordDelivers(s: State, r: Record, io: Io, j: Journal)
    requires Delivered(s, j) && Genuine(s, r, j)
    ensures Delivered(HandleRecord(s, r, io), j)
  {
    hide Collect, Announced, Overflows;
    CollectInOrder(Placing(s, []), r, io, j);
    var q := Collect(Placing(s, []), r, io);
    FlushAnnounces(q);
    assert Announced(Flush(q).log) + [] == Announced(Flush(q).log);
  }

  lemma {:induction false} ReadyCursorDelivers(s: State, f: ReadyFrame, j: Journal)
    requires Delivered(s, j)
    ensures Delivered(ReadyCursor(s, f), j) && ReadyCursor(s, f).epoch == Some(f.epoch)
  {
    hide Announced, ResetStream;
    var t := s.(headSeq := f.headSeq, windowStartSeq := f.windowStartSeq, floorSeq := f.floorSeq,
                epoch := Some(f.epoch));
    ResetInOrder(t, EpochReset, j);
    ResetInOrder(t, WindowReset, j);
    ResetKeepsEpoch(t, EpochReset);
    ResetKeepsEpoch(t, WindowReset);
  }

  lemma ResetKeepsEpoch(s: State, reason: ResetReason)
    ensures ResetStream(s, reason).epoch == s.epoch
  {
  }

  lemma {:induction false} ReadyDelivers(s: State, f: ReadyFrame, j: Journal)
    requires Delivered(s, j)
    ensures Delivered(HandleReady(s, f), j)
  {
    hide Announced, ResetStream, ReadyCursor, InOrder;
    var u := ReadyCursor(s, f);
    ReadyCursorDelivers(s, f, j);
    ResetInOrder(u, WindowReset, j);
    SaySameStream(u, ReadyEvent(f));
    SameStreamDelivered(u, ArmResumeGrace(Say(u, ReadyEvent(f))), j);
  }

  lemma {:induction false} GraceSameStream(s: State, io: Io)
    ensures SameStream(s, GraceTimer(s, io))
  {
    hide BackfillBudgets.Take;
    var t := GraceTimer(s, io);
    if t.log != s.log { AnnouncedSay(s.log, t.log[|s.log|]); }
  }

  lemma {:induction false} OlderSameStream(s: State, fromSeq: int, toSeq: int, io: Io)
    ensures SameStream(s, RequestOlderRange(s, fromSeq, toSeq, io).s)
  {
    hide BackfillBudgets.Take;
    var t := RequestOlderRange(s, fromSeq, toSeq, io).s;
    if t.log != s.log { AnnouncedSay(s.log, t.log[|s.log|]); }
  }

  lemma {:induction false} ContinueSameStream(s: State, request: OlderRequest,
                                              records: seq<Record>, fromSeq: int, io: Io)
    ensures SameStream(s, ContinueOlder(s, request, records, fromSeq, io).s)
  {
    hide BackfillBudgets.Take;
    var t := ContinueOlder(s, request, records, fromSeq, io).s;
    if t.log != s.log { AnnouncedSay(s.log, t.log[|s.log|]); }
  }

  lemma {:induction false} OlderReplySameStream(s: State, f: BackfillFrame, io: Io)
    requires f.requestId in s.older
    ensures SameStream(s, HandleOlderReply(s, f, io))
  {
    hide ContinueOlder, AtOrAfter, Announced, LastSeqOf;
    var request := s.older[f.requestId];
    var t := s.(older := s.older - {f.requestId});
    var records := request.records + AtOrAfter(f.records, request.nextSeq);
    var last := LastSeqOf(records, request.nextSeq - 1);
    var answer := OlderEvent(records, f.complete && last >= request.toSeq, request.fromSeq, request.toSeq);
    SaySameStream(t, answer);
    ContinueSameStream(t, request, records, last + 1, io);
    SaySameStream(ContinueOlder(t, request, records, last + 1, io).s, answer);
  }

  /** What the server and the frame boundary owe the client at one step. */
  ghost predicate Fair(s: State, step: Step, j: Journal) {
    match step.input
    case RecordIn(r) => s.attached ==> Genuine(s, r, j)
    case BackfillIn(f) =>
      s.attached && f.requestId !in s.older ==>
        AllGenuine(s, f.records, j) && NoSplit(Placing(s.(gapPending := false), []), f.records, step.io)
    case _ => true
  }

  lemma {:induction false} BackfillDelivers(s: State, f: BackfillFrame, io: Io, j: Journal)
    requires Delivered(s, j) && s.attached && Fair(s, Step(BackfillIn(f), io), j)
    ensures Delivered(HandleBackfill(s, f, io), j)
  {
    hide HandleRepair, HandleOlderReply, Announced, InOrder, NoSplit, AllGenuine;
    if f.requestId in s.older {
      OlderReplySameStream(s, f, io);
      SameStreamDelivered(s, HandleOlderReply(s, f, io), j);
    } else {
      RepairDeliversIffNoSplit(s, f, io, j);
    }
  }

  /** Resets, reconnects, closes and retries. */
  lemma {:induction false} LinkDelivers(s: State, step: Step, j: Journal)
    requires Delivered(s, j)
    requires step.input.Opened? || step.input.GapIn? || step.input.ResetIn? || step.input.Closed?
             || step.input.ProbeTimeout? || step.input.RetryPressed? || step.input.Stopped?
    ensures Delivered(Apply(s, step), j)
  {
    hide Announced, HandleReady, HandleRecord, HandleBackfill, GraceTimer, RequestOlderRange;
    var t := Apply(s, step);
    if t.log != s.log { AnnouncedSay(s.log, t.log[|s.log|]); }
  }

  lemma {:induction false} StepDelivers(s: State, step: Step, j: Journal)
    requires Delivered(s, j) && Fair(s, step, j)
    ensures Delivered(Apply(s, step), j)
  {
    hide HandleReady, HandleRecord, HandleBackfill, GraceTimer, RequestOlderRange, Announced, InOrder,
         ResetStream, HandleClose, ForceReconnect, Retry, NoSplit;
    match step.input
    case ReadyIn(f) => ReadyDelivers(s, f, j);
    case RecordIn(r) => if s.attached { RecordDelivers(s, r, step.io, j); }
    case BackfillIn(f) => if s.attached { BackfillDelivers(s, f, step.io, j); }
    case GraceDue =>
      GraceSameStream(s, step.io);
      SameStreamDelivered(s, GraceTimer(s, step.io), j);
    case OlderWanted(a, b) =>
      OlderSameStream(s, a, b, step.io);
      SameStreamDelivered(s, RequestOlderRange(s, a, b, step.io).s, j);
    case _ => LinkDelivers(s, step, j);
  }

  ghost predicate FairRun(s: State, steps: seq<Step>, j: Journal)
    decreases |steps|
  {
    steps == [] || (Fair(s, steps[0], j) && FairRun(Apply(s, steps[0]), steps[1..], j))
  }

  /**
   * Exactly once, in order, over every run from a delivered state: however
   * frames are dropped, repeated and reordered, across resets and reconnects.
   */
  lemma {:induction false} RunDelivers(s: State, steps: seq<Step>, j: Journal)
    requires Delivered(s, j) && FairRun(s, steps, j)
    ensures Delivered(Run(s, steps), j)
    decreases |steps|
  {
    hide Apply, Delivered;
    if steps != [] {
      StepDelivers(s, steps[0], j);
      RunDelivers(Apply(s, steps[0]), steps[1..], j);
    }
  }

  lemma InitialDelivered(cursor: Option<Cursor>, now: int, j: Journal)
    ensures Delivered(Initial(cursor, now), j)
  {
  }

  lemma RowsNumbered(s: State, j: Journal)
    requires Delivered(s, j)
    ensures var rows := Announced(s.log);
            && (s.lastSeq < 0 ==> rows == [])
            && (s.lastSeq >= 0 ==> s.epoch.Some? && 0 <= s.origin && |rows| == s.lastSeq + 1 - s.origin)
            && forall i :: 0 <= i < |rows| ==> rows[i] == Row(j, s.epoch.value, s.origin + i)
  {
    assert Announced(s.log) + [] == Announced(s.log);
  }

  /**
   * What delivery means for a run from a new client: the rows announced since
   * the last reset are the journal's, of the epoch of the last `ready` or the
   * restored cursor, numbered one by one from the promised row through `lastSeq`.
   */
  lemma {:induction false} DeliveredMeans(cursor: Option<Cursor>, now: int, steps: seq<Step>, j: Journal)
    requires FairRun(Initial(cursor, now), steps, j)
    ensures var s := Run(Initial(cursor, now), steps);
            var rows, from, epoch := Announced(s.log), Promised(cursor, now, steps), Epoch(cursor, now, steps);
            && Delivered(s, j)
            && (s.lastSeq < 0 ==> rows == [])
            && (s.lastSeq >= 0 ==> epoch.Some? && 0 <= from && |rows| == s.lastSeq + 1 - from)
            && forall i :: 0 <= i < |rows| ==> rows[i] == Row(j, epoch.value, from + i)
  {
    hide Delivered, Announced, FairRun, Run, Promised, Epoch;
    InitialDelivered(cursor, now, j);
    RunDelivers(Initial(cursor, now), steps, j);
    StartIsPromised(cursor, now, steps);
    RowsNumbered(Run(Initial(cursor, now), steps), j);
  }

  lemma {:induction false} BufferGrowth(p: Placing, rows: seq<Record>, io: Io)
    requires |p.s.ahead| + |rows| <= MAX_BUFFERED_AHEAD
    ensures NoSplit(p, rows, io)
    ensures |CollectAll(p, rows, io).s.ahead| <= |p.s.ahead| + |rows|
    decreases |rows|
  {
    if rows != [] {
      var n := |rows| - 1;
      BufferGrowth(p, rows[..n], io);
      CollectGrowth(CollectAll(p, rows[..n], io), rows[n], io);
    }
  }

  lemma {:induction false} CollectGrowth(p: Placing, r: Record, io: Io)
    requires !Overflows(p.s, r)
    ensures |Collect(p, r, io).s.ahead| <= |p.s.ahead| + 1
  {
    hide RequestGap;
    var s := Adopt(p.s);
    if r.seqNo > s.lastSeq + 1 {
      var t := s.(ahead := s.ahead[r.seqNo := r]);
      RequestGapKeepsStream(t, r.seqNo - 1, io);
      assert t.ahead.Keys == s.ahead.Keys + {r.seqNo as int};
    } else if r.seqNo == s.lastSeq + 1 {
      DrainShrinks(Placing(s.(lastSeq := r.seqNo), p.applied + [r]));
    }
  }

  lemma {:induction false} DrainShrinks(p: Placing)
    ensures |Drain(p).s.ahead| <= |p.s.ahead|
    decreases |p.s.ahead|
  {
    var key := p.s.lastSeq + 1;
    if key in p.s.ahead {
      assert (p.s.ahead - {key}).Keys == p.s.ahead.Keys - {key};
      DrainShrinks(Placing(p.s.(ahead := p.s.ahead - {key}, lastSeq := key), p.applied + [p.s.ahead[key]]));
    }
  }

  ghost function RowsAhead(j: Journal, from: nat, count: nat): (m: Buffer)
    ensures |m| == count
    ensures forall k :: k in m <==> from <= k < from + count
    ensures forall k :: k in m ==> m[k] == Row(j, 0, k)
  {
    if count == 0 then map[]
    else
      var rest := RowsAhead(j, from, count - 1);
      var k := from + count - 1;
      rest[k := Row(j, 0, k)]
  }

  /** A client restored at row 4 and back online, whose row 4 is the head. */
  ghost function Opening(io: Io): seq<Step> {
    [Step(RetryPressed, io), Step(Opened, io), Step(ReadyIn(ReadyFrame(0, 4, 0, 0)), io)]
  }

  /** Live rows from 10 on. */
  ghost function Live(j: Journal, count: nat, io: Io): seq<Step> {
    if count == 0 then [] else Live(j, count - 1, io) + [Step(RecordIn(Row(j, 0, 10 + count - 1)), io)]
  }

  const RESTORED := Some(Cursor(0, 4, 4, 0, 0))

  lemma {:induction false} Opens(io: Io)
    ensures var s := Run(Initial(RESTORED, io.now), Opening(io));
            s == Initial(RESTORED, io.now).(attached := true, stopped := false,
                                            log := [Connecting, ReadyEvent(ReadyFrame(0, 4, 0, 0))])
  {
    hide HandleRecord, HandleBackfill;
    var steps := Opening(io);
    var s0 := Initial(RESTORED, io.now);
    var s1 := Apply(s0, steps[0]);
    var s2 := Apply(s1, steps[1]);
    var s3 := Apply(s2, steps[2]);
    assert steps[1..][1..] == [steps[2]] && [steps[2]][1..] == [];
    assert Run(s0, steps) == Run(s1, steps[1..]) == Run(s2, [steps[2]]) == Run(s3, []) == s3;
  }

  /** The first live row is early and asks for rows 5 to 9; all of them wait in the buffer. */
  lemma {:induction false} Fills(j: Journal, count: nat, io: Io)
    requires io.open && 1 <= count <= MAX_BUFFERED_AHEAD
    ensures var s := Run(Initial(RESTORED, io.now), Opening(io) + Live(j, count, io));
            && s.attached && s.epoch == Some(0) && s.lastSeq == 4 && s.older == map[] && s.gapPending
            && s.ahead == RowsAhead(j, 10, count) && Sent(RequestId('g', 1), 5, 9) in s.log && Announced(s.log) == []
    decreases count
  {
    hide Announced;
    var s0 := Initial(RESTORED, io.now);
    var before := Opening(io) + Live(j, count - 1, io);
    var r := Row(j, 0, 10 + count - 1);
    assert Opening(io) + Live(j, count, io) == before + [Step(RecordIn(r), io)];
    RunStep(s0, before, Step(RecordIn(r), io));
    var s := Run(s0, before);
    if count == 1 {
      assert before == Opening(io);
      Opens(io);
      assert RowsAhead(j, 10, 0) == map[];
      FirstEarly(s, r, io);
    } else {
      Fills(j, count - 1, io);
      LaterEarly(s, r, io);
    }
  }

  /** The request for the rows before the first live one, from a full budget. */
  lemma {:induction false} AsksBefore(s: State, io: Io)
    requires s.attached && io.open && !s.gapPending && s.lastSeq == 4 && s.requestCounter == 0
    requires s.budget == BackfillBudgets.Budget(BackfillBudgets.RATE_BACKFILL_PER_MIN, io.now)
    ensures var t := RequestGap(s, 9, io).s;
            t == s.(budget := t.budget, requestCounter := 1, gapPending := true,
                    log := s.log + [Sent(RequestId('g', 1), 5, 9)])
  {
  }

  lemma {:induction false} FirstOutputs()
    ensures Announced([Connecting, ReadyEvent(ReadyFrame(0, 4, 0, 0))]) == []
  {
    var ready := ReadyEvent(ReadyFrame(0, 4, 0, 0));
    assert Announced([]) == [];
    AnnouncedSay([], Connecting);
    AnnouncedSay([Connecting], ready);
    assert [] + [Connecting] == [Connecting] && [Connecting] + [ready] == [Connecting, ready];
  }

  lemma {:induction false} FirstEarly(s: State, r: Record, io: Io)
    requires s == Initial(RESTORED, io.now).(attached := true, stopped := false,
                                             log := [Connecting, ReadyEvent(ReadyFrame(0, 4, 0, 0))])
    requires io.open && r.seqNo == 10
    ensures var t := Apply(s, Step(RecordIn(r), io));
            && t.attached && t.epoch == Some(0) && t.lastSeq == 4 && t.older == map[] && t.gapPending
            && t.ahead == map[10 := r] && Sent(RequestId('g', 1), 5, 9) in t.log && Announced(t.log) == []
  {
    hide RequestGap, Announced, HandleBackfill, HandleReady;
    FirstOutputs();
    AsksBefore(s.(ahead := s.ahead[r.seqNo := r]), io);
    AnnouncedSay(s.log, Sent(RequestId('g', 1), 5, 9));
  }

  lemma {:induction false} LaterEarly(s: State, r: Record, io: Io)
    requires s.attached && s.lastSeq == 4 && s.gapPending && r.seqNo > 5 && |s.ahead| < MAX_BUFFERED_AHEAD
    ensures Apply(s, Step(RecordIn(r), io)) == s.(ahead := s.ahead[r.seqNo := r])
  {
  }

  /** With the buffer full, the next row followed by one beyond the hole splits the frame. */
  lemma {:induction false} FullBufferSplits(s: State, next: Record, beyond: Record, io: Io)
    requires s.lastSeq >= 0 && |s.ahead| == MAX_BUFFERED_AHEAD
    requires next.seqNo == s.lastSeq + 1 && s.lastSeq + 2 !in s.ahead && beyond.seqNo > s.lastSeq + 2
    ensures !NoSplit(Placing(s, []), [next, beyond], io)
  {
    hide RequestGap, ResetStream, ForceReconnect;
    var p := Placing(s, []);
    var rows := [next, beyond];
    assert rows[..1] == [next] && rows[..1][..0] == [];
    assert CollectAll(p, [next], io) == Collect(p, next, io);
    assert Collect(p, next, io) == Placing(s.(lastSeq := next.seqNo), [] + [next]);
  }

  /**
   * So a run of genuine frames from a restored client ends with it announcing
   * a row that its own reset had just disowned: the buffer is full, and the
   * reply to its request holds the first and the third of the rows asked for.
   */
  lemma {:induction false} SplitHappens(j: Journal, io: Io, count: nat) returns (steps: seq<Step>, f: BackfillFrame)
    requires io.open && count == MAX_BUFFERED_AHEAD
    ensures var s0 := Initial(RESTORED, io.now); var s := Run(s0, steps); var t := Apply(s, Step(BackfillIn(f), io));
            && FairRun(s0, steps, j) && s.attached && AllGenuine(s, f.records, j)
            && Sent(f.requestId, f.fromSeq, f.toSeq) in s.log
            && (forall r :: r in f.records ==> f.fromSeq <= r.seqNo <= f.toSeq)
            && Announced(s.log) == [] && t.lastSeq < 0 && Announced(t.log) == [Row(j, 0, 5)] && !Delivered(t, j)
  {
    hide Run, FairRun, Apply, Announced, Delivered, Opening, Live, Initial, RowsAhead;
    var s0 := Initial(RESTORED, io.now);
    steps := Opening(io) + Live(j, count, io);
    f := BackfillFrame(RequestId('g', 1), 5, 9, true, [Row(j, 0, 5), Row(j, 0, 7)]);
    Fills(j, count, io);
    LiveIsFair(j, count, io);
    SplitReply(Run(s0, steps), f, io, j);
  }

  lemma {:induction false} SplitReply(s: State, f: BackfillFrame, io: Io, j: Journal)
    requires s.attached && s.lastSeq == 4 && s.older == map[] && |s.ahead| == MAX_BUFFERED_AHEAD && 6 !in s.ahead
    requires Announced(s.log) == [] && f.records == [Row(j, 0, 5), Row(j, 0, 7)]
    ensures var t := Apply(s, Step(BackfillIn(f), io));
            t.lastSeq < 0 && Announced(t.log) == [Row(j, 0, 5)] && !Delivered(t, j)
  {
    hide HandleRepair, Announced, AfterRows, HandleOlderReply;
    SplitRows(s, f.records[0], f.records[1], io);
    RepairSameStream(s, f, io);
    var t := HandleRepair(s, f, io);
    assert Announced(t.log) + [] == Announced(t.log);
  }

  lemma {:induction false} SplitRows(s: State, next: Record, beyond: Record, io: Io)
    requires s.lastSeq >= 0 && |s.ahead| == MAX_BUFFERED_AHEAD && Announced(s.log) == []
    requires next.seqNo == s.lastSeq + 1 && s.lastSeq + 2 !in s.ahead && beyond.seqNo > s.lastSeq + 2
    ensures var t := AfterRows(s, [next, beyond], io); t.lastSeq == -1 && Announced(t.log) == [next]
  {
    hide RequestGap, ForceReconnect;
    var p := Placing(s.(gapPending := false), []);
    var rows := [next, beyond];
    assert rows[..1] == [next] && rows[..1][..0] == [];
    assert CollectAll(p, [next], io) == Collect(p, next, io);
    assert Collect(p, next, io) == Placing(p.s.(lastSeq := next.seqNo), [] + [next]);
    var q := CollectAll(p, rows, io);
    var r := ResetStream(Collect(p, next, io).s, WindowReset);
    assert q == Placing(ForceReconnect(r), [next]);
    AnnouncedSay(s.log, ResetEvent(WindowReset));
    SaySameStream(r, Connecting);
    ReconnectSame(r);
    FlushAnnounces(q);
    assert [] + [next] == [next];
  }

  lemma {:induction false} ReconnectSame(s: State)
    ensures SameStream(s, ForceReconnect(s))
  {
    SaySameStream(s.(attached := false, graceArmed := false), Connecting);
  }

  lemma {:induction false} FairSnoc(s: State, steps: seq<Step>, step: Step, j: Journal)
    requires FairRun(s, steps, j) && Fair(Run(s, steps), step, j)
    ensures FairRun(s, steps + [step], j)
    decreases |steps|
  {
    hide Fair, Apply;
    var all := steps + [step];
    if steps == [] {
      assert all[1..] == [];
    } else {
      assert all[1..] == steps[1..] + [step];
      FairSnoc(Apply(s, steps[0]), steps[1..], step, j);
    }
  }

  lemma {:induction false} LiveIsFair(j: Journal, count: nat, io: Io)
    requires io.open && count <= MAX_BUFFERED_AHEAD
    ensures FairRun(Initial(RESTORED, io.now), Opening(io) + Live(j, count, io), j)
    decreases count
  {
    hide Apply, Run, Opening, FairRun, Announced, RowsAhead;
    var s0 := Initial(RESTORED, io.now);
    if count == 0 {
      assert Opening(io) + [] == Opening(io);
      OpeningIsFair(io, j);
    } else {
      var before := Opening(io) + Live(j, count - 1, io);
      var step := Step(RecordIn(Row(j, 0, 10 + count - 1)), io);
      LiveIsFair(j, count - 1, io);
      if count > 1 { Fills(j, count - 1, io); } else { Opens(io); assert before == Opening(io); }
      FairSnoc(s0, before, step, j);
      assert before + [step] == Opening(io) + Live(j, count, io);
    }
  }

  lemma {:induction false} OpeningIsFair(io: Io, j: Journal)
    ensures FairRun(Initial(RESTORED, io.now), Opening(io), j)
  {
    hide Apply;
    var steps := Opening(io);
    assert steps[1..][1..] == [steps[2]] && [steps[2]][1..] == [];
    var s1 := Apply(Initial(RESTORED, io.now), steps[0]);
    var s2 := Apply(s1, steps[1]);
    assert FairRun(Apply(s2, steps[2]), [], j);
    assert FairRun(s2, [steps[2]], j);
    assert FairRun(s1, steps[1..], j);
  }
}
