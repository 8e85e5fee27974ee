/** Repair gets there: replies to the requests sent bring the stream to any row, or stop the client. */
module SocketReach {
  import opened Options
  import opened Ints
  import opened JournalRecords
  import opened SocketSpec
  import opened BackfillBudgets
  import opened SocketPending
  import R = SocketRepair

  /** The repair or resume request sent last. */
  ghost function LastGap(log: seq<Output>): Option<Output> {
    var requests := Requests(log);
    if requests == [] then None else Some(requests[|requests| - 1])
  }

  lemma {:induction false} LastGapSay(log: seq<Output>, o: Output)
    ensures LastGap(log + [o]) == if o.Sent? && o.requestId.prefix == 'g' then Some(o) else LastGap(log)
  {
    hide Requests;
    RequestsSay(log, o);
  }

  /** No buffered row is at, or right above, the cursor: such rows have been placed. */
  ghost predicate Drained(s: State) { forall k :: k in s.ahead ==> k > Adopt(s).lastSeq + 1 }

  /** A pending repair has a request behind it, for one row at least. */
  ghost predicate Asked(s: State) {
    s.gapPending ==> LastGap(s.log).Some? && LastGap(s.log).value.Sent?
                     && LastGap(s.log).value.sentFrom <= LastGap(s.log).value.sentTo
  }

  /** The cursor has moved since the pending request was sent. */
  ghost predicate Overtaken(s: State) {
    s.gapPending && LastGap(s.log).Some? && LastGap(s.log).value.Sent? && LastGap(s.log).value.sentFrom <= s.lastSeq
  }

  /** On one connection: the cursor no lower, and a request overtaken only by the cursor moving. */
  ghost predicate Moves(s: State, t: State) {
    && t.lastSeq >= s.lastSeq && t.noProgress == s.noProgress && t.attached == s.attached && t.stopped == s.stopped
    && t.older == s.older && t.floorSeq == s.floorSeq && t.windowStartSeq == s.windowStartSeq && Asked(t) && Drained(t)
    && (Overtaken(t) ==> Overtaken(s) || t.lastSeq > s.lastSeq)
  }

  lemma {:induction false} GapMoves(s: State, throughSeq: int, io: Io)
    requires Asked(s)
    ensures var t := RequestGap(s, throughSeq, io).s;
            && Asked(t) && (Overtaken(t) ==> Overtaken(s)) && (!s.gapPending ==> !Overtaken(t))
  {
    hide Take, LastGap;
    var t := RequestGap(s, throughSeq, io).s;
    if t.log != s.log { LastGapSay(s.log, t.log[|s.log|]); }
  }

  lemma {:induction false} DrainDrains(p: Placing)
    requires p.s.lastSeq >= 0 && forall k :: k in p.s.ahead ==> k > p.s.lastSeq
    ensures Drained(Drain(p).s)
    decreases |p.s.ahead|
  {
    var key := p.s.lastSeq + 1;
    if key in p.s.ahead {
      assert (p.s.ahead - {key}).Keys == p.s.ahead.Keys - {key};
      DrainDrains(Placing(p.s.(ahead := p.s.ahead - {key}, lastSeq := key), p.applied + [p.s.ahead[key]]));
    }
  }

  lemma {:induction false} EarlyMoves(s: State, r: Record, io: Io)
    requires Asked(s) && Drained(s) && r.seqNo > Adopt(s).lastSeq + 1
    ensures Moves(s, RequestGap(s.(ahead := s.ahead[r.seqNo := r]), r.seqNo - 1, io).s)
  {
    hide RequestGap, LastGap;
    GapMoves(s.(ahead := s.ahead[r.seqNo := r]), r.seqNo - 1, io);
    GapFrame(s.(ahead := s.ahead[r.seqNo := r]), r.seqNo - 1, io);
  }

  lemma {:induction false} NextMoves(s: State, applied: seq<Record>, r: Record)
    requires Asked(s) && Drained(s) && s.lastSeq + 1 == r.seqNo && Adopt(s).lastSeq == s.lastSeq
    ensures Moves(s, Drain(Placing(s.(lastSeq := r.seqNo), applied + [r])).s)
  {
    hide LastGap, Drain;
    var q := Placing(s.(lastSeq := r.seqNo), applied + [r]);
    Drains(q);
    DrainDrains(q);
  }

  lemma {:induction false} AdoptMoves(s: State)
    requires R.Grounded(s) && Asked(s) && Drained(s)
    ensures Moves(s, Adopt(s)) && Adopt(Adopt(s)).lastSeq == Adopt(s).lastSeq
  {
    hide LastGap;
  }

  lemma {:induction false} CollectMoves(p: Placing, r: Record, io: Io)
    requires R.Grounded(p.s) && Asked(p.s) && Drained(p.s) && !Overflows(p.s, r)
    ensures Moves(p.s, Collect(p, r, io).s)
  {
    hide RequestGap, Drain, Moves, Asked, Drained;
    var s := Adopt(p.s);
    AdoptMoves(p.s);
    Unpack(p.s, s);
    if r.seqNo > s.lastSeq + 1 {
      EarlyMoves(s, r, io);
      MovesOn(p.s, s, Collect(p, r, io).s);
    } else if r.seqNo == s.lastSeq + 1 {
      NextMoves(s, p.applied, r);
      MovesOn(p.s, s, Collect(p, r, io).s);
    }
  }

  lemma {:induction false} MovesOn(s: State, t: State, u: State)
    requires Moves(s, t) && Moves(t, u)
    ensures Moves(s, u)
  {
  }

  lemma {:induction false} CollectAllMoves(p: Placing, rows: seq<Record>, io: Io)
    requires R.Grounded(p.s) && Asked(p.s) && Drained(p.s) && R.NoOverflow(p, rows, io)
    ensures Moves(p.s, CollectAll(p, rows, io).s)
    decreases |rows|
  {
    hide Collect, Overflows, LastGap, Moves;
    if rows == [] {
      Stays(p.s);
    } else {
      var n := |rows| - 1;
      CollectAllMoves(p, rows[..n], io);
      R.CollectAllSteady(p, rows[..n], io);
      var q := CollectAll(p, rows[..n], io);
      Unpack(p.s, q.s);
      CollectMoves(q, rows[n], io);
      MovesOn(p.s, q.s, Collect(q, rows[n], io).s);
    }
  }

  lemma {:induction false} Stays(s: State)
    requires Asked(s) && Drained(s)
    ensures Moves(s, s)
  {
  }

  lemma {:induction false} Unpack(s: State, t: State)
    requires Moves(s, t)
    ensures Asked(t) && Drained(t) && t.lastSeq >= s.lastSeq
  {
  }

  lemma {:induction false} FlushMoves(p: Placing)
    requires Asked(p.s) && Drained(p.s)
    ensures Moves(p.s, Flush(p))
  {
    hide LastGap;
    if p.applied != [] { LastGapSay(p.s.log, RecordsEvent(p.applied)); }
  }

  /** Work left before row `T`, the fruitless replies still tolerated, and what an overtaken request may forgive. */
  ghost function Work(s: State, T: int): int {
    6 * IntMax(0, T - s.lastSeq) + (MAX_NO_PROGRESS_BACKFILLS - s.noProgress) + if Overtaken(s) then 3 else 0
  }

  /** A client that can repair: running, not yet at its third fruitless reply. */
  ghost predicate Repairing(s: State) {
    s.attached && !s.stopped && R.Grounded(s) && s.floorSeq >= 0 && s.noProgress < MAX_NO_PROGRESS_BACKFILLS
      && Asked(s) && Drained(s)
  }

  lemma {:induction false} MovesLessens(s: State, t: State, T: int)
    requires Moves(s, t) && t.lastSeq < T
    ensures Work(t, T) <= Work(s, T)
  {
  }

  /** A reply to the request last sent, which is still pending. */
  ghost predicate Answers(s: State, f: BackfillFrame) {
    s.gapPending && f.requestId !in s.older && LastGap(s.log) == Some(Sent(f.requestId, f.fromSeq, f.toSeq))
  }

  lemma {:induction false} RetryMoves(s: State, throughSeq: int, io: Io)
    requires Asked(s) && Drained(s) && s.attached && !s.stopped
    ensures var t := RetryOrFail(s, throughSeq, io);
            if t.stopped then !t.attached else Moves(s, t) && (!s.gapPending ==> !Overtaken(t))
  {
    hide RequestGap, LastGap;
    GapMoves(s, throughSeq, io);
    GapFrame(s, throughSeq, io);
  }

  /** Once the rows are placed, what is judged resolved has reached the end of the range asked for. */
  lemma {:induction false} ResolvedReaches(t: State, toSeq: int)
    requires Drained(t) && R.Grounded(t) && t.lastSeq >= ThroughSeq(t, toSeq)
    ensures t.lastSeq >= toSeq
  {
  }

  /** Every such reply lowers the work, short of `T`; whether it progresses, stalls or is resolved. */
  lemma {:induction false} ReplyLessens(s: State, f: BackfillFrame, io: Io, T: int)
    requires Repairing(s) && Answers(s, f) && R.NoOverflow(Placing(s.(gapPending := false), []), f.records, io)
    ensures var t := HandleRepair(s, f, io);
            if t.stopped then !t.attached
            else Repairing(t) && t.lastSeq >= s.lastSeq && (t.lastSeq < T ==> Work(t, T) < Work(s, T))
  {
    hide RetryOrFail, CollectAll, LastGap, R.NoOverflow, Overtaken, Drained, Flush, ThroughSeq;
    var p := Placing(s.(gapPending := false), []);
    Forgets(s);
    CollectAllMoves(p, f.records, io);
    var q := CollectAll(p, f.records, io);
    FlushMoves(q);
    MovesOn(p.s, q.s, Flush(q));
    R.CollectAllSteady(p, f.records, io);
    var t := AfterRows(s, f.records, io);
    assert t == Flush(q) && R.Grounded(t) by { FlushGrounds(q); }
    var through := ThroughSeq(t, f.toSeq);
    if t.lastSeq >= through {
      ResolvedReaches(t, f.toSeq);
      Renumber(t, 0);
      if t.lastSeq == s.lastSeq { AnswerOvertaken(s, f); }
    } else {
      var np := if t.lastSeq > s.lastSeq then 0 else t.noProgress + 1;
      Renumber(t, np);
      RetryMoves(t.(noProgress := np), through, io);
    }
  }

  lemma {:induction false} FlushGrounds(p: Placing)
    ensures Flush(p).windowStartSeq == p.s.windowStartSeq && Flush(p).lastSeq == p.s.lastSeq
  {
  }

  lemma {:induction false} Forgets(s: State)
    requires Drained(s)
    ensures var t := s.(gapPending := false); Asked(t) && Drained(t) && !Overtaken(t)
  {
  }

  lemma {:induction false} Renumber(s: State, n: nat)
    ensures var t := s.(noProgress := n);
            Overtaken(t) == Overtaken(s) && (Asked(s) ==> Asked(t)) && (Drained(s) ==> Drained(t))
  {
  }

  lemma {:induction false} AnswerOvertaken(s: State, f: BackfillFrame)
    requires Asked(s) && Answers(s, f) && s.lastSeq >= f.toSeq
    ensures Overtaken(s)
  {
  }

  /** Rows that overflow nothing, replies to the request last sent, and due timers that find the socket open. */
  ghost predicate Phase(s: State, steps: seq<Step>)
    decreases |steps|
  {
    steps == [] ||
    (&& (match steps[0].input
         case RecordIn(r) => s.attached ==> !Overflows(s, r)
         case BackfillIn(f) =>
           s.attached ==> Answers(s, f) && R.NoOverflow(Placing(s.(gapPending := false), []), f.records, steps[0].io)
         case GraceDue => s.attached ==> steps[0].io.open
         case _ => false)
     && Phase(Apply(s, steps[0]), steps[1..]))
  }

  ghost function ReplyCount(steps: seq<Step>): nat {
    if steps == [] then 0 else (if steps[0].input.BackfillIn? then 1 else 0) + ReplyCount(steps[1..])
  }

  lemma {:induction false} RecordLessens(s: State, r: Record, io: Io, T: int)
    requires Repairing(s) && !Overflows(s, r)
    ensures var t := HandleRecord(s, r, io);
            Repairing(t) && t.lastSeq >= s.lastSeq && (t.lastSeq < T ==> Work(t, T) <= Work(s, T))
  {
    hide Collect, Overtaken, LastGap, Drained, Flush;
    var p := Placing(s, []);
    var q := Collect(p, r, io);
    CollectMoves(p, r, io);
    FlushMoves(q);
    MovesOn(s, q.s, Flush(q));
    R.CollectSteady(p, r, io);
    FlushGrounds(q);
    if Flush(q).lastSeq < T { MovesLessens(s, Flush(q), T); }
  }

  lemma {:induction false} TimerLessens(s: State, io: Io, T: int)
    requires Repairing(s) && io.open
    ensures var t := GraceTimer(s, io);
            Repairing(t) && t.lastSeq == s.lastSeq && Work(t, T) <= Work(s, T)
  {
    hide Take, LastGap;
    var t := GraceTimer(s, io);
    if t.log != s.log { LastGapSay(s.log, t.log[|s.log|]); }
  }

  /**
   * Whatever row `T` is: along such a run, once the replies are as many as the
   * work at its start, the stream has reached `T` or the client has stopped.
   */
  lemma {:induction false} RepairsReach(s: State, steps: seq<Step>, T: int)
    requires Repairing(s) && Phase(s, steps) && ReplyCount(steps) >= Work(s, T)
    ensures var t := Run(s, steps); t.lastSeq >= T || t.stopped
    decreases |steps|
  {
    WorkLeft(s, steps, T);
  }

  lemma {:induction false} WorkLeft(s: State, steps: seq<Step>, T: int)
    requires Repairing(s) && Phase(s, steps)
    ensures var t := Run(s, steps);
            t.stopped || (Repairing(t) && t.lastSeq >= s.lastSeq
                          && (t.lastSeq < T ==> ReplyCount(steps) + Work(t, T) <= Work(s, T)))
    decreases |steps|
  {
    hide HandleRepair, HandleOlderReply, HandleRecord, GraceTimer, Work, R.NoOverflow,
         Overflows, Asked, Drained, LastGap;
    if steps != [] {
      var step, rest := steps[0], steps[1..];
      match step.input {
        case RecordIn(r) => RecordLessens(s, r, step.io, T);
        case BackfillIn(f) => ReplyLessens(s, f, step.io, T);
        case GraceDue => TimerLessens(s, step.io, T);
        case _ =>
      }
      var t := Apply(s, step);
      if t.stopped { StoppedStays(t, rest); } else { WorkLeft(t, rest, T); }
    }
  }

  lemma {:induction false} StoppedStays(s: State, steps: seq<Step>)
    requires s.stopped && !s.attached && Phase(s, steps)
    ensures Run(s, steps).stopped
    decreases |steps|
  {
    hide HandleRepair, HandleOlderReply, HandleRecord, Take, R.NoOverflow, Overflows, LastGap;
    if steps != [] { StoppedStays(Apply(s, steps[0]), steps[1..]); }
  }
}
