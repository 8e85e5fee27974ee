/** A server that sends exactly the rows it is asked for brings the stream to its head. */
module SocketServed {
  import opened Options
  import opened Ints
  import opened JournalRecords
  import opened SocketSpec
  import opened SocketStart
  import opened BackfillBudgets
  import opened SocketPending
  import opened SocketReach
  import R = SocketRepair

  /** The reply holds every row from the first to the last it was asked for, and no other. */
  ghost predicate Exact(f: BackfillFrame) {
    |f.records| == f.toSeq - f.fromSeq + 1 && forall i :: 0 <= i < |f.records| ==> f.records[i].seqNo == f.fromSeq + i
  }

  lemma {:induction false} CollectPlaces(p: Placing, r: Record, io: Io)
    requires R.Grounded(p.s) && r.seqNo <= Adopt(p.s).lastSeq + 1
    ensures var s, q := Adopt(p.s), Collect(p, r, io);
            && !Overflows(p.s, r) && q.s == s.(lastSeq := q.s.lastSeq, ahead := q.s.ahead)
            && q.s.lastSeq >= s.lastSeq && q.s.lastSeq >= r.seqNo && |q.applied| >= |p.applied|
            && (q.s.lastSeq > s.lastSeq ==> q.applied != [])
  {
    hide RequestGap, Drain;
    var s := Adopt(p.s);
    if r.seqNo == s.lastSeq + 1 { Drains(Placing(s.(lastSeq := r.seqNo), p.applied + [r])); }
  }

  /** Rows the stream is ready for are placed or known; nothing overflows and nothing is asked for. */
  lemma {:induction false} RowsPlace(p: Placing, f: BackfillFrame, io: Io, n: nat)
    requires R.Grounded(p.s) && Exact(f) && f.fromSeq <= Adopt(p.s).lastSeq + 1 && n <= |f.records|
    ensures var s, q := Adopt(p.s), CollectAll(p, f.records[..n], io);
            && R.NoOverflow(p, f.records[..n], io)
            && if n == 0 then q == p
               else
                 && q.s == s.(lastSeq := q.s.lastSeq, ahead := q.s.ahead)
                 && q.s.lastSeq >= s.lastSeq && q.s.lastSeq >= f.fromSeq + n - 1 && q.s.lastSeq >= 0
                 && (q.s.lastSeq > s.lastSeq ==> q.applied != [])
    decreases n
  {
    hide Collect, Overflows;
    if n > 0 {
      var front := f.records[..n - 1];
      assert f.records[..n][..n - 1] == front;
      RowsPlace(p, f, io, n - 1);
      var q := CollectAll(p, front, io);
      CollectPlaces(q, f.records[n - 1], io);
    }
  }

  /** What a reply that leaves nothing to ask for keeps. */
  ghost predicate Settled(s: State, t: State) {
    && t.attached == s.attached && t.stopped == s.stopped && t.older == s.older && t.floorSeq == s.floorSeq
    && t.windowStartSeq == s.windowStartSeq && t.budget == s.budget && t.epoch == s.epoch
    && !t.gapPending && t.noProgress == 0 && Requests(t.log) == Requests(s.log)
  }

  lemma {:induction false} FlushSettles(p: Placing)
    ensures var t := Flush(p);
            && t == p.s.(headSeq := t.headSeq, graceArmed := t.graceArmed, log := t.log)
            && Requests(t.log) == Requests(p.s.log) && t.headSeq >= p.s.headSeq
            && (t.headSeq == p.s.headSeq || t.headSeq == t.lastSeq)
            && (p.applied == [] ==> t.graceArmed == p.s.graceArmed && t.headSeq == p.s.headSeq)
            && (p.applied != [] && 0 <= t.lastSeq < t.headSeq ==> t.graceArmed)
  {
    hide Requests;
    SaysNoRequest(p.s, Flush(p));
  }

  lemma {:induction false} PlacedSettles(s: State, q: Placing)
    requires q.s == Adopt(s.(gapPending := false)).(lastSeq := q.s.lastSeq, ahead := q.s.ahead)
    ensures Settled(s, Flush(q).(noProgress := 0))
    ensures var t := Flush(q);
            && t.lastSeq == q.s.lastSeq && (t.headSeq == s.headSeq || t.headSeq == t.lastSeq) && t.headSeq >= s.headSeq
            && (q.applied == [] ==> t.graceArmed == s.graceArmed)
            && (q.applied != [] && 0 <= t.lastSeq < t.headSeq ==> t.graceArmed)
  {
    hide Flush, Requests;
    FlushSettles(q);
  }

  /** Its rows placed, an exact reply has brought the cursor to its end. */
  lemma {:induction false} ExactRowsPlace(s: State, f: BackfillFrame, io: Io)
    requires R.Grounded(s) && Exact(f) && f.fromSeq <= f.toSeq && f.fromSeq <= Adopt(s).lastSeq + 1
    ensures R.NoOverflow(Placing(s.(gapPending := false), []), f.records, io)
    ensures var t := AfterRows(s, f.records, io);
            && t.lastSeq >= f.toSeq && t.lastSeq >= s.lastSeq && Settled(s, t.(noProgress := 0))
            && (t.headSeq == s.headSeq || t.headSeq == t.lastSeq) && t.headSeq >= s.headSeq
            && (t.lastSeq < t.headSeq && (s.graceArmed || t.lastSeq > Adopt(s).lastSeq) ==> t.graceArmed)
  {
    assert |f.records| == f.toSeq - f.fromSeq + 1;
    hide CollectAll, Flush, R.NoOverflow, Requests, Exact, Settled;
    var p := Placing(s.(gapPending := false), []);
    RowsPlace(p, f, io, |f.records|);
    assert f.records[..|f.records|] == f.records;
    PlacedSettles(s, CollectAll(p, f.records, io));
  }

  /**
   * A reply with exactly the rows asked for, the first of them no further than
   * the row the stream needs, is resolved: the cursor comes to its end, nothing
   * overflows and no further request goes out.
   */
  lemma {:induction false} ExactReplyResolves(s: State, f: BackfillFrame, io: Io)
    requires R.Grounded(s) && Exact(f) && f.fromSeq <= f.toSeq && f.fromSeq <= Adopt(s).lastSeq + 1
    ensures R.NoOverflow(Placing(s.(gapPending := false), []), f.records, io)
    ensures var t := HandleRepair(s, f, io);
            && t.lastSeq >= f.toSeq && t.lastSeq >= s.lastSeq && Settled(s, t)
            && (t.headSeq == s.headSeq || t.headSeq == t.lastSeq) && t.headSeq >= s.headSeq
            && (t.lastSeq < t.headSeq && (s.graceArmed || t.lastSeq > Adopt(s).lastSeq) ==> t.graceArmed)
  {
    hide AfterRows, RetryOrFail, R.NoOverflow, ThroughSeq, Requests, Settled;
    ExactRowsPlace(s, f, io);
    var t := AfterRows(s, f.records, io);
    ThroughAtMost(t, f.toSeq);
  }

  lemma {:induction false} ThroughAtMost(s: State, toSeq: int)
    ensures ThroughSeq(s, toSeq) <= toSeq
  {
  }

  // ------------------------------------------------------------------ timer and reply

  /** The row from which a timer on an empty view asks. */
  ghost function Newest(s: State): int { IntMax(s.floorSeq, s.headSeq - INITIAL_WINDOW_RECORDS + 1) }

  /**
   * Connected with nothing pending, the timer set while rows are missing; an
   * empty view was promised the newest ones.
   */
  ghost predicate Following(s: State) {
    && s.attached && !s.stopped && !s.gapPending && R.Grounded(s) && s.floorSeq >= 0
    && (forall id :: id in s.older ==> id.prefix != 'g')
    && (s.lastSeq < s.headSeq ==> s.graceArmed)
    && (s.lastSeq < 0 <= s.headSeq ==> s.floorSeq <= s.headSeq && s.windowStartSeq >= Newest(s))
  }

  ghost predicate Refused(s: State, step: Step) {
    step.input.GraceDue? && s.lastSeq < s.headSeq && !Take(s.budget, step.io.now, 0).granted
  }

  /** The timer falls due on an open socket, and each request it sends is answered exactly. */
  ghost predicate Served(s: State, steps: seq<Step>)
    decreases |steps|
  {
    steps == [] ||
    (&& steps[0].input.GraceDue? && steps[0].io.open
     && var t := Apply(s, steps[0]);
        if !t.gapPending then Served(t, steps[1..])
        else
          && |steps| > 1 && steps[1].input.BackfillIn? && Answers(t, steps[1].input.backfill)
          && Exact(steps[1].input.backfill) && Served(Apply(t, steps[1]), steps[2..]))
  }

  ghost function Timers(steps: seq<Step>): nat {
    if steps == [] then 0 else (if steps[0].input.GraceDue? then 1 else 0) + Timers(steps[1..])
  }

  /** The timer of a client that lacks rows sends for the next ones, unless it is refused a token. */
  lemma {:induction false} TimerSends(s: State, io: Io)
    requires Following(s) && io.open
    ensures var t := GraceTimer(s, io);
            && t == s.(graceArmed := t.graceArmed, gapPending := t.gapPending, budget := t.budget,
                       requestCounter := t.requestCounter, log := t.log)
            && (t.gapPending <==> s.lastSeq < s.headSeq && !Refused(s, Step(GraceDue, io)))
            && (t.gapPending ==>
                  && LastGap(t.log).Some? && LastGap(t.log).value.Sent?
                  && LastGap(t.log).value.sentFrom == (if s.lastSeq >= 0 then s.lastSeq + 1 else Newest(s))
                  && LastGap(t.log).value.sentTo
                     == IntMin(s.headSeq, LastGap(t.log).value.sentFrom + MAX_RESUME_RECORDS - 1))
  {
    hide Take, LastGap;
    var t := GraceTimer(s, io);
    if t.log != s.log { LastGapSay(s.log, t.log[|s.log|]); }
  }

  /** One round: the request goes out and its answer brings the next rows, up to the head. */
  lemma {:induction false} RoundAdvances(s: State, due: Step, reply: Step)
    requires Following(s) && due.input.GraceDue? && due.io.open && Apply(s, due).gapPending
    requires reply.input.BackfillIn? && Answers(Apply(s, due), reply.input.backfill) && Exact(reply.input.backfill)
    ensures var t := Apply(Apply(s, due), reply);
            && Following(t) && t.headSeq >= s.headSeq && t.lastSeq >= IntMin(s.headSeq, s.lastSeq + MAX_RESUME_RECORDS)
            && (s.lastSeq < 0 ==> t.lastSeq >= s.headSeq)
  {
    hide GraceTimer, HandleRepair, HandleOlderReply, LastGap, Exact, Refused, R.NoOverflow, Requests;
    TimerSends(s, due.io);
    var t := GraceTimer(s, due.io);
    ExactReplyResolves(t, reply.input.backfill, reply.io);
  }

  /** A timer that sends nothing leaves everything the rounds depend on. */
  lemma {:induction false} QuietTimer(s: State, due: Step)
    requires Following(s) && due.input.GraceDue? && due.io.open && !Apply(s, due).gapPending && !Refused(s, due)
    ensures var t := Apply(s, due);
            Following(t) && t.headSeq == s.headSeq && t.lastSeq == s.lastSeq && s.lastSeq >= s.headSeq
  {
    hide GraceTimer, Take, LastGap;
    TimerSends(s, due.io);
  }

  /** The first steps of a run, one or two, shift the moments of the rest. */
  lemma {:induction false} RefusedLater(s: State, steps: seq<Step>, first: nat, k: nat)
    requires first in {1, 2} && first + k < |steps|
             && Refused(Run(Run(s, steps[..first]), steps[first..][..k]), steps[first..][k])
    ensures exists i: nat :: i < |steps| && Refused(Run(s, steps[..i]), steps[i])
  {
    hide Refused, Run;
    RunAppends(s, steps[..first], steps[first..][..k]);
    assert steps[..first] + steps[first..][..k] == steps[..first + k];
    assert Refused(Run(s, steps[..first + k]), steps[first + k]);
  }

  lemma {:induction false} RunAppends(s: State, before: seq<Step>, after: seq<Step>)
    ensures Run(s, before + after) == Run(Run(s, before), after)
    decreases |before|
  {
    hide Apply;
    if before == [] {
      assert before + after == after;
    } else {
      assert (before + after)[1..] == before[1..] + after;
      RunAppends(Apply(s, before[0]), before[1..], after);
    }
  }

  /** As many rounds as the head needs bring the stream to it, unless a token is refused. */
  lemma {:induction false} RoundsReach(s: State, steps: seq<Step>)
    requires Following(s) && Served(s, steps)
    ensures (exists k: nat :: k < |steps| && Refused(Run(s, steps[..k]), steps[k]))
            || Run(s, steps).lastSeq >= IntMin(s.headSeq, s.lastSeq + MAX_RESUME_RECORDS * Timers(steps))
    decreases |steps|
  {
    hide Apply, Refused, Following, Answers, Exact;
    if steps != [] {
      var t := Apply(s, steps[0]);
      assert steps[..1] == [steps[0]] && steps[..0] == [];
      NoSteps(s);
      assert Run(s, steps[..1]) == t;
      if Refused(s, steps[0]) {
        assert Refused(Run(s, steps[..0]), steps[0]);
      } else if !t.gapPending {
        QuietTimer(s, steps[0]);
        RoundsReach(t, steps[1..]);
        if k: nat :| k < |steps[1..]| && Refused(Run(t, steps[1..][..k]), steps[1..][k]) {
          RefusedLater(s, steps, 1, k);
        }
      } else {
        RoundAdvances(s, steps[0], steps[1]);
        var u := Apply(t, steps[1]);
        assert steps[..2] == [steps[0], steps[1]] && steps[..2][1..] == [steps[1]];
        assert Run(s, steps[..2]) == Run(t, [steps[1]]) == u;
        assert steps[1..][1..] == steps[2..];
        RoundsReach(u, steps[2..]);
        if k: nat :| k < |steps[2..]| && Refused(Run(u, steps[2..][..k]), steps[2..][k]) {
          RefusedLater(s, steps, 2, k);
        }
      }
    }
  }

  /** An honest server brings the stream to the head, or the budget refuses a request first. */
  lemma {:induction false} ServedReachesHead(s: State, steps: seq<Step>)
    requires Following(s) && Served(s, steps) && MAX_RESUME_RECORDS * Timers(steps) >= s.headSeq - s.lastSeq
    ensures Run(s, steps).lastSeq >= s.headSeq
            || exists k: nat :: k < |steps| && Refused(Run(s, steps[..k]), steps[k])
  {
    hide Run, Following, Served, Refused;
    RoundsReach(s, steps);
  }

  // ------------------------------------------------------------------ from a new client

  /** What an honest server says of its window: an empty view is promised the newest rows. */
  ghost predicate Promises(s: State, f: ReadyFrame) {
    && f.windowStartSeq >= 0 && f.floorSeq >= 0
    && (s.lastSeq < 0 <= f.headSeq ==>
          f.floorSeq <= f.headSeq && f.windowStartSeq >= IntMax(f.floorSeq, f.headSeq - INITIAL_WINDOW_RECORDS + 1))
  }

  lemma {:induction false} Connected(s: State, retry: Step, online: Step)
    requires s.stopped && !s.attached && retry.input.RetryPressed? && online.input.Opened?
    ensures var t := Apply(Apply(s, retry), online);
            t == s.(attached := true, stopped := false, noProgress := 0, graceArmed := false, log := t.log)
  {
  }

  lemma {:induction false} ReadyFollows(s: State, f: ReadyFrame)
    requires s.attached && !s.stopped && !s.gapPending && s.older == map[] && s.lastSeq >= -1
             && Promises(s, f) && Resumes(s, f)
    ensures var t := HandleReady(s, f);
            Following(t) && t.headSeq == f.headSeq && t.budget == s.budget && t.lastSeq == s.lastSeq
  {
  }

  /** A timer that falls due, and the reply if a request went out. */
  ghost predicate OneRound(s: State, round: seq<Step>) {
    |round| > 0 && Served(s, round) && |round| == if Apply(s, round[0]).gapPending then 2 else 1
  }

  lemma {:induction false} RoundReaches(s: State, round: seq<Step>)
    requires Following(s) && OneRound(s, round) && s.budget.tokens == RATE_BACKFILL_PER_MIN
    requires s.lastSeq >= 0 ==> s.headSeq - s.lastSeq <= MAX_RESUME_RECORDS
    ensures Run(s, round).lastSeq >= s.headSeq
  {
    FullGrants(s, round[0]);
    hide Apply, Following, Refused, Exact, Answers;
    var t := Apply(s, round[0]);
    if t.gapPending {
      RoundAdvances(s, round[0], round[1]);
      assert round[1..] == [round[1]] && Run(t, [round[1]]) == Apply(t, round[1]);
    } else {
      QuietTimer(s, round[0]);
      assert round[1..] == [];
    }
  }

  lemma {:induction false} FullGrants(s: State, step: Step)
    requires s.budget.tokens == RATE_BACKFILL_PER_MIN
    ensures !Refused(s, step)
  {
  }

  /**
   * A new client, cold or restored, that connects to an honest server which its
   * cursor can resume from stands at the head after the first round.
   */
  lemma {:induction false} FirstRoundReachesHead(cursor: Option<Cursor>, now: int, opening: seq<Step>, round: seq<Step>)
    requires |opening| == 3 && opening[0].input.RetryPressed? && opening[1].input.Opened? && opening[2].input.ReadyIn?
    requires var s, f := Initial(cursor, now), opening[2].input.ready; Promises(s, f) && Resumes(s, f)
    requires OneRound(Run(Initial(cursor, now), opening), round)
    ensures Run(Initial(cursor, now), opening + round).lastSeq >= opening[2].input.ready.headSeq
  {
    var s := Initial(cursor, now);
    Connected(s, opening[0], opening[1]);
    ReadyFollows(Apply(Apply(s, opening[0]), opening[1]), opening[2].input.ready);
    hide Following, OneRound, Initial, Promises, Run, HandleReady, Retry;
    var t := Run(s, opening);
    ThreeFirst(s, opening);
    RunAppends(s, opening, round);
    RoundReaches(t, round);
  }

  lemma {:induction false} ThreeFirst(s: State, opening: seq<Step>)
    requires |opening| == 3
    ensures Run(s, opening) == Apply(Apply(Apply(s, opening[0]), opening[1]), opening[2])
  {
    hide Apply, Run;
    assert opening[..0] == [] && opening[..3] == opening;
    NoSteps(s);
    NextStep(s, opening, 0);
    NextStep(s, opening, 1);
    NextStep(s, opening, 2);
  }
}
