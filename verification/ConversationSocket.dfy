/**
 * The client itself (conversation-socket.ts:205-994): fields updated in place,
 * loops over frames and buffers, each handler tied to its function in SocketSpec.
 */
module ConversationSockets {
  import opened Options
  import opened Ints
  import opened JournalRecords
  import opened BackfillBudgets
  import S = SocketSpec

  class ConversationSocket {
    var attached: bool
    var stopped: bool
    var lastSeq: int
    var epoch: Option<int>
    var headSeq: int
    var windowStartSeq: int
    var floorSeq: int
    var ahead: map<int, Record>
    var gapPending: bool
    var noProgressBackfills: nat
    var requestCounter: nat
    var olderRequests: map<S.RequestId, S.OlderRequest>
    const budget: BackfillBudget
    var graceArmed: bool
    ghost var origin: int
    var log: seq<S.Output>

    /** Early rows sit under their own sequence numbers. */
    ghost predicate Valid()
      reads this
    {
      forall k :: k in ahead ==> ahead[k].seqNo == k
    }

    ghost function Contents(): S.State
      reads this, budget
    {
      S.State(attached, stopped, lastSeq, epoch, headSeq, windowStartSeq, floorSeq, ahead, gapPending,
              noProgressBackfills, requestCounter, olderRequests, budget.Contents(), graceArmed, origin, log)
    }

    constructor (initialCursor: Option<S.Cursor>, now: int)
      ensures Valid() && Contents() == S.Initial(initialCursor, now) && fresh(budget)
    {
      attached, stopped, lastSeq, epoch := false, true, -1, None;
      headSeq, windowStartSeq, floorSeq := -1, 0, 0;
      ahead, gapPending, noProgressBackfills, requestCounter := map[], false, 0, 0;
      olderRequests, graceArmed, origin, log := map[], false, 0, [];
      var b := new BackfillBudget(now);
      budget := b;
      if initialCursor.Some? && S.CursorAccepted(initialCursor.value) {
        var cursor := initialCursor.value;
        epoch, lastSeq, headSeq := Some(cursor.epoch), cursor.lastSeq, cursor.headSeq;
        floorSeq, windowStartSeq, origin := cursor.floorSeq, cursor.windowStartSeq, cursor.lastSeq + 1;
      }
    }

    method Say(o: S.Output)
      modifies this`log
      ensures log == old(log) + [o]
    {
      log := log + [o];
    }

    method NextRequestId(prefix: char) returns (id: S.RequestId)
      modifies this`requestCounter
      ensures (Contents(), id) == S.NextRequestId(old(Contents()), prefix)
    {
      requestCounter := requestCounter + 1;
      id := S.RequestId(prefix, requestCounter);
    }

    method Send(id: S.RequestId, fromSeq: int, toSeq: int, io: S.Io) returns (ok: bool)
      modifies this`log
      ensures S.Sending(Contents(), ok) == S.Send(old(Contents()), id, fromSeq, toSeq, io)
    {
      if !attached || !io.open { return false; }
      Say(S.Sent(id, fromSeq, toSeq));
      return true;
    }

    method ForceReconnect()
      modifies this`attached, this`graceArmed, this`log
      ensures Contents() == S.ForceReconnect(old(Contents()))
    {
      attached := false;
      graceArmed := false;
      if !stopped { Say(S.Connecting); }
    }

    /** Buffered rows, the pending repair and scrollback, all forgotten. */
    method DropInFlight()
      modifies this`ahead, this`gapPending, this`noProgressBackfills, this`olderRequests
      ensures Valid()
      ensures Contents() == old(Contents()).(ahead := map[], gapPending := false, noProgress := 0, older := map[])
    {
      ahead, gapPending := map[], false;
      noProgressBackfills, olderRequests := 0, map[];
    }

    method ResetStream(reason: S.ResetReason)
      modifies this
      ensures Valid() && Contents() == S.ResetStream(old(Contents()), reason)
    {
      lastSeq := -1;
      DropInFlight();
      Say(S.ResetEvent(reason));
    }

    method FailGapRecovery()
      modifies this`attached, this`stopped, this`graceArmed, this`gapPending, this`log
      ensures Contents() == S.FailGapRecovery(old(Contents()))
    {
      attached := false;
      stopped := true;
      graceArmed := false;
      gapPending := false;
      Say(S.BlockedEvent);
    }

    method HandleClose(terminal: bool)
      modifies this
      ensures Valid() && Contents() == S.HandleClose(old(Contents()), terminal)
    {
      attached, graceArmed := false, false;
      DropInFlight();
      if terminal { stopped := true; }
    }

    method ArmResumeGrace()
      modifies this`graceArmed
      ensures Contents() == S.ArmResumeGrace(old(Contents()))
    {
      graceArmed := false;
      if headSeq < 0 || lastSeq >= headSeq { return; }
      graceArmed := true;
    }

    method RequestGap(throughSeq: int, io: S.Io) returns (ok: bool)
      modifies this`requestCounter, this`log, this`gapPending, budget
      ensures S.Sending(Contents(), ok) == S.RequestGap(old(Contents()), throughSeq, io)
    {
      hide Take;
      if gapPending { return true; }
      var fromSeq := lastSeq + 1;
      var toSeq := IntMin(throughSeq, fromSeq + S.MAX_RESUME_RECORDS - 1);
      if toSeq < fromSeq { return true; }
      var granted := budget.TakeAt(io.now, 0);
      if !granted { return false; }
      var id := NextRequestId('g');
      var sent := Send(id, fromSeq, toSeq, io);
      if !sent { return false; }
      gapPending := true;
      return true;
    }

    /** The next row is placed with those waiting behind it; a later one waits; a known one is dropped. */
    method Collect(record: Record, applied: seq<Record>, io: S.Io) returns (placed: seq<Record>)
      requires Valid()
      modifies this, budget
      ensures Valid()
      ensures S.Placing(Contents(), placed) == S.Collect(S.Placing(old(Contents()), applied), record, io)
    {
      hide S.RequestGap, S.ResetStream, S.ForceReconnect, S.Drain, S.Adopt;
      placed := applied;
      AdoptStart();
      if record.seqNo <= lastSeq { return; }
      if record.seqNo > lastSeq + 1 {
        if |ahead| >= S.MAX_BUFFERED_AHEAD {
          ResetStream(S.WindowReset);
          ForceReconnect();
          return;
        }
        ahead := ahead[record.seqNo := record];
        var _ := RequestGap(record.seqNo - 1, io);
        return;
      }
      placed := placed + [record];
      lastSeq := record.seqNo;
      placed := DrainAhead(placed);
    }

    /** A view with no row yet starts where `ready` promised, not at whichever row came first. */
    method AdoptStart()
      requires Valid()
      modifies this`lastSeq, this`origin
      ensures Valid() && Contents() == S.Adopt(old(Contents()))
    {
      if lastSeq < 0 {
        lastSeq := windowStartSeq - 1;
        origin := windowStartSeq;
      }
    }

    /** Takes from the buffer while the next row is there. */
    method DrainAhead(applied: seq<Record>) returns (placed: seq<Record>)
      requires Valid()
      modifies this`ahead, this`lastSeq
      ensures Valid()
      ensures S.Placing(Contents(), placed) == S.Drain(S.Placing(old(Contents()), applied))
    {
      placed := applied;
      ghost var goal := S.Drain(S.Placing(Contents(), placed));
      while lastSeq + 1 in ahead
        invariant Valid()
        invariant S.Drain(S.Placing(Contents(), placed)) == goal
        invariant Contents() == old(Contents()).(ahead := ahead, lastSeq := lastSeq)
        decreases |ahead|
      {
        var next := ahead[lastSeq + 1];
        assert (ahead - {lastSeq + 1}).Keys == ahead.Keys - {lastSeq + 1};
        ahead := ahead - {next.seqNo as int};
        placed := placed + [next];
        lastSeq := next.seqNo;
      }
    }

    method Flush(applied: seq<Record>)
      requires Valid()
      modifies this`headSeq, this`log, this`graceArmed
      ensures Valid() && Contents() == S.Flush(S.Placing(old(Contents()), applied))
    {
      if applied == [] { return; }
      headSeq := IntMax(headSeq, lastSeq);
      Say(S.RecordsEvent(applied));
      ArmResumeGrace();
    }

    method ApplyRecord(record: Record, io: S.Io)
      requires Valid()
      modifies this, budget
      ensures Valid() && Contents() == S.HandleRecord(old(Contents()), record, io)
    {
      hide S.Collect;
      var applied := Collect(record, [], io);
      Flush(applied);
    }

    method RetryOrFail(throughSeq: int, io: S.Io)
      requires Valid()
      modifies this, budget
      ensures Valid() && Contents() == S.RetryOrFail(old(Contents()), throughSeq, io)
    {
      hide S.RequestGap, S.FailGapRecovery;
      if gapPending { return; }
      var asked := RequestGap(throughSeq, io);
      if !asked { FailGapRecovery(); }
    }

    /** The rows of one repair reply, placed and announced. */
    method PlaceRows(records: seq<Record>, io: S.Io)
      requires Valid()
      modifies this, budget
      ensures Valid() && Contents() == S.AfterRows(old(Contents()), records, io)
    {
      hide S.Collect, S.Flush;
      gapPending := false;
      ghost var start := S.Placing(Contents(), []);
      var applied := [];
      var i := 0;
      while i < |records|
        invariant 0 <= i <= |records| && Valid()
        invariant S.Placing(Contents(), applied) == S.CollectAll(start, records[..i], io)
      {
        applied := Collect(records[i], applied, io);
        assert records[..i + 1][..i] == records[..i];
        i := i + 1;
      }
      assert records[..i] == records;
      Flush(applied);
    }

    method HandleRepair(frame: S.BackfillFrame, io: S.Io)
      requires Valid()
      modifies this, budget
      ensures Valid() && Contents() == S.HandleRepair(old(Contents()), frame, io)
    {
      hide S.AfterRows, S.RetryOrFail, S.FailGapRecovery, S.MinKey;
      var before := lastSeq;
      PlaceRows(frame.records, io);
      var throughSeq := if |ahead| > 0 then IntMin(frame.toSeq, S.MinKey(ahead) - 1) else frame.toSeq;
      if lastSeq >= throughSeq {
        noProgressBackfills := 0;
        return;
      }
      if lastSeq > before {
        noProgressBackfills := 0;
      } else {
        noProgressBackfills := noProgressBackfills + 1;
        if noProgressBackfills >= S.MAX_NO_PROGRESS_BACKFILLS {
          FailGapRecovery();
          return;
        }
      }
      RetryOrFail(throughSeq, io);
    }

    method ContinueOlder(request: S.OlderRequest, records: seq<Record>, fromSeq: int, io: S.Io) returns (ok: bool)
      requires Valid()
      modifies this`requestCounter, this`log, this`olderRequests, budget
      ensures S.Sending(Contents(), ok) == S.ContinueOlder(old(Contents()), request, records, fromSeq, io)
    {
      hide Take;
      var id := NextRequestId('o');
      var granted := budget.TakeAt(io.now, 4);
      if !granted { return false; }
      var sent := Send(id, fromSeq, request.toSeq, io);
      if !sent { return false; }
      olderRequests := olderRequests[id := request.(nextSeq := fromSeq, records := records)];
      return true;
    }

    method HandleOlderReply(frame: S.BackfillFrame, io: S.Io)
      requires Valid() && frame.requestId in olderRequests
      modifies this, budget
      ensures Valid() && Contents() == S.HandleOlderReply(old(Contents()), frame, io)
    {
      hide S.ContinueOlder, S.AtOrAfter;
      var request := olderRequests[frame.requestId];
      olderRequests := olderRequests - {frame.requestId};
      var records := request.records + S.AtOrAfter(frame.records, request.nextSeq);
      var last := S.LastSeqOf(records, request.nextSeq - 1);
      if !frame.complete && last < request.toSeq {
        var asked := ContinueOlder(request, records, last + 1, io);
        if asked { return; }
      }
      Say(S.OlderEvent(records, frame.complete && last >= request.toSeq, request.fromSeq, request.toSeq));
    }

    method HandleBackfill(frame: S.BackfillFrame, io: S.Io)
      requires Valid()
      modifies this, budget
      ensures Valid() && Contents() == S.HandleBackfill(old(Contents()), frame, io)
    {
      hide S.HandleOlderReply, S.HandleRepair;
      if frame.requestId in olderRequests { HandleOlderReply(frame, io); } else { HandleRepair(frame, io); }
    }

    /** The cursor after a `ready`, reset where it cannot continue. */
    method AdoptReady(ready: S.ReadyFrame)
      requires Valid()
      modifies this
      ensures Valid() && Contents() == S.ReadyCursor(old(Contents()), ready)
    {
      hide S.ResetStream;
      var epochChanged := epoch.Some? && epoch.value != ready.epoch;
      var unbridgeable := lastSeq >= 0 && ready.windowStartSeq > lastSeq + 1;
      headSeq, windowStartSeq, floorSeq := ready.headSeq, ready.windowStartSeq, ready.floorSeq;
      epoch := Some(ready.epoch);
      if epochChanged || unbridgeable {
        ResetStream(if epochChanged then S.EpochReset else S.WindowReset);
      }
    }

    method HandleReady(ready: S.ReadyFrame)
      requires Valid()
      modifies this
      ensures Valid() && Contents() == S.HandleReady(old(Contents()), ready)
    {
      hide S.ResetStream, S.ForceReconnect, S.ReadyCursor;
      AdoptReady(ready);
      if lastSeq >= 0 && ready.headSeq - lastSeq > S.MAX_CATCHUP_RESUME_RECORDS {
        ResetStream(S.WindowReset);
        ForceReconnect();
        return;
      }
      Say(S.ReadyEvent(ready));
      ArmResumeGrace();
    }

    method ResumeTimer(io: S.Io)
      requires Valid()
      modifies this, budget
      ensures Valid() && Contents() == S.GraceTimer(old(Contents()), io)
    {
      hide Take;
      if !graceArmed { return; }
      graceArmed := false;
      if lastSeq >= headSeq { return; }
      if gapPending { return; }
      var fromSeq := if lastSeq >= 0 then lastSeq + 1
                     else IntMax(floorSeq, headSeq - S.INITIAL_WINDOW_RECORDS + 1);
      var toSeq := IntMin(headSeq, fromSeq + S.MAX_RESUME_RECORDS - 1);
      if toSeq < fromSeq { return; }
      var granted := budget.TakeAt(io.now, 0);
      if !granted { return; }
      gapPending := true;
      var id := NextRequestId('g');
      var _ := Send(id, fromSeq, toSeq, io);
    }

    method RequestOlderRange(fromSeq: int, toSeq: int, io: S.Io) returns (ok: bool)
      requires Valid()
      modifies this, budget
      ensures Valid() && S.Sending(Contents(), ok) == S.RequestOlderRange(old(Contents()), fromSeq, toSeq, io)
    {
      hide Take;
      if fromSeq > toSeq || fromSeq < floorSeq { return false; }
      var granted := budget.TakeAt(io.now, 4);
      if !granted { return false; }
      var id := NextRequestId('o');
      var sent := Send(id, fromSeq, toSeq, io);
      if !sent { return false; }
      olderRequests := olderRequests[id := S.OlderRequest(fromSeq, toSeq, fromSeq, [])];
      return true;
    }

    method RetryNow()
      requires Valid()
      modifies this
      ensures Valid() && Contents() == S.Retry(old(Contents()))
    {
      noProgressBackfills := 0;
      if attached { return; }
      stopped := false;
      graceArmed := false;
      Say(S.Connecting);
    }

    /** One thing happens to the client: the run theorems about `S.Run` are about this method. */
    method Handle(step: S.Step)
      requires Valid()
      modifies this, budget
      ensures Valid() && Contents() == S.Apply(old(Contents()), step)
    {
      hide S.HandleReady, S.HandleRecord, S.HandleBackfill, S.GraceTimer, S.RequestOlderRange, S.ResetStream,
           S.HandleClose, S.ForceReconnect, S.Retry;
      match step.input {
        case Opened => if !stopped { attached := true; }
        case ReadyIn(f) => if attached { HandleReady(f); }
        case RecordIn(r) => if attached { ApplyRecord(r, step.io); }
        case BackfillIn(f) => if attached { HandleBackfill(f, step.io); }
        case GapIn(a, b) => if attached { Say(S.GapEvent(a, b)); }
        case ResetIn(reason) => if attached { ResetStream(reason); }
        case Closed(terminal) => if attached { HandleClose(terminal); }
        case ProbeTimeout => if attached { ForceReconnect(); }
        case GraceDue => ResumeTimer(step.io);
        case OlderWanted(a, b) => var _ := RequestOlderRange(a, b, step.io);
        case RetryPressed => RetryNow();
        case Stopped =>
          attached := false;
          stopped := true;
          graceArmed := false;
      }
    }
  }
}
