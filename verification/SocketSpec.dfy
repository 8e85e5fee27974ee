/** Journal rows, and the client's side of the conversation protocol as functions on values. */
module JournalRecords {

  /** One durable row. `seqNo` is the source's `seq`; the body is opaque here. */
  datatype Record = Record(seqNo: nat, payload: string)

  /** What the server's journal holds, for every epoch and sequence number. */
  type Journal = (int, nat) -> string

  ghost function Row(j: Journal, epoch: int, n: nat): Record { Record(n, j(epoch, n)) }

  /** `rows` are consecutive rows of one epoch's journal, the first numbered `from`. */
  ghost predicate IsSegment(rows: seq<Record>, j: Journal, epoch: int, from: nat) {
    forall i :: 0 <= i < |rows| ==> rows[i] == Row(j, epoch, from + i)
  }
}

/**
 * The state of `ConversationSocket` (conversation-socket.ts:205-250) and what
 * each handler does to it. Calls to the outside (`onEvent`, `socket.send`,
 * `connect`) are appended to `log`.
 */
module SocketSpec {
  import opened Options
  import opened Ints
  import opened JournalRecords
  import opened BackfillBudgets

  const INITIAL_WINDOW_RECORDS := 100
  const MAX_RESUME_RECORDS := 2000
  const MAX_CATCHUP_RESUME_RECORDS := 300
  const MAX_BUFFERED_AHEAD := 512
  const MAX_NO_PROGRESS_BACKFILLS := 3

  datatype RequestId = RequestId(prefix: char, number: nat)

  datatype OlderRequest = OlderRequest(fromSeq: int, toSeq: int, nextSeq: int, records: seq<Record>)

  datatype ReadyFrame = ReadyFrame(epoch: int, headSeq: int, windowStartSeq: int, floorSeq: int)

  datatype BackfillFrame =
    BackfillFrame(requestId: RequestId, fromSeq: int, toSeq: int, complete: bool, records: seq<Record>)

  datatype Cursor = Cursor(epoch: int, lastSeq: int, headSeq: int, floorSeq: int, windowStartSeq: int)

  datatype ResetReason = EpochReset | WindowReset

  datatype Output =
    | ReadyEvent(ready: ReadyFrame)
    | RecordsEvent(records: seq<Record>)
    | OlderEvent(rows: seq<Record>, complete: bool, fromSeq: int, toSeq: int)
    | ResetEvent(reason: ResetReason)
    | GapEvent(gapFrom: int, gapTo: int)
    | BlockedEvent
    | Sent(requestId: RequestId, sentFrom: int, sentTo: int)
    | Connecting

  /** Rows that arrived early, under their own sequence numbers. */
  type Buffer = map<int, Record>

  datatype State = State(
    attached: bool,        // a socket whose handlers are installed
    stopped: bool,
    lastSeq: int,
    epoch: Option<int>,
    headSeq: int,
    windowStartSeq: int,
    floorSeq: int,
    ahead: Buffer,
    gapPending: bool,
    noProgress: nat,
    requestCounter: nat,
    older: map<RequestId, OlderRequest>,
    budget: Budget,
    graceArmed: bool,
    origin: int,           // history: the first row this stream promised
    log: seq<Output>)      // history: everything said to the outside

  /** The clock and the socket's readiness while one handler runs. */
  datatype Io = Io(now: int, open: bool)

  function Say(s: State, o: Output): State { s.(log := s.log + [o]) }

  datatype Sending = Sending(s: State, ok: bool)

  function NextRequestId(s: State, prefix: char): (r: (State, RequestId)) {
    (s.(requestCounter := s.requestCounter + 1), RequestId(prefix, s.requestCounter + 1))
  }

  function Send(s: State, id: RequestId, fromSeq: int, toSeq: int, io: Io): Sending {
    if s.attached && io.open then Sending(Say(s, Sent(id, fromSeq, toSeq)), true)
    else Sending(s, false)
  }

  function TakeToken(s: State, reserve: nat, io: Io): Sending {
    var t := Take(s.budget, io.now, reserve);
    Sending(s.(budget := t.budget), t.granted)
  }

  function CursorAccepted(c: Cursor): bool {
    && c.epoch >= 0
    && c.lastSeq >= -1
    && c.headSeq == c.lastSeq
    && c.floorSeq >= 0
    && c.windowStartSeq >= c.floorSeq
    && (c.lastSeq < 0 || c.windowStartSeq <= c.lastSeq)
  }

  function Initial(cursor: Option<Cursor>, now: int): State {
    var cold := State(false, true, -1, None, -1, 0, 0, map[], false, 0, 0, map[],
                      Budget(RATE_BACKFILL_PER_MIN, now), false, 0, []);
    if cursor.Some? && CursorAccepted(cursor.value) then
      var c := cursor.value;
      cold.(epoch := Some(c.epoch), lastSeq := c.lastSeq, headSeq := c.headSeq, floorSeq := c.floorSeq,
            windowStartSeq := c.windowStartSeq, origin := c.lastSeq + 1)
    else cold
  }

  function ArmResumeGrace(s: State): State {
    s.(graceArmed := s.headSeq >= 0 && s.lastSeq < s.headSeq)
  }

  function ResetStream(s: State, reason: ResetReason): State {
    Say(s.(lastSeq := -1, ahead := map[], gapPending := false, noProgress := 0, older := map[]),
        ResetEvent(reason))
  }

  function ForceReconnect(s: State): State {
    var t := s.(attached := false, graceArmed := false);
    if t.stopped then t else Say(t, Connecting)
  }

  function FailGapRecovery(s: State): State {
    Say(s.(attached := false, stopped := true, graceArmed := false, gapPending := false), BlockedEvent)
  }

  function HandleClose(s: State, terminal: bool): State {
    var t := s.(attached := false, graceArmed := false, gapPending := false, noProgress := 0,
                ahead := map[], older := map[]);
    if terminal then t.(stopped := true) else t
  }

  function RequestGap(s: State, throughSeq: int, io: Io): Sending {
    var fromSeq := s.lastSeq + 1;
    var toSeq := IntMin(throughSeq, fromSeq + MAX_RESUME_RECORDS - 1);
    if s.gapPending || toSeq < fromSeq then Sending(s, true)
    else
      var token := TakeToken(s, 0, io);
      if !token.ok then token
      else
        var (t, id) := NextRequestId(token.s, 'g');
        var sending := Send(t, id, fromSeq, toSeq, io);
        if sending.ok then Sending(sending.s.(gapPending := true), true) else sending
  }

  /** Asking for a repair concerns the budget, the numbering, the log and the mark; with the mark set, nothing. */
  lemma {:induction false} GapFrame(s: State, throughSeq: int, io: Io)
    ensures var t := RequestGap(s, throughSeq, io).s;
            && t == s.(budget := t.budget, requestCounter := t.requestCounter, log := t.log, gapPending := t.gapPending)
            && (s.gapPending ==> t == s)
  {
    hide Take, IntMin;
  }

  /** The stream, with the rows placed in order but not yet announced. */
  datatype Placing = Placing(s: State, applied: seq<Record>)

  function Drain(p: Placing): Placing
    decreases |p.s.ahead|
  {
    var key := p.s.lastSeq + 1;
    if key in p.s.ahead then
      var next := p.s.ahead[key];
      assert |p.s.ahead - {key}| < |p.s.ahead| by {
        assert (p.s.ahead - {key}).Keys == p.s.ahead.Keys - {key};
      }
      Drain(Placing(p.s.(ahead := p.s.ahead - {key}, lastSeq := key), p.applied + [next]))
    else p
  }

  /** Draining moves rows from the buffer behind those placed, moves the cursor over them, and does nothing else. */
  lemma {:induction false} Drains(p: Placing)
    ensures var q := Drain(p);
            && q.s == p.s.(ahead := q.s.ahead, lastSeq := q.s.lastSeq)
            && q.s.lastSeq >= p.s.lastSeq && p.applied <= q.applied
            && forall k :: k in q.s.ahead ==> k in p.s.ahead && q.s.ahead[k] == p.s.ahead[k]
    decreases |p.s.ahead|
  {
    var key := p.s.lastSeq + 1;
    if key in p.s.ahead {
      assert (p.s.ahead - {key}).Keys == p.s.ahead.Keys - {key};
      Drains(Placing(p.s.(ahead := p.s.ahead - {key}, lastSeq := key), p.applied + [p.s.ahead[key]]));
    }
  }

  /** A view with no row yet starts where `ready` promised. */
  function Adopt(s: State): State {
    if s.lastSeq < 0 then s.(lastSeq := s.windowStartSeq - 1, origin := s.windowStartSeq) else s
  }

  function Overflows(s: State, r: Record): bool {
    r.seqNo > Adopt(s).lastSeq + 1 && |s.ahead| >= MAX_BUFFERED_AHEAD
  }

  function Collect(p: Placing, r: Record, io: Io): Placing {
    var s := Adopt(p.s);
    if r.seqNo <= s.lastSeq then Placing(s, p.applied)
    else if r.seqNo > s.lastSeq + 1 then
      if |s.ahead| >= MAX_BUFFERED_AHEAD then
        Placing(ForceReconnect(ResetStream(s, WindowReset)), p.applied)
      else
        Placing(RequestGap(s.(ahead := s.ahead[r.seqNo := r]), r.seqNo - 1, io).s, p.applied)
    else Drain(Placing(s.(lastSeq := r.seqNo), p.applied + [r]))
  }

  function CollectAll(p: Placing, rows: seq<Record>, io: Io): Placing
    decreases |rows|
  {
    if rows == [] then p
    else Collect(CollectAll(p, rows[..|rows| - 1], io), rows[|rows| - 1], io)
  }

  function Flush(p: Placing): State {
    if p.applied == [] then p.s
    else
      ArmResumeGrace(Say(p.s.(headSeq := IntMax(p.s.headSeq, p.s.lastSeq)), RecordsEvent(p.applied)))
  }

  function HandleRecord(s: State, r: Record, io: Io): State {
    Flush(Collect(Placing(s, []), r, io))
  }

  function MinKey(m: Buffer): (k: int)
    requires |m| > 0
    ensures k in m && forall j :: j in m ==> k <= j
  {
    assert m.Keys != {};
    LeastExists(m.Keys);
    var k :| k in m.Keys && forall j :: j in m.Keys ==> k <= j;
    k
  }

  function ThroughSeq(s: State, toSeq: int): int {
    if |s.ahead| > 0 then IntMin(toSeq, MinKey(s.ahead) - 1) else toSeq
  }

  /** The state in which a repair reply is judged: its rows placed and announced. */
  function AfterRows(s: State, rows: seq<Record>, io: Io): State {
    Flush(CollectAll(Placing(s.(gapPending := false), []), rows, io))
  }

  function RetryOrFail(s: State, throughSeq: int, io: Io): State {
    if s.gapPending then s
    else
      var asked := RequestGap(s, throughSeq, io);
      if asked.ok then asked.s else FailGapRecovery(asked.s)
  }

  function HandleRepair(s: State, f: BackfillFrame, io: Io): State {
    var t := AfterRows(s, f.records, io);
    var through := ThroughSeq(t, f.toSeq);
    if t.lastSeq >= through then t.(noProgress := 0)
    else if t.lastSeq > s.lastSeq then RetryOrFail(t.(noProgress := 0), through, io)
    else
      var u := t.(noProgress := t.noProgress + 1);
      if u.noProgress >= MAX_NO_PROGRESS_BACKFILLS then FailGapRecovery(u)
      else RetryOrFail(u, through, io)
  }

  function AtOrAfter(rows: seq<Record>, n: int): seq<Record> {
    if rows == [] then []
    else (if rows[0].seqNo >= n then [rows[0]] else []) + AtOrAfter(rows[1..], n)
  }

  function LastSeqOf(rows: seq<Record>, otherwise: int): int {
    if rows == [] then otherwise else rows[|rows| - 1].seqNo
  }

  /** Ask for the rest of a scrollback range under a new id. */
  function ContinueOlder(s: State, request: OlderRequest, records: seq<Record>, fromSeq: int, io: Io): Sending {
    var (numbered, id) := NextRequestId(s, 'o');
    var token := TakeToken(numbered, 4, io);
    if !token.ok then token
    else
      var sending := Send(token.s, id, fromSeq, request.toSeq, io);
      if !sending.ok then sending
      else
        Sending(sending.s.(older := sending.s.older[id := request.(nextSeq := fromSeq, records := records)]), true)
  }

  function HandleOlderReply(s: State, f: BackfillFrame, io: Io): State
    requires f.requestId in s.older
  {
    var request := s.older[f.requestId];
    var t := s.(older := s.older - {f.requestId});
    var records := request.records + AtOrAfter(f.records, request.nextSeq);
    var last := LastSeqOf(records, request.nextSeq - 1);
    var answer := OlderEvent(records, f.complete && last >= request.toSeq, request.fromSeq, request.toSeq);
    if f.complete || last >= request.toSeq then Say(t, answer)
    else
      var asked := ContinueOlder(t, request, records, last + 1, io);
      if asked.ok then asked.s else Say(asked.s, answer)
  }

  function HandleBackfill(s: State, f: BackfillFrame, io: Io): State {
    if f.requestId in s.older then HandleOlderReply(s, f, io) else HandleRepair(s, f, io)
  }

  /** The cursor a `ready` leaves: reset when its window cannot be bridged or the epoch moved on. */
  function ReadyCursor(s: State, f: ReadyFrame): State {
    var epochChanged := s.epoch.Some? && s.epoch.value != f.epoch;
    var unbridgeable := s.lastSeq >= 0 && f.windowStartSeq > s.lastSeq + 1;
    var t := s.(headSeq := f.headSeq, windowStartSeq := f.windowStartSeq, floorSeq := f.floorSeq,
                epoch := Some(f.epoch));
    if epochChanged then ResetStream(t, EpochReset)
    else if unbridgeable then ResetStream(t, WindowReset)
    else t
  }

  function HandleReady(s: State, f: ReadyFrame): State {
    var u := ReadyCursor(s, f);
    if u.lastSeq >= 0 && f.headSeq - u.lastSeq > MAX_CATCHUP_RESUME_RECORDS
    then ForceReconnect(ResetStream(u, WindowReset))
    else ArmResumeGrace(Say(u, ReadyEvent(f)))
  }

  function GraceTimer(s: State, io: Io): State {
    if !s.graceArmed then s
    else
      var t := s.(graceArmed := false);
      var fromSeq := if t.lastSeq >= 0 then t.lastSeq + 1
                     else IntMax(t.floorSeq, t.headSeq - INITIAL_WINDOW_RECORDS + 1);
      var toSeq := IntMin(t.headSeq, fromSeq + MAX_RESUME_RECORDS - 1);
      if t.lastSeq >= t.headSeq || t.gapPending || toSeq < fromSeq then t
      else
        var token := TakeToken(t, 0, io);
        if !token.ok then token.s
        else
          var (numbered, id) := NextRequestId(token.s.(gapPending := true), 'g');
          Send(numbered, id, fromSeq, toSeq, io).s
  }

  function RequestOlderRange(s: State, fromSeq: int, toSeq: int, io: Io): Sending {
    if fromSeq > toSeq || fromSeq < s.floorSeq then Sending(s, false)
    else
      var token := TakeToken(s, 4, io);
      if !token.ok then token
      else
        var (numbered, id) := NextRequestId(token.s, 'o');
        var sending := Send(numbered, id, fromSeq, toSeq, io);
        if !sending.ok then sending
        else Sending(sending.s.(older := sending.s.older[id := OlderRequest(fromSeq, toSeq, fromSeq, [])]), true)
  }

  function Retry(s: State): State {
    if s.attached then s.(noProgress := 0)
    else Say(s.(noProgress := 0, stopped := false, graceArmed := false), Connecting)
  }

  /** Everything that can happen to the client, with the clock reading at that moment. */
  datatype Input =
    | Opened                                  // a connect produced its socket
    | ReadyIn(ready: ReadyFrame)
    | RecordIn(record: Record)
    | BackfillIn(backfill: BackfillFrame)
    | GapIn(fromSeq: int, toSeq: int)
    | ResetIn(reason: ResetReason)
    | Closed(terminal: bool)
    | ProbeTimeout                            // an open socket stopped answering
    | GraceDue
    | OlderWanted(fromSeq: int, toSeq: int)
    | RetryPressed
    | Stopped

  datatype Step = Step(input: Input, io: Io)

  function Apply(s: State, step: Step): State {
    match step.input
    case Opened => if s.stopped || s.attached then s else s.(attached := true)
    case ReadyIn(f) => if s.attached then HandleReady(s, f) else s
    case RecordIn(r) => if s.attached then HandleRecord(s, r, step.io) else s
    case BackfillIn(f) => if s.attached then HandleBackfill(s, f, step.io) else s
    case GapIn(a, b) => if s.attached then Say(s, GapEvent(a, b)) else s
    case ResetIn(reason) => if s.attached then ResetStream(s, reason) else s
    case Closed(terminal) => if s.attached then HandleClose(s, terminal) else s
    case ProbeTimeout => if s.attached then ForceReconnect(s) else s
    case GraceDue => GraceTimer(s, step.io)
    case OlderWanted(a, b) => RequestOlderRange(s, a, b, step.io).s
    case RetryPressed => Retry(s)
    case Stopped => s.(attached := false, stopped := true, graceArmed := false)
  }

  function Run(s: State, steps: seq<Step>): State
    decreases |steps|
  {
    if steps == [] then s else Run(Apply(s, steps[0]), steps[1..])
  }
}
