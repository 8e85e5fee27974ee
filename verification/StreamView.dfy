/** The socket and the view together: what the reader of a conversation ends up holding. */
module StreamView {
  import opened Options
  import opened Ints
  import opened JournalRecords
  import opened SocketSpec
  import opened SocketStart
  import opened SocketDelivery
  import V = ConversationViews

  /** The `records` batches since the last reset, as the store receives them. */
  ghost function Batches(log: seq<Output>): seq<seq<Record>>
    decreases |log|
  {
    if log == [] then []
    else
      var last := log[|log| - 1];
      if last.ResetEvent? then []
      else Batches(log[..|log| - 1]) + (if last.RecordsEvent? then [last.records] else [])
  }

  ghost function Flatten(batches: seq<seq<Record>>): seq<Record>
    decreases |batches|
  {
    if batches == [] then []
    else Flatten(batches[..|batches| - 1]) + batches[|batches| - 1]
  }

  ghost function TakeAll(view: V.View, batches: seq<seq<Record>>): V.View
    decreases |batches|
  {
    if batches == [] then view
    else V.Take(TakeAll(view, batches[..|batches| - 1]), batches[|batches| - 1], false)
  }

  lemma {:induction false} BatchesFlatten(log: seq<Output>)
    ensures Flatten(Batches(log)) == Announced(log)
    decreases |log|
  {
    if log != [] && !log[|log| - 1].ResetEvent? {
      var before := log[..|log| - 1];
      BatchesFlatten(before);
      var last := log[|log| - 1];
      if last.RecordsEvent? {
        assert Batches(log)[..|Batches(before)|] == Batches(before);
      } else {
        assert Batches(log) == Batches(before);
      }
    }
  }

  lemma {:induction false} TakeAllIsTake(view: V.View, batches: seq<seq<Record>>)
    requires V.Contiguous(view.records) && V.Contiguous(Flatten(batches))
    ensures TakeAll(view, batches) == V.Take(view, Flatten(batches), false)
    decreases |batches|
  {
    hide V.Take;
    if batches == [] {
      TakeNothing(view);
    } else {
      var front := batches[..|batches| - 1];
      var last := batches[|batches| - 1];
      V.HalvesContiguous(Flatten(front), last);
      TakeAllIsTake(view, front);
      V.BatchSplit(view, Flatten(front), last, false);
    }
  }

  lemma TakeNothing(view: V.View)
    ensures V.Take(view, [], false) == view
  {
  }

  /**
   * After any run of a new client, a fresh view given every batch since the
   * last reset holds exactly the newest rows of the journal, at most 3000,
   * gapless from the promised row or the bound up to the cursor.
   */
  lemma {:induction false} ViewFollowsStream(cursor: Option<Cursor>, now: int,
                                             steps: seq<Step>, j: Journal, view: V.View)
    requires FairRun(Initial(cursor, now), steps, j) && view.records == []
    requires Announced(Run(Initial(cursor, now), steps).log) != []
    ensures var s := Run(Initial(cursor, now), steps);
            var held, epoch := TakeAll(view, Batches(s.log)).records, Epoch(cursor, now, steps);
            && held != [] && epoch.Some?
            && held[|held| - 1].seqNo == s.lastSeq
            && held[0].seqNo == IntMax(Promised(cursor, now, steps), s.lastSeq - V.MAX_CLIENT_RECORDS + 1)
            && forall i :: 0 <= i < |held| ==> held[i] == Row(j, epoch.value, held[0].seqNo + i)
  {
    hide Announced, V.Take, V.AppendJournalRecords, Run, FairRun, Promised, Epoch, Delivered;
    var s := Run(Initial(cursor, now), steps);
    var rows := Announced(s.log);
    DeliveredMeans(cursor, now, steps, j);
    assert V.Contiguous(rows);
    BatchesFlatten(s.log);
    TakeAllIsTake(view, Batches(s.log));
    V.AppendKeepsContiguous(view, rows, false);
    TakeRecords(view, rows);
    var held := TakeAll(view, Batches(s.log)).records;
    var epoch := Epoch(cursor, now, steps);
    forall i | 0 <= i < |held| ensures held[i] == Row(j, epoch.value, held[0].seqNo + i) {
      assert held[i] in rows;
    }
  }

  lemma TakeRecords(view: V.View, rows: seq<Record>)
    requires V.AppendJournalRecords(view, rows, false).Some?
    ensures V.Take(view, rows, false).records == V.AppendJournalRecords(view, rows, false).value.records
  {
  }
}
