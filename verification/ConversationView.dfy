/** The bounded, contiguous view over the record stream (conversation-store-reducer.ts:157-244). */
module ConversationViews {
  import opened Options
  import opened Ints
  import opened JournalRecords

  const MAX_CLIENT_RECORDS := 3000

  datatype View = View(records: seq<Record>, hasOlder: bool, floorSeq: int, headSeq: int)

  datatype Appended = Appended(records: seq<Record>, newer: seq<Record>, hasOlder: bool, headSeq: int)

  function NewerThan(rows: seq<Record>, n: int): seq<Record> {
    if rows == [] then []
    else (if rows[0].seqNo > n then [rows[0]] else []) + NewerThan(rows[1..], n)
  }

  function LastStored(rows: seq<Record>): int {
    if rows == [] then -1 else rows[|rows| - 1].seqNo
  }

  /** A batch that does not touch the retained rows restarts the window. */
  predicate Restarts(retained: seq<Record>, newer: seq<Record>)
    requires newer != []
  {
    LastStored(retained) >= 0 && newer[0].seqNo > LastStored(retained) + 1
  }

  function Joined(retained: seq<Record>, newer: seq<Record>): seq<Record>
    requires newer != []
  {
    (if Restarts(retained, newer) then [] else retained) + newer
  }

  function Bounded(rows: seq<Record>): seq<Record> {
    if |rows| > MAX_CLIENT_RECORDS then rows[|rows| - MAX_CLIENT_RECORDS..] else rows
  }

  function Assemble(view: View, retained: seq<Record>, newer: seq<Record>, replaceRetained: bool): Appended
    requires newer != []
  {
    var joined := Joined(retained, newer);
    var records := Bounded(joined);
    var hasOlder := if replaceRetained then newer[0].seqNo > view.floorSeq
                    else view.hasOlder || Restarts(retained, newer);
    Appended(records, newer,
             hasOlder || |joined| > MAX_CLIENT_RECORDS || records[0].seqNo > view.floorSeq,
             IntMax(view.headSeq, LastStored(records)))
  }

  function AppendJournalRecords(view: View, incoming: seq<Record>, replaceRetained: bool): Option<Appended> {
    var retained := if replaceRetained then [] else view.records;
    var newer := NewerThan(incoming, LastStored(retained));
    if incoming == [] || newer == [] then None
    else Some(Assemble(view, retained, newer, replaceRetained))
  }

  /** The view once an append has been taken up; nothing new leaves it as it was. */
  function Take(view: View, incoming: seq<Record>, replaceRetained: bool): View {
    var a := AppendJournalRecords(view, incoming, replaceRetained);
    if a.None? then view
    else view.(records := a.value.records, hasOlder := a.value.hasOlder, headSeq := a.value.headSeq)
  }

  ghost predicate Contiguous(rows: seq<Record>) {
    forall i :: 0 <= i < |rows| ==> rows[i].seqNo == rows[0].seqNo + i
  }

  lemma {:induction false} TailContiguous(rows: seq<Record>)
    requires Contiguous(rows) && rows != []
    ensures var tail := rows[1..];
            Contiguous(tail) && rows[|rows| - 1].seqNo == rows[0].seqNo + |tail| && [rows[0]] + tail == rows
            && (tail != [] ==> tail[0].seqNo == rows[0].seqNo + 1)
  {
    assert forall i :: 0 <= i < |rows| - 1 ==> rows[1..][i] == rows[i + 1];
  }

  lemma {:induction false} NewerIsSuffix(rows: seq<Record>, n: int)
    requires Contiguous(rows)
    ensures var k := if rows == [] || n < rows[0].seqNo then 0
                     else if n >= rows[|rows| - 1].seqNo then |rows|
                     else n + 1 - rows[0].seqNo;
            NewerThan(rows, n) == rows[k..]
    decreases |rows|
  {
    hide Contiguous;
    if rows != [] {
      var tail := rows[1..];
      TailContiguous(rows);
      NewerIsSuffix(tail, n);
      if tail != [] { TailContiguous(tail); }
      if rows[0].seqNo <= n < rows[|rows| - 1].seqNo {
        assert tail[n - rows[0].seqNo..] == rows[n + 1 - rows[0].seqNo..];
      }
    }
  }

  lemma {:induction false} BoundedKeeps(rows: seq<Record>)
    requires Contiguous(rows) && rows != []
    ensures var b := Bounded(rows);
            && 0 < |b| <= MAX_CLIENT_RECORDS
            && Contiguous(b)
            && b[|b| - 1] == rows[|rows| - 1]
            && b[0].seqNo == IntMax(rows[0].seqNo, LastStored(rows) - MAX_CLIENT_RECORDS + 1)
            && (forall r :: r in b ==> r in rows)
  {
  }

  lemma {:induction false} JoinedKeeps(retained: seq<Record>, newer: seq<Record>)
    requires Contiguous(retained) && Contiguous(newer) && newer != []
    requires newer[0].seqNo > LastStored(retained)
    ensures var joined := Joined(retained, newer);
            && joined != [] && Contiguous(joined)
            && joined[|joined| - 1] == newer[|newer| - 1]
            && joined[0] == (if retained == [] || Restarts(retained, newer) then newer[0] else retained[0])
            && (forall r :: r in joined ==> r in retained || r in newer)
  {
    var joined := Joined(retained, newer);
    if !Restarts(retained, newer) && retained != [] {
      assert forall i :: 0 <= i < |retained| ==> joined[i] == retained[i];
      assert forall i :: 0 <= i < |newer| ==> joined[|retained| + i] == newer[i];
    } else {
      assert joined == newer;
    }
  }

  /** What is new in a contiguous batch: its tail above the last stored row. */
  lemma {:induction false} NewerOf(batch: seq<Record>, n: int)
    requires Contiguous(batch)
    ensures var newer := NewerThan(batch, n);
            if batch == [] || batch[|batch| - 1].seqNo <= n then newer == []
            else
              && newer != [] && Contiguous(newer)
              && newer[|newer| - 1] == batch[|batch| - 1]
              && newer[0].seqNo == IntMax(batch[0].seqNo, n + 1)
              && newer[0].seqNo > n
              && (forall r :: r in newer ==> r in batch)
  {
    NewerIsSuffix(batch, n);
  }

  /**
   * Appending a contiguous batch to a contiguous view leaves a contiguous view
   * of at most 3000 rows that ends with the batch. It reaches back to the old
   * first row unless the batch jumped ahead or the bound cut it, and every row
   * in between is still there.
   */
  lemma {:induction false} AppendKeepsContiguous(view: View, batch: seq<Record>, replaceRetained: bool)
    requires Contiguous(view.records) && Contiguous(batch)
    ensures var a := AppendJournalRecords(view, batch, replaceRetained);
            var retained := if replaceRetained then [] else view.records;
            if batch == [] || batch[|batch| - 1].seqNo <= LastStored(retained)
            then a == None
            else
              && a.Some?
              && var records := a.value.records;
                 var last := batch[|batch| - 1].seqNo;
                 var touches := retained != [] && batch[0].seqNo <= LastStored(retained) + 1;
                 var start := if touches then retained[0].seqNo else batch[0].seqNo;
              && 0 < |records| <= MAX_CLIENT_RECORDS
              && Contiguous(records)
              && records[|records| - 1].seqNo == last
              && records[0].seqNo == IntMax(start, last - MAX_CLIENT_RECORDS + 1)
              && (forall r :: r in records ==> r in retained || r in batch)
              && (records[0].seqNo > view.floorSeq ==> a.value.hasOlder)
  {
    hide NewerThan, Contiguous, Bounded, Joined;
    var retained := if replaceRetained then [] else view.records;
    RetainedContiguous(view, replaceRetained);
    NewerOf(batch, LastStored(retained));
    var newer := NewerThan(batch, LastStored(retained));
    if newer != [] {
      JoinedKeeps(retained, newer);
      BoundedKeeps(Joined(retained, newer));
    }
  }

  lemma RetainedContiguous(view: View, replaceRetained: bool)
    requires Contiguous(view.records)
    ensures Contiguous(if replaceRetained then [] else view.records)
  {
  }

  lemma {:induction false} NewerConcat(a: seq<Record>, b: seq<Record>, n: int)
    ensures NewerThan(a + b, n) == NewerThan(a, n) + NewerThan(b, n)
    decreases |a|
  {
    if a == [] { assert a + b == b; }
    else {
      assert (a + b)[1..] == a[1..] + b;
      NewerConcat(a[1..], b, n);
    }
  }

  lemma {:induction false} BoundedTwice(a: seq<Record>, b: seq<Record>)
    ensures Bounded(Bounded(a) + b) == Bounded(a + b)
    ensures |a + b| > MAX_CLIENT_RECORDS <==> |a| > MAX_CLIENT_RECORDS || |Bounded(a) + b| > MAX_CLIENT_RECORDS
    ensures |Bounded(a) + b| <= MAX_CLIENT_RECORDS && a != [] ==> Bounded(Bounded(a) + b)[0] == Bounded(a)[0]
  {
  }

  lemma {:induction false} HalvesContiguous(a: seq<Record>, b: seq<Record>)
    requires Contiguous(a + b)
    ensures Contiguous(a) && Contiguous(b)
    ensures a != [] && b != [] ==> b[0].seqNo == a[|a| - 1].seqNo + 1
  {
    var all := a + b;
    assert forall i :: 0 <= i < |a| ==> a[i] == all[i];
    assert forall i :: 0 <= i < |b| ==> b[i] == all[|a| + i];
  }

  lemma {:induction false} JoinedConcat(retained: seq<Record>, newer: seq<Record>, b: seq<Record>)
    requires newer != []
    ensures Joined(retained, newer + b) == Joined(retained, newer) + b
    ensures Restarts(retained, newer + b) == Restarts(retained, newer)
  {
  }

  /** Rows right after the ones held always join them. */
  lemma {:induction false} AdjacentJoins(held: seq<Record>, b: seq<Record>)
    requires held != [] && b != [] && Contiguous(b) && b[0].seqNo == LastStored(held) + 1
    ensures NewerThan(b, LastStored(held)) == b
    ensures !Restarts(held, b) && Joined(held, b) == held + b
  {
    NewerIsSuffix(b, LastStored(held));
  }

  lemma {:induction false} AssembleTwice(view: View, retained: seq<Record>, newer: seq<Record>, b: seq<Record>,
                                         replaceRetained: bool)
    requires newer != [] && b != [] && Contiguous(b) && b[0].seqNo == newer[|newer| - 1].seqNo + 1
    requires Contiguous(retained) && Contiguous(newer) && newer[0].seqNo > LastStored(retained)
    ensures var x := Assemble(view, retained, newer, replaceRetained);
            var v := view.(records := x.records, hasOlder := x.hasOlder, headSeq := x.headSeq);
            var y := Assemble(view, retained, newer + b, replaceRetained);
            Take(v, b, false) == v.(records := y.records, hasOlder := y.hasOlder, headSeq := y.headSeq)
  {
    hide NewerThan, Contiguous, Joined, Bounded, Restarts, LastStored;
    var joined := Joined(retained, newer);
    JoinedKeeps(retained, newer);
    BoundedKeeps(joined);
    JoinedConcat(retained, newer, b);
    BoundedTwice(joined, b);
    LastRises(joined, b);
    AdjacentJoins(Bounded(joined), b);
    assert (newer + b)[0] == newer[0];
  }

  lemma {:induction false} LastRises(joined: seq<Record>, b: seq<Record>)
    requires joined != [] && b != [] && Contiguous(b) && b[0].seqNo == joined[|joined| - 1].seqNo + 1
    ensures b[0].seqNo == LastStored(Bounded(joined)) + 1
    ensures LastStored(Bounded(joined)) <= LastStored(Bounded(joined + b))
  {
  }

  /** How a batch is cut makes no difference: two adjacent batches are one. */
  lemma {:induction false} BatchSplit(view: View, a: seq<Record>, b: seq<Record>, replaceRetained: bool)
    requires Contiguous(view.records) && Contiguous(a + b)
    requires a == [] ==> !replaceRetained
    ensures Take(Take(view, a, replaceRetained), b, false) == Take(view, a + b, replaceRetained)
  {
    hide NewerThan, Contiguous, Assemble;
    HalvesContiguous(a, b);
    RetainedContiguous(view, replaceRetained);
    var retained := if replaceRetained then [] else view.records;
    var n := LastStored(retained);
    NewerConcat(a, b, n);
    NewerOf(a, n);
    var newer := NewerThan(a, n);
    if a == [] {
      assert a + b == b;
    } else if b == [] {
      assert a + b == a;
    } else if newer == [] {
      assert [] + NewerThan(b, n) == NewerThan(b, n);
    } else {
      NewerIsSuffix(b, n);
      AssembleTwice(view, retained, newer, b, replaceRetained);
    }
  }

  /** Whether a scrollback reply says which rows it holds, and whether all of them came. */
  datatype Range = Range(complete: Option<bool>, fromSeq: Option<int>, toSeq: Option<int>)

  function OlderRangeIsComplete(incoming: seq<Record>, range: Range): bool {
    if range.complete == Some(false) then false
    else if range.fromSeq.None? || range.toSeq.None? then true
    else
      && |incoming| == range.toSeq.value - range.fromSeq.value + 1
      && forall i :: 0 <= i < |incoming| ==> incoming[i].seqNo == range.fromSeq.value + i
  }

  function Insert(r: Record, rows: seq<Record>): seq<Record> {
    if rows == [] || r.seqNo <= rows[0].seqNo then [r] + rows else [rows[0]] + Insert(r, rows[1..])
  }

  /** The source's stable `sort` by sequence number. */
  function SortBySeq(rows: seq<Record>): seq<Record> {
    if rows == [] then [] else Insert(rows[0], SortBySeq(rows[1..]))
  }

  function OlderThan(rows: seq<Record>, oldest: Option<int>): seq<Record> {
    if rows == [] then []
    else (if oldest.None? || rows[0].seqNo < oldest.value then [rows[0]] else []) + OlderThan(rows[1..], oldest)
  }

  datatype Prepended = Prepended(records: seq<Record>, hasOlder: bool)

  function PrependOlderRecords(view: View, page: seq<Record>): Option<Prepended> {
    var oldest := if view.records == [] then None else Some(view.records[0].seqNo as int);
    var older := SortBySeq(OlderThan(page, oldest));
    if older == [] then None
    else Some(Prepended(older + view.records, older[0].seqNo > view.floorSeq))
  }

  lemma {:induction false} SortedStays(rows: seq<Record>)
    requires Contiguous(rows)
    ensures SortBySeq(rows) == rows
    decreases |rows|
  {
    if rows != [] {
      assert forall i :: 0 <= i < |rows| - 1 ==> rows[1..][i] == rows[i + 1];
      SortedStays(rows[1..]);
    }
  }

  lemma {:induction false} OlderIsPrefix(rows: seq<Record>, oldest: Option<int>)
    requires Contiguous(rows)
    ensures var k := if rows == [] then 0
                     else if oldest.None? || oldest.value > rows[|rows| - 1].seqNo then |rows|
                     else if oldest.value <= rows[0].seqNo then 0
                     else oldest.value - rows[0].seqNo;
            OlderThan(rows, oldest) == rows[..k]
    decreases |rows|
  {
    if rows != [] {
      assert forall i :: 0 <= i < |rows| - 1 ==> rows[1..][i] == rows[i + 1];
      OlderIsPrefix(rows[1..], oldest);
    }
  }

  /** The rows of a complete page below the oldest row held: its first, up to the one before that row. */
  lemma {:induction false} PageBelow(page: seq<Record>, range: Range, oldest: Option<int>)
    requires OlderRangeIsComplete(page, range) && range.fromSeq.Some? && range.toSeq.Some?
    ensures var fromSeq := range.fromSeq.value;
            var k := if oldest.Some? then IntMin(|page|, oldest.value - fromSeq) else |page|;
            Contiguous(page)
            && SortBySeq(OlderThan(page, oldest))
               == if page == [] || (oldest.Some? && fromSeq >= oldest.value) then [] else page[..k]
  {
    hide OlderThan, SortBySeq;
    OlderIsPrefix(page, oldest);
    SortedStays(OlderThan(page, oldest));
  }

  lemma {:induction false} PageSize(page: seq<Record>, range: Range)
    requires OlderRangeIsComplete(page, range) && range.fromSeq.Some? && range.toSeq.Some?
    ensures |page| == IntMax(0, range.toSeq.value - range.fromSeq.value + 1)
    ensures page != [] ==> page[0].seqNo == range.fromSeq.value
  {
  }

  /** Two contiguous runs of rows make one exactly when the second begins right after the first. */
  lemma {:induction false} SpliceContiguousIff(older: seq<Record>, held: seq<Record>)
    requires Contiguous(older) && Contiguous(held) && older != [] && held != []
    ensures Contiguous(older + held) <==> held[0].seqNo == older[0].seqNo + |older|
  {
    var all := older + held;
    assert all[|older|] == held[0];
    assert forall i :: 0 <= i < |held| ==> all[|older| + i] == held[i];
  }

  lemma {:induction false} PrefixContiguous(rows: seq<Record>, k: nat)
    requires Contiguous(rows) && k <= |rows|
    ensures Contiguous(rows[..k])
  {
  }

  /**
   * An accepted page is spliced below the view whole, minus what the view
   * already holds; the result is contiguous exactly when the page reaches up to
   * the row below the oldest one held, or nothing is held.
   */
  lemma {:induction false} PrependContiguousIff(view: View, page: seq<Record>, range: Range)
    requires Contiguous(view.records) && OlderRangeIsComplete(page, range)
    requires range.fromSeq.Some? && range.toSeq.Some?
    ensures var p := PrependOlderRecords(view, page);
            var fromSeq := range.fromSeq.value;
            var held := view.records != [];
            var k := if held then IntMin(|page|, view.records[0].seqNo - fromSeq) else |page|;
            if page == [] || (held && fromSeq >= view.records[0].seqNo) then p == None
            else
              && p.Some?
              && 0 < k <= |page| && p.value.records == page[..k] + view.records
              && p.value.records[0].seqNo == fromSeq
              && p.value.hasOlder == (fromSeq > view.floorSeq)
              && (Contiguous(p.value.records) <==>
                  !held || range.toSeq.value >= view.records[0].seqNo - 1)
  {
    var oldest := if view.records == [] then None else Some(view.records[0].seqNo as int);
    hide OlderThan, SortBySeq, Contiguous, OlderRangeIsComplete;
    PageSize(page, range);
    PageBelow(page, range, oldest);
    var older := SortBySeq(OlderThan(page, oldest));
    if older != [] {
      PrefixContiguous(page, |older|);
      if view.records != [] { SpliceContiguousIff(older, view.records); } else { assert older + view.records == older; }
    }
  }

  ghost function Rows(first: nat, count: nat): seq<Record> { seq(count, i requires 0 <= i => Record(first + i, "")) }

  lemma RowsAreContiguous(first: nat, count: nat)
    ensures Contiguous(Rows(first, count)) && |Rows(first, count)| == count
            && (count > 0 ==> Rows(first, count)[0].seqNo == first)
  {
  }

  /**
   * With rows 100 to 3099 held, the two rows below are asked for; ten live rows
   * then push the oldest ten out. The page that would have joined before they
   * came is spliced all the same and leaves a hole of ten rows.
   */
  lemma {:induction false} StalePageLeavesHole()
    ensures var asked := Take(View([], false, 0, -1), Rows(100, 3000), false);
            var trimmed := Take(asked, Rows(3100, 10), false);
            var page, range := Rows(98, 2), Range(Some(true), Some(98), Some(99));
            && OlderRangeIsComplete(page, range)
            && asked.records != [] && asked.records[0].seqNo == 100 && asked.hasOlder
            && trimmed.records != [] && trimmed.records[0].seqNo == 110
            && PrependOlderRecords(asked, page).Some? && Contiguous(PrependOlderRecords(asked, page).value.records)
            && PrependOlderRecords(trimmed, page).Some? && !Contiguous(PrependOlderRecords(trimmed, page).value.records)
  {
    var page, range := Rows(98, 2), Range(Some(true), Some(98), Some(99));
    assert OlderRangeIsComplete(page, range);
    hide Rows, Contiguous, AppendJournalRecords, PrependOlderRecords, OlderRangeIsComplete;
    var none := View([], false, 0, -1);
    assert Contiguous(none.records) by { RowsAreContiguous(0, 0); }
    RowsAreContiguous(98, 2);
    RowsAreContiguous(100, 3000);
    RowsAreContiguous(3100, 10);
    AppendKeepsContiguous(none, Rows(100, 3000), false);
    var asked := Take(none, Rows(100, 3000), false);
    AppendKeepsContiguous(asked, Rows(3100, 10), false);
    var trimmed := Take(asked, Rows(3100, 10), false);
    PrependContiguousIff(asked, page, range);
    PrependContiguousIff(trimmed, page, range);
  }
}
