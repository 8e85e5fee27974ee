/**
 * What the supervisor's timers and flags say about everything it has seen:
 * exactly when the known-good ref moves, and that a failed start is ended.
 */
module SupervisorHistory {
  import opened Options
  import opened Repository
  import opened Supervisor

  function Or(r: Option<real>): real { if r.Some? then r.value else 0.0 }

  ghost predicate AnyFailed(messages: seq<Message>) { exists k :: 0 <= k < |messages| && messages[k].Failed? }

  ghost predicate ReadyAfterZero(messages: seq<Message>) {
    forall k :: 0 <= k < |messages|
        ==> (messages[k].Ready? ==> messages[k].at > 0.0) && (messages[k].Failed? ==> messages[k].at > 0.0)
  }

  lemma {:induction false} MessageChanges(s: State, m: Message, o: Config)
    requires |s.timers| == TIMERS
    ensures var s' := Handle(s, m, o); var first := m.Ready? && s.readyAt == 0.0;
            |s'.timers| == TIMERS && s'.readyAt == (if first then m.at else s.readyAt)
            && s'.timers[STABLE] == (if first then m.at + o.stableSeconds else s.timers[STABLE])
            && s'.timers[READY_TIMEOUT] == s.timers[READY_TIMEOUT]
            && s'.failure == (if m.Failed? && s.failure == Fine then Reported else s.failure)
            && s'.marks == s.marks && s'.spawnedHead == s.spawnedHead && s'.exit == s.exit
               && s'.repo.knownGood == s.repo.knownGood
  {
    hide Max;
  }

  /** What a run of messages changes of what the known-good decision reads. */
  lemma {:induction false} MessagesChange(s: State, messages: seq<Message>, o: Config)
    requires |s.timers| == TIMERS && ReadyAfterZero(messages)
    ensures var s', r := HandleAll(s, messages, o), FirstReadyIn(messages);
            (r.Some? ==> r.value > 0.0)
            && s'.readyAt == (if s.readyAt != 0.0 then s.readyAt else Or(r))
            && s'.timers[STABLE]
               == (if s.readyAt == 0.0 && r.Some? then r.value + o.stableSeconds else s.timers[STABLE])
            && s'.timers[READY_TIMEOUT] == s.timers[READY_TIMEOUT]
            && s'.failure == (if s.failure == Fine && AnyFailed(messages) then Reported else s.failure)
            && s'.marks == s.marks && s'.spawnedHead == s.spawnedHead && s'.exit == s.exit
               && s'.repo.knownGood == s.repo.knownGood
    decreases |messages|
  {
    hide Handle;
    if messages != [] {
      var n := |messages| - 1;
      MessagesChange(s, messages[..n], o);
      MessageChanges(HandleAll(s, messages[..n], o), messages[n], o);
      assert forall k :: 0 <= k < n ==> messages[..n][k] == messages[k];
      assert AnyFailed(messages) <==> AnyFailed(messages[..n]) || messages[n].Failed?;
    }
  }

  ghost predicate Due(s: State, i: nat, now: real)
    requires |s.timers| == TIMERS && i < TIMERS
  {
    s.timers[i] != 0.0 && now >= s.timers[i]
  }

  /** What the timers change of the same. */
  lemma {:induction false} TimersChange(s: State, p: Poll)
    requires |s.timers| == TIMERS
    ensures var s' := FireFirst(s, TIMERS, p);
            var failure := if Due(s, READY_TIMEOUT, p.now) && s.readyAt == 0.0 && s.failure == Fine then TooSlow
              else s.failure;
            var mark := Due(s, STABLE, p.now) && failure == Fine && s.spawnedHead.Some? && p.updateRef;
            s'.readyAt == s.readyAt && s'.failure == failure
            && s'.timers[READY_TIMEOUT] == (if Due(s, READY_TIMEOUT, p.now) then 0.0 else s.timers[READY_TIMEOUT])
            && s'.timers[STABLE] == (if Due(s, STABLE, p.now) then 0.0 else s.timers[STABLE])
            && s'.marks == s.marks + (if mark then 1 else 0)
            && (mark ==> s'.repo.knownGood == s.spawnedHead) && (!mark ==> s'.repo == s.repo)
            && s'.spawnedHead == s.spawnedHead && s'.exit == s.exit
  {
    var s0 := FireFirst(s, 0, p);
    var s1 := FireFirst(s, 1, p);
    var s2 := FireFirst(s, 2, p);
    LaterTimers(s, p);
  }

  lemma {:induction false} LaterTimers(s: State, p: Poll)
    requires |s.timers| == TIMERS
    ensures var s2, s5 := FireFirst(s, 2, p), FireFirst(s, TIMERS, p);
            s5.readyAt == s2.readyAt && s5.failure == s2.failure && s5.timers[..2] == s2.timers[..2]
              && s5.marks == s2.marks
            && s5.repo == s2.repo && s5.spawnedHead == s2.spawnedHead && s5.exit == s2.exit
  {
    var s3 := FireFirst(s, 3, p);
    var s4 := FireFirst(s, 4, p);
    assert s4 == Fire(s3, 3, p);
  }

  ghost predicate Overdue(polls: seq<Poll>, deadline: real) {
    exists j :: 0 <= j < |polls| && polls[j].now >= deadline
  }

  ghost predicate StillRuns(polls: seq<Poll>) { forall j :: 0 <= j < |polls| ==> polls[j].exit.None? }

  /** The state after `polls`, read off the history. */
  ghost predicate Remembers(s: State, polls: seq<Poll>, head: Option<int>, started: real, o: Config) {
    var r, deadline := FirstReady(polls), started + o.readyTimeout;
    |s.timers| == TIMERS && s.exit.None? && s.spawnedHead == head && (r.Some? ==> r.value > 0.0)
    && s.readyAt == Or(r)
    && s.timers[READY_TIMEOUT] == (if Overdue(polls, deadline) then 0.0 else deadline)
    && s.timers[STABLE] == (if r.Some? && !WasStable(polls, o) then r.value + o.stableSeconds else 0.0)
    && (s.failure == Fine <==> !SaysFailed(polls) && !Slow(polls, deadline))
  }

  lemma {:induction false} FirstGrows(polls: seq<Poll>, p: Poll)
    ensures FirstReady(polls + [p]) == if FirstReady(polls).Some? then FirstReady(polls) else FirstReadyIn(p.messages)
  {
    var q := polls + [p];
    assert q[..|q| - 1] == polls && q[|q| - 1] == p;
  }

  lemma {:induction false} OverdueGrows(polls: seq<Poll>, p: Poll, deadline: real)
    ensures Overdue(polls + [p], deadline) <==> Overdue(polls, deadline) || p.now >= deadline
  {
    var q := polls + [p];
    assert q[|polls|] == p;
    assert forall j :: 0 <= j < |polls| ==> q[j] == polls[j];
    if Overdue(polls, deadline) {
      var j :| 0 <= j < |polls| && polls[j].now >= deadline;
      assert q[j].now >= deadline;
    }
  }

  lemma {:induction false} SlowGrows(polls: seq<Poll>, p: Poll, deadline: real)
    ensures var q := polls + [p];
            Slow(q, deadline) <==> Slow(polls, deadline) || (p.now >= deadline && FirstReady(q).None?)
  {
    hide FirstReady;
    var q := polls + [p];
    assert q[|polls|] == p && q[..|polls| + 1] == q;
    assert forall j :: 0 <= j < |polls| ==> q[j] == polls[j] && q[..j + 1] == polls[..j + 1];
    if Slow(polls, deadline) {
      var j :| 0 <= j < |polls| && polls[j].now >= deadline && FirstReady(polls[..j + 1]).None?;
      assert q[j].now >= deadline;
    }
  }

  lemma {:induction false} FailedGrows(polls: seq<Poll>, p: Poll)
    ensures SaysFailed(polls + [p]) <==> SaysFailed(polls) || AnyFailed(p.messages)
  {
    var q := polls + [p];
    assert q[|polls|] == p;
    assert forall j :: 0 <= j < |polls| ==> q[j] == polls[j];
    if AnyFailed(p.messages) {
      var k :| 0 <= k < |p.messages| && p.messages[k].Failed?;
      assert q[|polls|].messages[k].Failed?;
    }
    if SaysFailed(polls) {
      var j, k :| 0 <= j < |polls| && 0 <= k < |polls[j].messages| && polls[j].messages[k].Failed?;
      assert q[j].messages[k].Failed?;
    }
  }

  /** A history with positive clocks is a shorter one and a last turn with positive clocks. */
  lemma {:induction false} PositiveSplit(polls: seq<Poll>, p: Poll, started: real, o: Config)
    requires Positive(polls + [p], started, o)
    ensures Positive(polls, started, o) && p.now > 0.0 && ReadyAfterZero(p.messages)
  {
    var q := polls + [p];
    assert q[|polls|] == p;
    assert forall j :: 0 <= j < |polls| ==> q[j] == polls[j];
    forall k | 0 <= k < |p.messages|
      ensures (p.messages[k].Ready? ==> p.messages[k].at > 0.0) && (p.messages[k].Failed? ==> p.messages[k].at > 0.0)
    {
      assert q[|polls|].messages[k] == p.messages[k];
    }
  }

  lemma {:induction false} StableGrows(polls: seq<Poll>, p: Poll, o: Config)
    ensures var q := polls + [p]; WasStable(q, o) <==> WasStable(polls, o) || StableAt(q, |polls|, o)
  {
    var q := polls + [p];
    assert forall j: nat :: j < |polls| ==> q[j] == polls[j] && q[..j + 1] == polls[..j + 1];
    assert forall j: nat :: j < |polls| ==> StableAt(q, j, o) == StableAt(polls, j, o);
  }

  /** Once ready, the history stays ready; so the deadline and the stable moment each count once. */
  lemma {:induction false} ReadyStays(polls: seq<Poll>, j: nat)
    requires j <= |polls| && FirstReady(polls[..j]).Some?
    ensures FirstReady(polls) == FirstReady(polls[..j])
    decreases |polls| - j
  {
    if j < |polls| {
      assert polls[..j + 1][..j] == polls[..j];
      ReadyStays(polls, j + 1);
    } else {
      assert polls[..j] == polls;
    }
  }

  /** Overdue and not slow: it was ready by then. */
  lemma {:induction false} OverdueReady(polls: seq<Poll>, deadline: real)
    requires Overdue(polls, deadline) && !Slow(polls, deadline)
    ensures FirstReady(polls).Some?
  {
    var j :| 0 <= j < |polls| && polls[j].now >= deadline;
    ReadyStays(polls, j + 1);
  }

  lemma {:induction false} StableReady(polls: seq<Poll>, o: Config)
    requires WasStable(polls, o)
    ensures FirstReady(polls).Some?
  {
    var j: nat :| j < |polls| && StableAt(polls, j, o);
    ReadyStays(polls, j + 1);
  }

  /** The known-good ref as Electron left it when the turn begins. */
  ghost function RefIn(p: Poll, ref: Option<int>): Option<int> {
    if p.change.Some? then p.change.value.knownGood else ref
  }

  /** Where a turn leaves the decision's variables, phase by phase. */
  lemma {:induction false} TurnChanges(s: State, p: Poll, o: Config)
    requires |s.timers| == TIMERS && ReadyAfterZero(p.messages)
    ensures var s', r := Turn(s, p, o), FirstReadyIn(p.messages);
            var readyAt := if s.readyAt != 0.0 then s.readyAt else Or(r);
            var stable := if s.readyAt == 0.0 && r.Some? then r.value + o.stableSeconds else s.timers[STABLE];
            var reported := if s.failure == Fine && AnyFailed(p.messages) then Reported else s.failure;
            var late := s.timers[READY_TIMEOUT] != 0.0 && p.now >= s.timers[READY_TIMEOUT];
            var steady := stable != 0.0 && p.now >= stable;
            var failure := if late && readyAt == 0.0 && reported == Fine then TooSlow else reported;
            var mark := steady && failure == Fine && s.spawnedHead.Some? && p.updateRef;
            (r.Some? ==> r.value > 0.0) && s'.readyAt == readyAt && s'.failure == failure
            && s'.timers[READY_TIMEOUT] == (if late then 0.0 else s.timers[READY_TIMEOUT])
            && s'.timers[STABLE] == (if steady then 0.0 else stable)
            && s'.marks == s.marks + (if mark then 1 else 0)
            && s'.repo.knownGood == (if mark then s.spawnedHead else RefIn(p, s.repo.knownGood))
            && s'.spawnedHead == s.spawnedHead && s'.exit == p.exit
  {
    hide Before, FireFirst, AnyFailed, FirstReadyIn, ReadyAfterZero;
    BeforeChanges(s, p, o);
    TimersChange(Before(s, p, o), p);
  }

  /** The part of a turn before its timers. */
  lemma {:induction false} BeforeChanges(s: State, p: Poll, o: Config)
    requires |s.timers| == TIMERS && ReadyAfterZero(p.messages)
    ensures var s', r := Before(s, p, o), FirstReadyIn(p.messages);
            (r.Some? ==> r.value > 0.0)
            && s'.readyAt == (if s.readyAt != 0.0 then s.readyAt else Or(r))
            && s'.timers[STABLE]
               == (if s.readyAt == 0.0 && r.Some? then r.value + o.stableSeconds else s.timers[STABLE])
            && s'.timers[READY_TIMEOUT] == s.timers[READY_TIMEOUT]
            && s'.failure == (if s.failure == Fine && AnyFailed(p.messages) then Reported else s.failure)
            && s'.marks == s.marks && s'.spawnedHead == s.spawnedHead && s'.repo.knownGood == RefIn(p, s.repo.knownGood)
  {
    hide HandleAll, AnyFailed, FirstReadyIn, ReadyAfterZero;
    MessagesChange(if p.change.Some? then s.(repo := p.change.value) else s, p.messages, o);
  }

  lemma {:induction false} TurnRemembers(s: State, polls: seq<Poll>, p: Poll,
                                         head: Option<int>, started: real, o: Config)
    requires Remembers(s, polls, head, started, o) && StillRuns(polls)
    requires started > 0.0 && o.readyTimeout >= 0.0 && o.stableSeconds >= 0.0 && p.now > 0.0
             && ReadyAfterZero(p.messages)
    ensures var s' := Turn(s, p, o);
            s'.exit == p.exit && Remembers(s'.(exit := None), polls + [p], head, started, o)
            && s'.marks == s.marks + (if Earned(polls + [p], head, started, o) then 1 else 0)
            && s'.repo.knownGood == (if Earned(polls + [p], head, started, o) then head else RefIn(p, s.repo.knownGood))
  {
    hide Turn, SaysFailed, Slow, WasStable, Overdue, AnyFailed, StableAt, FirstReady, FirstReadyIn, ReadyAfterZero;
    var deadline := started + o.readyTimeout;
    var q := polls + [p];
    TurnChanges(s, p, o);
    FirstGrows(polls, p);
    OverdueGrows(polls, p, deadline);
    SlowGrows(polls, p, deadline);
    FailedGrows(polls, p);
    StableGrows(polls, p, o);
    StableNow(polls, p, o);
    assert q[..|q| - 1] == polls && q[|q| - 1] == p;
    if Overdue(polls, deadline) && !Slow(polls, deadline) { OverdueReady(polls, deadline); }
    if WasStable(polls, o) { StableReady(polls, o); }
  }

  lemma {:induction false} StableNow(polls: seq<Poll>, p: Poll, o: Config)
    ensures var q := polls + [p]; var r := FirstReady(q);
            StableAt(q, |polls|, o) <==> r.Some? && p.now >= r.value + o.stableSeconds
  {
    var q := polls + [p];
    assert q[..|polls| + 1] == q;
  }

  lemma {:induction false} LoopRemembers(repo: Repo, signed: set<int>, polls: seq<Poll>,
                                         head: Option<int>, started: real, o: Config)
    requires Positive(polls, started, o) && StillRuns(polls)
    ensures Remembers(Loop(Start(repo, signed, head, started, o), polls, o), polls, head, started, o)
    decreases |polls|
  {
    if polls == [] {
      assert !SaysFailed(polls) && !Slow(polls, started + o.readyTimeout) && !Overdue(polls, started + o.readyTimeout);
    } else {
      hide Remembers, Turn;
      var before, p := polls[..|polls| - 1], polls[|polls| - 1];
      assert before + [p] == polls;
      LoopRemembers(repo, signed, before, head, started, o);
      var s := Loop(Start(repo, signed, head, started, o), before, o);
      assert s.exit.None?;
      TurnRemembers(s, before, p, head, started, o);
    }
  }

  /**
   * The known-good ref moves in a turn exactly when the history earns it:
   * Electron has been ready for the stable period for the first time, is not
   * yet reaped, no failure was reported and startup was in time. It moves to
   * the HEAD that was spawned; in every other turn it is what Electron left it
   * at, and after the exit it stays.
   */
  lemma {:induction false} KnownGoodMovesIff(repo: Repo, signed: set<int>, polls: seq<Poll>,
                                             p: Poll, head: Option<int>, started: real, o: Config)
    requires Positive(polls + [p], started, o)
    ensures var s0 := Start(repo, signed, head, started, o);
            var before, after := Loop(s0, polls, o), Loop(s0, polls + [p], o);
            after.marks == before.marks + (if Earned(polls + [p], head, started, o) then 1 else 0)
            && after.repo.knownGood == (if Earned(polls + [p], head, started, o) then head
                                        else if StillRuns(polls) then RefIn(p, before.repo.knownGood)
                                          else before.repo.knownGood)
  {
    var s0 := Start(repo, signed, head, started, o);
    var q := polls + [p];
    assert q[..|q| - 1] == polls && q[|q| - 1] == p;
    assert forall j :: 0 <= j < |polls| ==> q[j] == polls[j];
    PositiveSplit(polls, p, started, o);
    if StillRuns(polls) {
      LoopRemembers(repo, signed, polls, head, started, o);
      TurnRemembers(Loop(s0, polls, o), polls, p, head, started, o);
    } else {
      var j :| 0 <= j < |polls| && polls[j].exit.Some?;
      LoopStops(s0, polls, j, o);
      assert q[j].exit.Some?;
    }
  }

  /** Nothing happens after the exit. */
  lemma {:induction false} LoopStops(s0: State, polls: seq<Poll>, j: nat, o: Config)
    requires |s0.timers| == TIMERS && j < |polls| && polls[j].exit.Some?
    ensures Loop(s0, polls, o).exit.Some?
    decreases |polls|
  {
    hide Before, FireFirst;
    var n := |polls| - 1;
    if j < n { LoopStops(s0, polls[..n], j, o); }
  }

  /** One supervised run marks at most once, however long it runs. */
  lemma {:induction false} MarksOnce(repo: Repo, signed: set<int>, polls: seq<Poll>,
                                     head: Option<int>, started: real, o: Config)
    requires Positive(polls, started, o)
    ensures var s := Loop(Start(repo, signed, head, started, o), polls, o);
            s.marks <= 1 && (s.marks == 1 <==> exists n :: 0 <= n <= |polls| && Earned(polls[..n], head, started, o))
            && forall m, n :: 0 <= m <= n <= |polls| ==>
                 (Earned(polls[..m], head, started, o) && Earned(polls[..n], head, started, o) ==> m == n)
    decreases |polls|
  {
    hide Loop, Earned;
    if polls == [] {
      NothingYet(repo, signed, head, started, o);
    } else {
      var m := |polls| - 1;
      var before, p := polls[..m], polls[m];
      assert before + [p] == polls;
      PositiveSplit(before, p, started, o);
      MarksOnce(repo, signed, before, head, started, o);
      KnownGoodMovesIff(repo, signed, before, p, head, started, o);
      assert polls[..|polls|] == polls;
      assert forall n :: 0 <= n <= m ==> before[..n] == polls[..n];
      forall n | 0 <= n <= m && Earned(polls[..n], head, started, o) ensures !Earned(polls, head, started, o) {
        EarnedOnce(polls, n, head, started, o);
      }
    }
  }

  lemma {:induction false} NothingYet(repo: Repo, signed: set<int>, head: Option<int>, started: real, o: Config)
    ensures Loop(Start(repo, signed, head, started, o), [], o).marks == 0 && !Earned([], head, started, o)
  {
  }

  lemma {:induction false} EarnedOnce(polls: seq<Poll>, n: nat, head: Option<int>, started: real, o: Config)
    requires n < |polls| && Earned(polls[..n], head, started, o)
    ensures !Earned(polls, head, started, o)
  {
    var before := polls[..|polls| - 1];
    assert polls[..n][..n] == polls[..n] && before[..n] == polls[..n];
    assert StableAt(before, n - 1, o);
  }

  /** Where the ref stands after `polls`, from their history alone. */
  ghost function RefAfter(ref: Option<int>, polls: seq<Poll>, head: Option<int>,
                          started: real, o: Config): Option<int> {
    if polls == [] then ref
    else
      var before, p := polls[..|polls| - 1], polls[|polls| - 1];
      if Earned(polls, head, started, o) then head
      else if StillRuns(before) then RefIn(p, RefAfter(ref, before, head, started, o))
      else RefAfter(ref, before, head, started, o)
  }

  /** So over a whole supervised run the ref is where its history puts it. */
  lemma {:induction false} RefFollowsHistory(repo: Repo, signed: set<int>, polls: seq<Poll>,
                                             head: Option<int>, started: real, o: Config)
    requires Positive(polls, started, o)
    ensures Loop(Start(repo, signed, head, started, o), polls, o).repo.knownGood
            == RefAfter(repo.knownGood, polls, head, started, o)
    decreases |polls|
  {
    hide Earned, Turn, RefIn, StillRuns, Positive;
    if polls != [] {
      var before, p := polls[..|polls| - 1], polls[|polls| - 1];
      assert before + [p] == polls;
      PositiveSplit(before, p, started, o);
      RefFollowsHistory(repo, signed, before, head, started, o);
      KnownGoodMovesIff(repo, signed, before, p, head, started, o);
    }
  }

  // -------------------------------------------------------------------- endings

  /**
   * A failure that was noticed has been acted on: Electron was told to
   * terminate, and the kill is armed or done. Until it is done its deadline is
   * eight seconds after the first telling.
   */
  ghost predicate Ending(s: State) {
    && (s.failure != Fine ==> s.kills != [] && (s.killAt != 0.0 || ForceKill in s.kills))
    && (s.kills != [] && ForceKill !in s.kills ==>
          s.kills[0].Terminate? && s.kills[0].at > 0.0 && s.killAt == s.kills[0].at + 8.0)
    && (s.kills == [] ==> s.killAt == 0.0)
  }

  lemma {:induction false} HandleKeepsEnding(s: State, messages: seq<Message>, o: Config)
    requires |s.timers| == TIMERS && Ending(s) && s.killAt >= 0.0 && ReadyAfterZero(messages)
    ensures Ending(HandleAll(s, messages, o)) && HandleAll(s, messages, o).killAt >= 0.0
    decreases |messages|
  {
    hide Handle, Ending;
    if messages != [] {
      var n := |messages| - 1;
      assert forall k :: 0 <= k < n ==> messages[..n][k] == messages[k];
      HandleKeepsEnding(s, messages[..n], o);
      OneKeepsEnding(HandleAll(s, messages[..n], o), messages[n], o);
    }
  }

  lemma {:induction false} TellingEnds(s: State, at: real)
    requires Ending(s.(failure := Fine)) && s.killAt >= 0.0 && at > 0.0
    ensures Ending(Terminated(s, at)) && Terminated(s, at).killAt >= 0.0
  {
    if s.kills != [] { assert Terminated(s, at).kills[0] == s.kills[0]; }
  }

  lemma {:induction false} OneKeepsEnding(s: State, m: Message, o: Config)
    requires |s.timers| == TIMERS && Ending(s) && s.killAt >= 0.0 && (m.Failed? ==> m.at > 0.0)
    ensures Ending(Handle(s, m, o)) && Handle(s, m, o).killAt >= 0.0
  {
    hide SignOnDisk, Max, Terminated;
    if m.Failed? { TellingEnds(s.(failure := Reported), m.at); }
  }

  lemma {:induction false} FireKeepsEnding(s: State, n: nat, p: Poll)
    requires |s.timers| == TIMERS && n <= TIMERS && Ending(s) && s.killAt >= 0.0 && p.now > 0.0
    ensures Ending(FireFirst(s, n, p)) && FireFirst(s, n, p).killAt >= 0.0
    decreases n
  {
    hide Terminated;
    if n > 0 {
      FireKeepsEnding(s, n - 1, p);
      var t := FireFirst(s, n - 1, p);
      var fired := t.(timers := t.timers[n - 1 := 0.0]);
      TellingEnds(fired, p.now);
      TellingEnds(fired.(failure := TooSlow), p.now);
    }
  }

  /** A failed start is always being ended, and is killed in any turn past its deadline. */
  lemma {:induction false} FailureEnds(repo: Repo, signed: set<int>, polls: seq<Poll>,
                                       p: Poll, head: Option<int>, started: real, o: Config)
    requires Positive(polls + [p], started, o) && StillRuns(polls)
    ensures var s := Loop(Start(repo, signed, head, started, o), polls, o);
            Ending(s) && s.killAt >= 0.0
            && (SaysFailed(polls) || Slow(polls, started + o.readyTimeout) ==>
                  s.kills != [] && (p.now > s.killAt ==> ForceKill in Turn(s, p, o).kills)
                  && (ForceKill in s.kills || (s.kills[0].Terminate? && s.killAt == s.kills[0].at + 8.0)))
  {
    PositiveSplit(polls, p, started, o);
    LoopEnding(repo, signed, polls, head, started, o);
    LoopRemembers(repo, signed, polls, head, started, o);
    var s := Loop(Start(repo, signed, head, started, o), polls, o);
    if s.failure != Fine && p.now > s.killAt {
      KillPersists(s, p, o);
    }
  }

  lemma {:induction false} LoopEnding(repo: Repo, signed: set<int>, polls: seq<Poll>,
                                      head: Option<int>, started: real, o: Config)
    requires Positive(polls, started, o)
    ensures var s := Loop(Start(repo, signed, head, started, o), polls, o); Ending(s) && s.killAt >= 0.0
    decreases |polls|
  {
    if polls != [] {
      hide Turn, Positive, Ending, ReadyAfterZero;
      var before, p := polls[..|polls| - 1], polls[|polls| - 1];
      assert before + [p] == polls;
      PositiveSplit(before, p, started, o);
      LoopEnding(repo, signed, before, head, started, o);
      TurnEnding(Loop(Start(repo, signed, head, started, o), before, o), p, o);
    } else {
      assert Start(repo, signed, head, started, o).failure == Fine;
    }
  }

  lemma {:induction false} TurnEnding(s: State, p: Poll, o: Config)
    requires |s.timers| == TIMERS && Ending(s) && s.killAt >= 0.0 && p.now > 0.0 && ReadyAfterZero(p.messages)
    ensures Ending(Turn(s, p, o)) && Turn(s, p, o).killAt >= 0.0
  {
    hide HandleAll, FireFirst, ReadyAfterZero;
    HandleKeepsEnding(if p.change.Some? then s.(repo := p.change.value) else s, p.messages, o);
    FireKeepsEnding(Before(s, p, o), TIMERS, p);
  }

  /** A turn past an armed deadline kills, and a deadline once armed is not moved. */
  lemma {:induction false} KillPersists(s: State, p: Poll, o: Config)
    requires |s.timers| == TIMERS && Ending(s) && s.failure != Fine && p.now > s.killAt && s.killAt >= 0.0
    ensures ForceKill in Turn(s, p, o).kills
  {
    hide HandleAll, FireFirst;
    var s1 := if p.change.Some? then s.(repo := p.change.value) else s;
    MessagesKeepKill(s1, p.messages, o);
    TimersKeepKill(Before(s, p, o), TIMERS, p);
  }

  lemma {:induction false} MessagesKeepKill(s: State, messages: seq<Message>, o: Config)
    requires |s.timers| == TIMERS && s.failure != Fine
    ensures var s' := HandleAll(s, messages, o);
            s'.killAt == s.killAt && s'.kills == s.kills
    ensures HandleAll(s, messages, o).failure != Fine
    decreases |messages|
  {
    if messages != [] {
      hide SignOnDisk, Max;
      MessagesKeepKill(s, messages[..|messages| - 1], o);
    }
  }

  lemma {:induction false} TimersKeepKill(s: State, n: nat, p: Poll)
    requires |s.timers| == TIMERS && n <= TIMERS
    ensures var s' := FireFirst(s, n, p);
            (s.killAt != 0.0 ==> s'.killAt == s.killAt) && (ForceKill in s.kills ==> ForceKill in s'.kills)
    decreases n
  {
    if n > 0 { TimersKeepKill(s, n - 1, p); }
  }

  /**
   * A reported problem or a startup past its deadline is a failure, however
   * Electron then exits; nothing else is blamed on them.
   */
  lemma {:induction false} FailuresAreTold(repo: Repo, signed: set<int>, polls: seq<Poll>,
                                           p: Poll, head: Option<int>, started: real, finished: real, o: Config)
    requires Positive(polls + [p], started, o) && StillRuns(polls) && p.exit.Some?
    ensures var s := Loop(Start(repo, signed, head, started, o), polls + [p], o);
            OutcomeOf(s, finished, o) in {FailedWith(ProblemReported), FailedWith(NotReadyInTime)}
            <==> SaysFailed(polls + [p]) || Slow(polls + [p], started + o.readyTimeout)
  {
    hide Turn, Positive, SaysFailed, Slow, FirstReady, ReadyAfterZero;
    var q := polls + [p];
    assert q[..|q| - 1] == polls && q[|q| - 1] == p;
    PositiveSplit(polls, p, started, o);
    assert started > 0.0 && o.readyTimeout >= 0.0 && o.stableSeconds >= 0.0;
    LoopRemembers(repo, signed, polls, head, started, o);
    var s := Loop(Start(repo, signed, head, started, o), polls, o);
    TurnRemembers(s, polls, p, head, started, o);
  }
}
