/**
 * The launcher's main loop (launcher/linux/stella-launcher.c:2863-3078) as a
 * function of what each round meets, with a log of what it checked, spawned
 * and marked known-good; and the safety of every run.
 */
module LauncherRun {
  import opened Options
  import opened Repository
  import S = Supervisor
  import H = SupervisorHistory

  datatype Command = CmdNone | CmdStart | CmdReturn | CmdReinstall | CmdQuit
  datatype Choice = NoChoice | ChooseReturn | ChooseReinstall | ChooseRetry | ChooseQuit

  /** `--start`, the self-test's `--recovery-choice`, and what the supervisor reads. */
  datatype Setup = Setup(config: S.Config, start: bool, choice: Choice)

  datatype PrepareCalls = PrepareCalls(
    git: bool, signer: bool, clone: Option<Repo>, sign: SignCalls, verify: VerifyCalls, bun: bool, prepare: bool)

  datatype Prepared = Prepared(disk: Disk, verdict: Option<Verdict>, ok: bool)

  function PrepareForLaunch(d: Disk, key: int, c: PrepareCalls): Prepared {
    if !c.git || !c.signer then Prepared(d, None, false)
    else if d.repo.None? && c.clone.None? then Prepared(d, None, false)
    else
      var (d1, installed) := if d.repo.Some? then (d, true) else SignOnDisk(c.clone.value, d.signed, key, None, c.sign);
      if !installed || d1.repo.None? then Prepared(d1, None, false)
      else
        var v := VerifyHead(d1.repo.value, key, c.verify);
        Prepared(d1, Some(v), v == Signed && c.bun && c.prepare)
  }

  /**
   * One round of the loop. `outside`: the checkout as the window's wait left
   * it; `meanwhile`: as installing packages left it, after it was verified.
   */
  datatype Round = Round(
    window: Command, outside: Option<Repo>, ret: ReturnCalls, reinstall: ReinstallCalls, prepare: PrepareCalls,
    meanwhile: Option<Repo>, headKnown: bool, spawns: bool, started: real, polls: seq<S.Poll>, finished: real,
    crashedAt: real, probe: bool)

  datatype Event =
    | Checked(repo: Repo, verdict: Verdict)
    | Spawned(repo: Repo, head: Option<int>)
    | Marked(head: Option<int>, started: real, polls: seq<S.Poll>)

  datatype Ended = Running | Supervising | Exit(code: int)

  datatype Run = Run(
    disk: Disk, crashTimes: seq<real>, command: Command, failed: bool, recoveries: nat,
    events: seq<Event>, ended: Ended)

  function Begin(d: Disk, l: Setup): Run {
    var command := if l.config.ui && !l.start && !l.config.selfTest then CmdNone else CmdStart;
    Run(d, [], command, false, 0, [], Running)
  }

  function Recover(run: Run, probe: bool, l: Setup): Run {
    var n := run.recoveries + 1;
    var command :=
      if l.config.selfTest then
        if l.choice == NoChoice || n > 1 then CmdQuit
        else if l.choice == ChooseReturn then
          if run.disk.repo.Some? && probe && HasKnownGood(run.disk.repo.value) then CmdReturn else CmdReinstall
        else if l.choice == ChooseReinstall then CmdReinstall
        else if l.choice == ChooseRetry then CmdStart
        else CmdQuit
      else if l.config.ui then CmdNone else CmdQuit;
    run.(failed := true, recoveries := n, command := command)
  }

  const CRASH_SLOTS := 8

  function Recent(times: seq<real>, now: real, window: real): seq<real> {
    if times == [] then []
    else
      var n := |times| - 1;
      Recent(times[..n], now, window) + if now - times[n] < window then [times[n]] else []
  }

  /** The early crashes remembered after one more crash. */
  function Recorded(times: seq<real>, since: real, now: real, o: S.Config): seq<real> {
    if since >= o.stableSeconds then times
    else
      var kept := Recent(times, now, o.stableSeconds * 2.0);
      if |kept| < CRASH_SLOTS then kept + [now] else kept
  }

  /** The moves of the known-good ref, each with the turns that led to it. */
  function Marks(s0: S.State, started: real, polls: seq<S.Poll>, o: S.Config): seq<Event>
    requires |s0.timers| == S.TIMERS
  {
    if polls == [] then []
    else
      var before := polls[..|polls| - 1];
      Marks(s0, started, before, o)
      + if S.Loop(s0, polls, o).marks > S.Loop(s0, before, o).marks then [Marked(s0.spawnedHead, started, polls)]
        else []
  }

  /** What follows an outcome: the loop's `switch`. */
  function AfterOutcome(run: Run, outcome: S.Outcome, x: Round, l: Setup): Run {
    if outcome.Quit? then run.(ended := Exit(0))
    else if outcome.Relaunch? then run.(command := CmdStart)
    else if outcome.FailedWith? then Recover(run, x.probe, l)
    else
      var times := Recorded(run.crashTimes, outcome.sinceReady, x.crashedAt, l.config);
      if |times| >= 2 then Recover(run.(crashTimes := []), x.probe, l)
      else run.(crashTimes := times, command := CmdStart)
  }

  function SpawnStart(repo: Repo, signed: set<int>, x: Round, o: S.Config): S.State {
    S.Start(repo, signed, if x.headKnown then repo.head else None, x.started, o)
  }

  function Supervised(run: Run, x: Round, l: Setup): Run
    requires run.disk.repo.Some?
  {
    var repo := if x.meanwhile.Some? then x.meanwhile.value else run.disk.repo.value;
    var r1 := run.(disk := Disk(Some(repo), run.disk.signed));
    if !x.spawns then AfterOutcome(r1, S.FailedWith(S.NotSpawned), x, l)
    else
      var s0 := SpawnStart(repo, run.disk.signed, x, l.config);
      var s := S.Loop(s0, x.polls, l.config);
      var r2 := r1.(disk := Disk(Some(s.repo), s.signed),
                    events := r1.events + [Spawned(repo, s0.spawnedHead)] + Marks(s0, x.started, x.polls, l.config));
      if s.exit.None? then r2.(ended := Supervising)
      else AfterOutcome(r2, S.OutcomeOf(s, x.finished, l.config), x, l)
  }

  /** The disk after the command itself; that a command failed is only logged. */
  function Commanded(d: Disk, command: Command, x: Round, key: int): Disk {
    if command == CmdReturn then ReturnToKnownGood(d, key, x.ret).0
    else if command == CmdReinstall then Reinstall(d, key, x.reinstall).0
    else d
  }

  function Launched(run: Run, x: Round, l: Setup): Run {
    var p := PrepareForLaunch(run.disk, l.config.key, x.prepare);
    var r1 := run.(disk := p.disk);
    var r2 := if p.verdict.Some? && p.disk.repo.Some?
              then r1.(events := r1.events + [Checked(p.disk.repo.value, p.verdict.value)]) else r1;
    if p.ok && p.disk.repo.Some? then Supervised(r2, x, l) else Recover(r2, x.probe, l)
  }

  function RunRound(run: Run, x: Round, l: Setup): Run {
    if run.ended != Running then run
    else
      var waits := run.command == CmdNone;
      var command := if waits then x.window else run.command;
      var disk := if waits && x.outside.Some? then Disk(x.outside, run.disk.signed) else run.disk;
      if command == CmdQuit then run.(disk := disk, command := CmdQuit, ended := Exit(if run.failed then 1 else 0))
      else
        Launched(run.(disk := Commanded(disk, command, x, l.config.key), command := CmdNone, failed := false), x, l)
  }

  function RunAll(d: Disk, rounds: seq<Round>, l: Setup): Run {
    if rounds == [] then Begin(d, l)
    else RunRound(RunAll(d, rounds[..|rounds| - 1], l), rounds[|rounds| - 1], l)
  }

  // -------------------------------------------------------------------- crashes

  /** Two early crashes close together stop the restarts; nothing else does. */
  lemma {:induction false} CrashLoopIff(times: seq<real>, since: real, now: real, o: S.Config)
    requires |times| <= 1
    ensures |Recorded(times, since, now, o)| <= 2
    ensures |Recorded(times, since, now, o)| == 2 <==>
            since < o.stableSeconds && times != [] && now - times[0] < o.stableSeconds * 2.0
    ensures since < o.stableSeconds ==> now in Recorded(times, since, now, o)
  {
    if times != [] { assert Recent(times[..0], now, o.stableSeconds * 2.0) == []; }
  }

  /**
   * At the loop's head at most one early crash is remembered, so the eight
   * slots are never full; and after a failure nothing starts unasked, except a
   * self-test's one scripted answer.
   */
  ghost predicate Settled(run: Run, l: Setup) {
    |run.crashTimes| <= 1
    && (run.ended == Running && run.failed ==>
          run.command in {CmdNone, CmdQuit} || (l.config.selfTest && run.recoveries <= 1))
  }

  lemma {:induction false} OutcomeSettles(run: Run, outcome: S.Outcome, x: Round, l: Setup)
    requires |run.crashTimes| <= 1 && !run.failed
    ensures Settled(AfterOutcome(run, outcome, x, l), l)
  {
    hide Recorded;
    if outcome.Crashed? { CrashLoopIff(run.crashTimes, outcome.sinceReady, x.crashedAt, l.config); }
  }

  lemma {:induction false} SupervisionSettles(run: Run, x: Round, l: Setup)
    requires run.disk.repo.Some? && |run.crashTimes| <= 1 && !run.failed
    ensures Settled(Supervised(run, x, l), l)
  {
    hide AfterOutcome, S.Loop, S.OutcomeOf, Marks;
    forall r: Run, outcome | r.crashTimes == run.crashTimes && !r.failed
      ensures Settled(AfterOutcome(r, outcome, x, l), l) {
      OutcomeSettles(r, outcome, x, l);
    }
  }

  lemma {:induction false} RoundSettles(run: Run, x: Round, l: Setup)
    requires Settled(run, l)
    ensures Settled(RunRound(run, x, l), l)
  {
    hide Supervised, PrepareForLaunch, Commanded;
    forall r: Run | r.disk.repo.Some? && |r.crashTimes| <= 1 && !r.failed ensures Settled(Supervised(r, x, l), l) {
      SupervisionSettles(r, x, l);
    }
  }

  lemma {:induction false} RunSettles(d: Disk, rounds: seq<Round>, l: Setup)
    ensures Settled(RunAll(d, rounds, l), l)
    decreases |rounds|
  {
    hide RunRound;
    if rounds != [] {
      RunSettles(d, rounds[..|rounds| - 1], l);
      RoundSettles(RunAll(d, rounds[..|rounds| - 1], l), rounds[|rounds| - 1], l);
    }
  }

  // --------------------------------------------------------------------- safety

  /** What every event says about the one before it. */
  ghost predicate SafeAt(events: seq<Event>, i: nat, o: S.Config)
    requires i < |events|
  {
    match events[i]
    case Checked(repo, verdict) => verdict == Signed ==> Trusted(repo, o.key)
    case Spawned(repo, head) =>
      i > 0 && events[i - 1].Checked? && events[i - 1].verdict == Signed && (head.Some? ==> head == repo.head)
    case Marked(head, started, polls) =>
      i > 0 && events[i - 1].Spawned? && events[i - 1].head == head && S.Earned(polls, head, started, o)
  }

  ghost predicate Safe(events: seq<Event>, o: S.Config) {
    forall i: nat :: i < |events| ==> SafeAt(events, i, o)
  }

  ghost predicate Timely(x: Round, o: S.Config) { S.Positive(x.polls, x.started, o) }

  /** One supervised run adds at most one mark: exactly the one its own turns have earned. */
  lemma {:induction false} MarksAreEarned(repo: Repo, signed: set<int>, head: Option<int>,
                                          started: real, polls: seq<S.Poll>, o: S.Config)
    requires S.Positive(polls, started, o)
    ensures var s0 := S.Start(repo, signed, head, started, o); var m := Marks(s0, started, polls, o);
            |m| == S.Loop(s0, polls, o).marks <= 1
            && (forall e :: e in m ==> e.Marked? && e.head == head && e.started == started && e.polls <= polls
                                       && S.Earned(e.polls, head, started, o))
            && forall n :: 0 <= n <= |polls| && S.Earned(polls[..n], head, started, o)
                 ==> Marked(head, started, polls[..n]) in m
    decreases |polls|
  {
    hide S.Loop, S.Earned, S.Positive;
    var s0 := S.Start(repo, signed, head, started, o);
    if polls == [] {
      H.NothingYet(repo, signed, head, started, o);
    } else {
      var before, p := polls[..|polls| - 1], polls[|polls| - 1];
      assert before + [p] == polls;
      H.PositiveSplit(before, p, started, o);
      MarksAreEarned(repo, signed, head, started, before, o);
      H.KnownGoodMovesIff(repo, signed, before, p, head, started, o);
      H.MarksOnce(repo, signed, polls, head, started, o);
      assert polls[..|polls|] == polls;
      assert forall n :: 0 <= n < |polls| ==> before[..n] == polls[..n];
    }
  }

  lemma {:induction false} SafeAppend(events: seq<Event>, e: Event, o: S.Config)
    requires Safe(events, o) && SafeAt(events + [e], |events|, o)
    ensures Safe(events + [e], o)
  {
    var q := events + [e];
    forall i: nat | i < |q| ensures SafeAt(q, i, o) {
      if i < |events| {
        assert SafeAt(events, i, o);
        assert q[i] == events[i] && (i > 0 ==> q[i - 1] == events[i - 1]);
      }
    }
  }

  lemma {:induction false} SupervisedSafe(run: Run, x: Round, l: Setup)
    requires run.disk.repo.Some? && Safe(run.events, l.config) && Timely(x, l.config)
    requires run.events != [] && run.events[|run.events| - 1].Checked? && run.events[|run.events| - 1].verdict == Signed
    ensures Safe(Supervised(run, x, l).events, l.config)
  {
    hide S.Loop, S.Earned, S.OutcomeOf, Marks, Safe, Recorded;
    var o := l.config;
    var repo := if x.meanwhile.Some? then x.meanwhile.value else run.disk.repo.value;
    if x.spawns {
      var s0 := SpawnStart(repo, run.disk.signed, x, o);
      var spawned := run.events + [Spawned(repo, s0.spawnedHead)];
      assert SafeAt(spawned, |run.events|, o);
      SafeAppend(run.events, Spawned(repo, s0.spawnedHead), o);
      MarksAreEarned(repo, run.disk.signed, s0.spawnedHead, x.started, x.polls, o);
      var m := Marks(s0, x.started, x.polls, o);
      if m == [] {
        assert spawned + m == spawned;
      } else {
        assert m == [m[0]] && m[0] in m;
        assert spawned[|run.events|].Spawned?;
        assert SafeAt(spawned + [m[0]], |spawned|, o);
        SafeAppend(spawned, m[0], o);
      }
    }
  }

  /**
   * In every run, Electron is spawned only right after `verify_head` found
   * HEAD signed by this launcher and clean, and a mark is logged only for the
   * HEAD just spawned, once its turns have earned it.
   */
  lemma {:induction false} RunIsSafe(d: Disk, rounds: seq<Round>, l: Setup)
    requires forall i :: 0 <= i < |rounds| ==> Timely(rounds[i], l.config)
    ensures Safe(RunAll(d, rounds, l).events, l.config)
    decreases |rounds|
  {
    if rounds != [] {
      hide Safe, Timely, Supervised, Recover, Commanded, VerifyHead;
      var n := |rounds| - 1;
      RunIsSafe(d, rounds[..n], l);
      var run, x := RunAll(d, rounds[..n], l), rounds[n];
      RoundIsSafe(run, x, l);
    } else {
      assert Safe([], l.config);
    }
  }

  lemma {:induction false} RoundIsSafe(run: Run, x: Round, l: Setup)
    requires Safe(run.events, l.config) && Timely(x, l.config)
    ensures Safe(RunRound(run, x, l).events, l.config)
  {
    hide Safe, Timely, Supervised, Commanded, VerifyHead, Trusted, SignOnDisk;
    if run.ended == Running && (if run.command == CmdNone then x.window else run.command) != CmdQuit {
      var command := if run.command == CmdNone then x.window else run.command;
      var disk := if run.command == CmdNone && x.outside.Some? then Disk(x.outside, run.disk.signed) else run.disk;
      var p := PrepareForLaunch(Commanded(disk, command, x, l.config.key), l.config.key, x.prepare);
      if p.verdict.Some? {
        var e := Checked(p.disk.repo.value, p.verdict.value);
        VerifyIffTrusted(p.disk.repo.value, l.config.key, x.prepare.verify);
        assert SafeAt(run.events + [e], |run.events|, l.config);
        SafeAppend(run.events, e, l.config);
        if p.ok {
          SupervisedSafe(run.(disk := p.disk, command := CmdNone, failed := false, events := run.events + [e]), x, l);
        }
      }
    }
  }

  /** Nothing moves the checkout between checking and spawning: the code that runs is the code that was checked. */
  ghost predicate Quiet(rounds: seq<Round>) { forall i :: 0 <= i < |rounds| ==> rounds[i].meanwhile.None? }

  ghost predicate RunsChecked(events: seq<Event>) {
    forall i: nat :: i < |events| && events[i].Spawned?
        ==> i > 0 && events[i - 1].Checked? && events[i].repo == events[i - 1].repo
  }

  lemma {:induction false} SpawnsWhatItChecked(d: Disk, rounds: seq<Round>, l: Setup)
    requires Quiet(rounds)
    ensures RunsChecked(RunAll(d, rounds, l).events)
    decreases |rounds|
  {
    assert RunsChecked([]);
    hide RunRound, Logs, RunsChecked;
    if rounds != [] {
      var n := |rounds| - 1;
      SpawnsWhatItChecked(d, rounds[..n], l);
      var run, x := RunAll(d, rounds[..n], l), rounds[n];
      assert x.meanwhile.None?;
      RoundLogs(run, x, l);
      LogsRunChecked(run.events, RunRound(run, x, l).events);
    }
  }

  lemma {:induction false} MarksOnly(s0: S.State, started: real, polls: seq<S.Poll>, o: S.Config)
    requires |s0.timers| == S.TIMERS
    ensures forall e :: e in Marks(s0, started, polls, o) ==> e.Marked?
    decreases |polls|
  {
    hide S.Loop;
    if polls != [] { MarksOnly(s0, started, polls[..|polls| - 1], o); }
  }

  /** What a round logs: a check, and if it passed perhaps a spawn with its marks. */
  ghost predicate Logs(before: seq<Event>, after: seq<Event>, quiet: bool) {
    after == before
    || (exists r, v :: after == before + [Checked(r, v)])
    || (exists r, q, head, more :: after == before + [Checked(r, Signed), Spawned(q, head)] + more
          && (quiet ==> q == r) && forall e :: e in more ==> e.Marked?)
  }

  lemma {:induction false} SupervisedLogs(run: Run, x: Round, l: Setup)
    requires run.disk.repo.Some?
    ensures var q := if x.meanwhile.Some? then x.meanwhile.value else run.disk.repo.value;
            var s0 := SpawnStart(q, run.disk.signed, x, l.config);
            Supervised(run, x, l).events
            == if x.spawns then run.events + [Spawned(q, s0.spawnedHead)] + Marks(s0, x.started, x.polls, l.config)
              else run.events
  {
    hide S.Loop, S.OutcomeOf, Marks, Recorded;
  }

  lemma {:induction false} RoundLogs(run: Run, x: Round, l: Setup)
    ensures Logs(run.events, RunRound(run, x, l).events, x.meanwhile.None?)
  {
    hide Commanded, VerifyHead, SignOnDisk, Supervised, Marks;
    var after := RunRound(run, x, l).events;
    if run.ended == Running && (if run.command == CmdNone then x.window else run.command) != CmdQuit {
      var command := if run.command == CmdNone then x.window else run.command;
      var disk := if run.command == CmdNone && x.outside.Some? then Disk(x.outside, run.disk.signed) else run.disk;
      var p := PrepareForLaunch(Commanded(disk, command, x, l.config.key), l.config.key, x.prepare);
      if p.verdict.Some? {
        var r, v := p.disk.repo.value, p.verdict.value;
        if p.ok {
          SupervisedLogs(run.(disk := p.disk, command := CmdNone, failed := false,
                              events := run.events + [Checked(r, v)]), x, l);
          if x.spawns {
            var q := if x.meanwhile.Some? then x.meanwhile.value else r;
            var s0 := SpawnStart(q, p.disk.signed, x, l.config);
            var more := Marks(s0, x.started, x.polls, l.config);
            MarksOnly(s0, x.started, x.polls, l.config);
            assert after == run.events + [Checked(r, Signed), Spawned(q, s0.spawnedHead)] + more;
          }
        }
      }
    }
  }

  lemma {:induction false} LogsRunChecked(before: seq<Event>, after: seq<Event>)
    requires RunsChecked(before) && Logs(before, after, true)
    ensures RunsChecked(after)
  {
    var n := |before|;
    forall i: nat | i < |after| && after[i].Spawned?
      ensures i > 0 && after[i - 1].Checked? && after[i].repo == after[i - 1].repo {
      if i < n {
        assert after[i] == before[i] && (i > 0 ==> after[i - 1] == before[i - 1]);
      } else if exists r, v :: after == before + [Checked(r, v)] {
        assert false;
      } else {
        var r, q, head, more :| after == before + [Checked(r, Signed), Spawned(q, head)] + more
          && q == r && forall e :: e in more ==> e.Marked?;
        assert after[n] == Checked(r, Signed) && after[n + 1] == Spawned(q, head);
        assert forall k :: n + 2 <= k < |after| ==> after[k] == more[k - n - 2] && more[k - n - 2] in more;
      }
    }
  }
}
