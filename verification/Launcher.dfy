/**
 * The launcher in place (launcher/linux/stella-launcher.c:1087-1150,
 * 2336-2610, 2863-3078): the timer array and flags of the supervisor, the
 * checkout, and the main loop with its array of crash times.
 */
module Launcher {
  import opened Options
  import opened Repository
  import opened LauncherRun
  import S = Supervisor

  /** Electron and the supervisor's variables. `signed` is every tree signed so far. */
  class Supervision {
    const o: S.Config
    const timers: array<real>
    const spawnedHead: Option<int>
    var repo: Repo
    ghost var signed: set<int>
    var readyAt: real
    var failure: S.Failure
    var quitRequested: bool
    var quits: nat
    var announced: Option<int>
    var killAt: real
    var kills: seq<S.Kill>
    ghost var marks: nat
    var exit: Option<S.Exit>

    ghost predicate Valid() { timers.Length == S.TIMERS }

    ghost function Contents(): (s: S.State)
      requires Valid()
      reads this, timers
      ensures |s.timers| == S.TIMERS
    {
      S.State(repo, signed, spawnedHead, timers[..], readyAt, failure, quitRequested,
              quits, announced, killAt, kills, marks, exit)
    }

    constructor (repo: Repo, ghost signed: set<int>, spawnedHead: Option<int>, started: real, o: S.Config)
      ensures Valid() && fresh(timers) && this.o == o
      ensures Contents() == S.Start(repo, signed, spawnedHead, started, o)
    {
      this.o, this.spawnedHead, this.repo, this.signed := o, spawnedHead, repo, signed;
      timers := new real[S.TIMERS](_ => 0.0);
      readyAt, failure, quitRequested, quits := 0.0, S.Fine, false, 0;
      announced, killAt, kills, marks, exit := None, 0.0, [], 0, None;
      new;
      timers[S.READY_TIMEOUT] := started + o.readyTimeout;
      assert timers[..] == [started + o.readyTimeout, 0.0, 0.0, 0.0, 0.0];
    }

    method Terminate(at: real)
      requires Valid()
      modifies this`kills, this`killAt
      ensures Contents() == S.Terminated(old(Contents()), at)
    {
      kills := kills + [S.Terminate(at)];
      if killAt == 0.0 { killAt := at + 8.0; }
    }

    method HandleMessage(m: S.Message)
      requires Valid()
      modifies this, timers
      ensures Contents() == S.Handle(old(Contents()), m, o)
    {
      match m
      case Ready(at) =>
        if readyAt == 0.0 {
          readyAt := at;
          timers[S.STABLE] := at + o.stableSeconds;
          if o.selfTest {
            timers[S.SELF_TEST_QUIT] := at + if o.ui && o.capture then S.Max(o.hold, 4.0) else o.hold;
          }
        }
      case Sign(commit, calls) =>
        var ok;
        ok, repo, signed := AddSignature(repo, signed, o.key, commit, calls);
      case Exiting(at, code) =>
        announced := Some(code);
        timers[S.EXIT_GRACE] := at + 10.0;
      case Failed(at) =>
        if failure == S.Fine {
          failure := S.Reported;
          Terminate(at);
        }
      case Ignored =>
    }

    method AskToQuit(now: real)
      requires Valid()
      modifies this`quitRequested, this`quits, timers
      ensures Contents() == S.AskToQuit(old(Contents()), now)
    {
      quitRequested := true;
      quits := quits + 1;
      timers[S.QUIT_TIMEOUT] := now + 30.0;
    }

    method Fire(i: nat, p: S.Poll)
      requires Valid() && i < S.TIMERS
      modifies this, timers
      ensures Contents() == S.Fire(old(Contents()), i, p)
    {
      if timers[i] == 0.0 || p.now < timers[i] { return; }
      timers[i] := 0.0;
      if i == S.READY_TIMEOUT {
        if readyAt == 0.0 && failure == S.Fine {
          failure := S.TooSlow;
          Terminate(p.now);
        }
      } else if i == S.STABLE {
        if failure == S.Fine && spawnedHead.Some? && p.updateRef {
          repo := repo.(knownGood := spawnedHead);
          marks := marks + 1;
        }
      } else if i == S.SELF_TEST_QUIT {
        AskToQuit(p.now);
      } else if i == S.QUIT_TIMEOUT {
        if announced.None? { Terminate(p.now); }
      } else {
        Terminate(p.now);
      }
    }

    /** One turn of the event loop. */
    method Turn(p: S.Poll)
      requires Valid()
      modifies this, timers
      ensures Contents() == S.Turn(old(Contents()), p, o)
    {
      hide S.Handle, S.Fire;
      ghost var s0 := Contents();
      if p.change.Some? { repo := p.change.value; }
      ghost var s1 := Contents();
      var k := 0;
      while k < |p.messages|
        invariant 0 <= k <= |p.messages| && Contents() == S.HandleAll(s1, p.messages[..k], o)
      {
        HandleMessage(p.messages[k]);
        k := k + 1;
        assert p.messages[..k][..k - 1] == p.messages[..k - 1];
      }
      assert p.messages[..k] == p.messages;
      if p.shutdown && !quitRequested { AskToQuit(p.now); }
      ghost var s2 := Contents();
      assert s2 == S.Before(s0, p, o);
      var i := 0;
      while i < S.TIMERS
        invariant 0 <= i <= S.TIMERS && Contents() == S.FireFirst(s2, i, p)
      {
        Fire(i, p);
        i := i + 1;
      }
      if killAt != 0.0 && p.now > killAt {
        kills := kills + [S.ForceKill];
        killAt := 0.0;
      }
      exit := p.exit;
    }

    /** The outcome, once Electron is reaped. */
    method Outcome(finished: real) returns (r: S.Outcome)
      requires Valid() && exit.Some?
      ensures r == S.OutcomeOf(Contents(), finished, o)
    {
      var code := if exit.value.Exited? then exit.value.code else -1;
      var signaled := exit.value.Signaled?;
      if failure == S.Reported { return S.FailedWith(S.ProblemReported); }
      if failure == S.TooSlow { return S.FailedWith(S.NotReadyInTime); }
      if announced.Some? { code, signaled := announced.value, false; }
      if !signaled && code == S.RELAUNCH_EXIT_CODE { return S.Relaunch; }
      if quitRequested && !(!signaled && code == 0) { return S.FailedWith(S.UncleanQuit); }
      if !signaled && code == 0 {
        if readyAt == 0.0 && o.selfTest { return S.FailedWith(S.QuitBeforeReady); }
        return S.Quit;
      }
      if readyAt == 0.0 { return S.FailedWith(S.StoppedBeforeReady); }
      return S.Crashed(finished - readyAt);
    }
  }

  /** `sign_head`: HEAD, or nothing changed. */
  method AddSignature(r: Repo, ghost signed: set<int>, key: int, expected: Option<int>, c: SignCalls)
    returns (ok: bool, after: Repo, ghost signed': set<int>)
    ensures (Disk(Some(after), signed'), ok) == SignOnDisk(r, signed, key, expected, c)
  {
    after, signed' := r, signed;
    if !c.head || !HasHead(r) { return false, after, signed'; }
    var head := r.head.value;
    if expected.Some? && expected.value != head { return false, after, signed'; }
    if !c.status { return false, after, signed'; }
    if r.changed > 0 { return false, after, signed'; }
    if !c.tree || !c.sign { return false, after, signed'; }
    var note := Signature(key, HeadTree(r));
    if !c.addNote { return false, after, signed'; }
    after := r.(notes := r.notes[head := note]);
    return true, after, signed + {HeadTree(r)};
  }

  class Launcher {
    const l: Setup
    const crashTimes: array<real>
    var crashCount: nat
    var repo: Option<Repo>
    ghost var signed: set<int>
    var command: Command
    var failed: bool
    var recoveries: nat
    ghost var events: seq<Event>
    var ended: Ended

    ghost predicate Valid()
      reads this
    {
      crashTimes.Length == CRASH_SLOTS && crashCount <= CRASH_SLOTS
    }

    ghost function Contents(): Run
      requires Valid()
      reads this, crashTimes
    {
      Run(Disk(repo, signed), crashTimes[..crashCount], command, failed, recoveries, events, ended)
    }

    constructor (repo: Option<Repo>, ghost signed: set<int>, l: Setup)
      ensures Valid() && fresh(crashTimes) && this.l == l && Contents() == Begin(Disk(repo, signed), l)
    {
      this.l, this.repo, this.signed := l, repo, signed;
      crashTimes := new real[CRASH_SLOTS](_ => 0.0);
      crashCount, failed, recoveries, events, ended := 0, false, 0, [], Running;
      command := if l.config.ui && !l.start then CmdNone else CmdStart;
      if l.config.selfTest && l.config.ui { command := CmdStart; }
    }

    method Reinstall(c: ReinstallCalls) returns (ok: bool)
      requires Valid()
      modifies this`repo, this`signed
      ensures Valid() && (Contents().disk, ok) == Repository.Reinstall(old(Contents().disk), l.config.key, c)
      ensures Contents() == old(Contents()).(disk := Contents().disk)
    {
      if repo.Some? && !c.aside { return false; }
      repo := None;
      if c.clone.None? { return false; }
      var after;
      ok, after, signed := AddSignature(c.clone.value, signed, l.config.key, None, c.sign);
      repo := Some(after);
    }

    method ReturnToKnownGood(c: ReturnCalls) returns (ok: bool)
      requires Valid()
      modifies this`repo, this`signed
      ensures Valid() && (Contents().disk, ok) == Repository.ReturnToKnownGood(old(Contents().disk), l.config.key, c)
      ensures Contents() == old(Contents()).(disk := Contents().disk)
    {
      hide Repository.Reinstall, SignOnDisk;
      if repo.None? || !c.probe || !HasKnownGood(repo.value) {
        ok := Reinstall(c.reinstall);
        return;
      }
      var r := repo.value;
      if !c.status { return false; }
      if r.changed > 0 {
        if !c.stash { return false; }
        r := r.(changed := 0);
        repo := Some(r);
      }
      if !c.head || !c.knownTree || !c.headTree || !HasHead(r) { return false; }
      if KnownTree(r) != HeadTree(r) {
        if !c.commitTree { return false; }
        var made := CommitTree(r, c.commitId, Commit(KnownTree(r), [r.head.value]));
        if made.None? { return false; }
        r := made.value;
        repo := Some(r);
        if !c.merge { return false; }
        r := r.(head := Some(c.commitId));
        repo := Some(r);
      }
      var after;
      ok, after, signed := AddSignature(r, signed, l.config.key, None, c.sign);
      repo := Some(after);
    }

    /** `verify_head` */
    method Verify(r: Repo, c: VerifyCalls) returns (v: Verdict)
      ensures v == VerifyHead(r, l.config.key, c)
    {
      if !c.status { return Error; }
      if r.changed > 0 { return Dirty; }
      if !c.head || !c.tree || !HasHead(r) { return Error; }
      if !c.runNotes { return Error; }
      if !c.showNote || r.head.value !in r.notes { return Unsigned; }
      if r.notes[r.head.value] == Signature(l.config.key, HeadTree(r)) { return Signed; }
      return BadSignature;
    }

    method PrepareForLaunch(c: PrepareCalls) returns (ok: bool)
      requires Valid()
      modifies this`repo, this`signed, this`events
      ensures Valid()
      ensures var p := LauncherRun.PrepareForLaunch(old(Contents().disk), l.config.key, c);
              ok == (p.ok && p.disk.repo.Some?)
              && Contents() == old(Contents()).(disk := p.disk,
                   events := if p.verdict.Some? && p.disk.repo.Some?
                             then old(events) + [Checked(p.disk.repo.value, p.verdict.value)] else old(events))
    {
      hide SignOnDisk, VerifyHead;
      if !c.git || !c.signer { return false; }
      if repo.None? {
        if c.clone.None? { return false; }
        var signedIt, after;
        signedIt, after, signed := AddSignature(c.clone.value, signed, l.config.key, None, c.sign);
        repo := Some(after);
        if !signedIt { return false; }
      }
      var v := Verify(repo.value, c.verify);
      events := events + [Checked(repo.value, v)];
      if v != Signed { return false; }
      if !c.bun { return false; }
      return c.prepare;
    }

    method Recover(probe: bool)
      requires Valid()
      modifies this`failed, this`recoveries, this`command
      ensures Valid() && Contents() == LauncherRun.Recover(old(Contents()), probe, l)
    {
      failed := true;
      recoveries := recoveries + 1;
      if l.config.selfTest {
        if l.choice == NoChoice || recoveries > 1 { command := CmdQuit; return; }
        if l.choice == ChooseReturn {
          command := if repo.Some? && probe && HasKnownGood(repo.value) then CmdReturn else CmdReinstall;
        } else if l.choice == ChooseReinstall {
          command := CmdReinstall;
        } else if l.choice == ChooseRetry {
          command := CmdStart;
        } else {
          command := CmdQuit;
        }
      } else {
        command := if l.config.ui then CmdNone else CmdQuit;
      }
    }

    /** The early crashes still in the window move to the front, in order. */
    method DropOldCrashes(now: real, window: real) returns (kept: nat)
      requires Valid()
      modifies crashTimes
      ensures kept <= crashCount && crashTimes[..kept] == Recent(old(crashTimes[..crashCount]), now, window)
    {
      ghost var was := crashTimes[..crashCount];
      var i: nat := 0;
      kept := 0;
      while i < crashCount
        invariant 0 <= kept <= i <= crashCount == |was|
        invariant crashTimes[..kept] == Recent(was[..i], now, window)
        invariant forall k :: i <= k < crashCount ==> crashTimes[k] == was[k]
      {
        ghost var front := crashTimes[..kept];
        assert was[..i + 1][..i] == was[..i];
        if now - crashTimes[i] < window {
          crashTimes[kept] := crashTimes[i];
          kept := kept + 1;
          assert crashTimes[..kept] == front + [was[i]];
        }
        i := i + 1;
      }
      assert was[..i] == was;
    }

    method RecordCrash(since: real, now: real)
      requires Valid()
      modifies this`crashCount, crashTimes
      ensures Valid()
              && Contents()
                 == old(Contents()).(crashTimes := Recorded(old(Contents()).crashTimes, since, now, l.config))
    {
      hide Recent;
      if since >= l.config.stableSeconds { return; }
      var kept := DropOldCrashes(now, l.config.stableSeconds * 2.0);
      crashCount := kept;
      if crashCount < CRASH_SLOTS {
        ghost var front := crashTimes[..kept];
        crashTimes[crashCount] := now;
        crashCount := crashCount + 1;
        assert crashTimes[..crashCount] == front + [now];
      }
    }

    method AfterOutcome(outcome: S.Outcome, x: Round)
      requires Valid()
      modifies this, crashTimes
      ensures Valid() && Contents() == LauncherRun.AfterOutcome(old(Contents()), outcome, x, l)
    {
      hide Recorded, LauncherRun.Recover;
      match outcome
      case Quit => ended := Exit(0);
      case Relaunch => command := CmdStart;
      case FailedWith(_) => Recover(x.probe);
      case Crashed(since) =>
        RecordCrash(since, x.crashedAt);
        if crashCount >= 2 {
          crashCount := 0;
          assert crashTimes[..crashCount] == [];
          Recover(x.probe);
        } else {
          command := CmdStart;
        }
    }

    /** The event loop, until Electron is reaped or the turns run out. */
    method Watch(e: Supervision, polls: seq<S.Poll>, started: real)
      requires e.Valid() && e.exit.None?
      modifies e, e.timers, this`events
      ensures e.Contents() == S.Loop(old(e.Contents()), polls, e.o)
      ensures events == old(events) + Marks(old(e.Contents()), started, polls, e.o)
    {
      hide S.Turn;
      ghost var s0 := e.Contents();
      ghost var logged := events;
      var i := 0;
      assert polls[..0] == [];
      assert logged + [] == logged;
      while i < |polls| && e.exit.None?
        invariant 0 <= i <= |polls|
        invariant e.Contents() == S.Loop(s0, polls[..i], e.o)
        invariant events == logged + Marks(s0, started, polls[..i], e.o)
      {
        ghost var before := e.marks;
        assert polls[..i + 1][..i] == polls[..i];
        e.Turn(polls[i]);
        i := i + 1;
        ghost var m := if e.marks > before then [Marked(s0.spawnedHead, started, polls[..i])] else [];
        assert Marks(s0, started, polls[..i], e.o) == Marks(s0, started, polls[..i - 1], e.o) + m;
        events := events + m;
      }
      LoopStays(s0, started, polls, i, e.o);
    }

    method Supervise(x: Round)
      requires Valid() && repo.Some?
      modifies this, crashTimes
      ensures Valid() && Contents() == Supervised(old(Contents()), x, l)
    {
      hide LauncherRun.AfterOutcome, S.Turn, S.OutcomeOf, S.Loop, Marks;
      if x.meanwhile.Some? { repo := x.meanwhile; }
      var head := if x.headKnown then repo.value.head else None;
      if !x.spawns {
        AfterOutcome(S.FailedWith(S.NotSpawned), x);
        return;
      }
      var e := new Supervision(repo.value, signed, head, x.started, l.config);
      events := events + [Spawned(repo.value, head)];
      Watch(e, x.polls, x.started);
      repo, signed := Some(e.repo), e.signed;
      if e.exit.None? {
        ended := Supervising;
        return;
      }
      var outcome := e.Outcome(x.finished);
      AfterOutcome(outcome, x);
    }

    /** The loop of `launcher_run`, as far as the rounds go. */
    method RunLoop(rounds: seq<Round>)
      requires Valid() && Contents() == Begin(Disk(repo, signed), l)
      modifies this, crashTimes
      ensures Valid() && Contents() == RunAll(old(Contents().disk), rounds, l)
    {
      hide RunRound;
      ghost var d := Contents().disk;
      var i := 0;
      assert rounds[..0] == [];
      while i < |rounds|
        invariant 0 <= i <= |rounds| && Valid() && Contents() == RunAll(d, rounds[..i], l)
      {
        assert rounds[..i + 1][..i] == rounds[..i];
        RunOne(rounds[i]);
        i := i + 1;
      }
      assert rounds[..i] == rounds;
    }

    method RunOne(x: Round)
      requires Valid()
      modifies this, crashTimes
      ensures Valid() && Contents() == RunRound(old(Contents()), x, l)
    {
      hide Commanded, Launched;
      if ended != Running { return; }
      var chosen := command;
      if command == CmdNone {
        if x.outside.Some? { repo := x.outside; }
        chosen := x.window;
      }
      if chosen == CmdQuit {
        command := CmdQuit;
        ended := Exit(if failed then 1 else 0);
        return;
      }
      failed := false;
      Carry(chosen, x);
      command := CmdNone;
      Launch(x);
    }

    /** What the command itself does to the checkout; a failure is only logged. */
    method Carry(chosen: Command, x: Round)
      requires Valid()
      modifies this`repo, this`signed
      ensures Valid()
              && Contents() == old(Contents()).(disk := Commanded(old(Contents().disk), chosen, x, l.config.key))
    {
      hide Repository.ReturnToKnownGood, Repository.Reinstall;
      if chosen == CmdReturn {
        var ok := ReturnToKnownGood(x.ret);
      } else if chosen == CmdReinstall {
        var ok := Reinstall(x.reinstall);
      }
    }

    method Launch(x: Round)
      requires Valid()
      modifies this, crashTimes
      ensures Valid() && Contents() == Launched(old(Contents()), x, l)
    {
      hide LauncherRun.PrepareForLaunch, Supervised, LauncherRun.Recover;
      var ready := PrepareForLaunch(x.prepare);
      if ready {
        Supervise(x);
      } else {
        Recover(x.probe);
      }
    }
  }

  /** Past the exit the remaining turns change nothing. */
  lemma {:induction false} LoopStays(s0: S.State, started: real, polls: seq<S.Poll>, i: nat, o: S.Config)
    requires |s0.timers| == S.TIMERS && i <= |polls|
    requires i == |polls| || S.Loop(s0, polls[..i], o).exit.Some?
    ensures S.Loop(s0, polls, o) == S.Loop(s0, polls[..i], o)
            && Marks(s0, started, polls, o) == Marks(s0, started, polls[..i], o)
    decreases |polls| - i
  {
    hide S.Turn;
    if i == |polls| {
      assert polls[..i] == polls;
    } else {
      assert polls[..i + 1][..i] == polls[..i];
      LoopStays(s0, started, polls, i + 1, o);
      assert Marks(s0, started, polls[..i], o) + [] == Marks(s0, started, polls[..i], o);
    }
  }
}
