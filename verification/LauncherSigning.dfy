/**
 * Over whole runs of the launcher: no tree runs that the launcher did not
 * sign, whatever Electron and the user do to the checkout short of forging a
 * signature; and a rollback that works is what runs next.
 */
module LauncherSigning {
  import opened Options
  import opened Repository
  import opened LauncherRun
  import S = Supervisor

  /** Whatever Electron did to the checkout, it forged no signature. */
  ghost predicate HonestPolls(s: S.State, polls: seq<S.Poll>, o: S.Config)
    requires |s.timers| == S.TIMERS
  {
    forall j: nat :: j < |polls| && polls[j].change.Some? ==>
      Unforged(polls[j].change.value, o.key, S.Loop(s, polls[..j], o).signed)
  }

  lemma {:induction false} MessagesSign(s: S.State, messages: seq<S.Message>, o: S.Config)
    requires |s.timers| == S.TIMERS && Unforged(s.repo, o.key, s.signed)
    ensures var s' := S.HandleAll(s, messages, o); Unforged(s'.repo, o.key, s'.signed) && s.signed <= s'.signed
    decreases |messages|
  {
    if messages != [] {
      hide SignOnDisk, Unforged, S.Max, S.Terminated;
      var n := |messages| - 1;
      MessagesSign(s, messages[..n], o);
      var s1, m := S.HandleAll(s, messages[..n], o), messages[n];
      if m.Sign? { SignKeepsUnforged(s1.repo, s1.signed, o.key, m.commit, m.calls); }
    }
  }

  lemma {:induction false} TimersKeepNotes(s: S.State, n: nat, p: S.Poll)
    requires |s.timers| == S.TIMERS && n <= S.TIMERS
    ensures S.FireFirst(s, n, p).repo.notes == s.repo.notes && S.FireFirst(s, n, p).signed == s.signed
    decreases n
  {
    if n > 0 { TimersKeepNotes(s, n - 1, p); }
  }

  lemma {:induction false} TurnSigns(s: S.State, p: S.Poll, o: S.Config)
    requires |s.timers| == S.TIMERS && Unforged(s.repo, o.key, s.signed)
    requires p.change.Some? ==> Unforged(p.change.value, o.key, s.signed)
    ensures var s' := S.Turn(s, p, o); Unforged(s'.repo, o.key, s'.signed) && s.signed <= s'.signed
  {
    hide S.HandleAll, S.FireFirst;
    MessagesSign(if p.change.Some? then s.(repo := p.change.value) else s, p.messages, o);
    TimersKeepNotes(S.Before(s, p, o), S.TIMERS, p);
  }

  lemma {:induction false} LoopSigns(s: S.State, polls: seq<S.Poll>, o: S.Config)
    requires |s.timers| == S.TIMERS && Unforged(s.repo, o.key, s.signed) && HonestPolls(s, polls, o)
    ensures var s' := S.Loop(s, polls, o); Unforged(s'.repo, o.key, s'.signed) && s.signed <= s'.signed
    decreases |polls|
  {
    if polls != [] {
      hide S.Turn, Unforged;
      var n := |polls| - 1;
      assert forall j :: 0 <= j <= n ==> polls[..n][..j] == polls[..j];
      LoopSigns(s, polls[..n], o);
      TurnSigns(S.Loop(s, polls[..n], o), polls[n], o);
    }
  }

  function CommandOf(run: Run, x: Round): Command { if run.command == CmdNone then x.window else run.command }

  function DiskAt(run: Run, x: Round): Disk {
    if run.command == CmdNone && x.outside.Some? then Disk(x.outside, run.disk.signed) else run.disk
  }

  /** The disk once the command and the installation are done. */
  function PreparedDisk(run: Run, x: Round, l: Setup): Disk {
    PrepareForLaunch(Commanded(DiskAt(run, x), CommandOf(run, x), x, l.config.key), l.config.key, x.prepare).disk
  }

  ghost predicate NoForgery(r: Option<Repo>, key: int, signed: set<int>) { r.Some? ==> Unforged(r.value, key, signed) }

  /** Nothing that enters the checkout in a round carries a forged signature. */
  ghost predicate HonestRound(run: Run, x: Round, l: Setup) {
    NoForgery(x.outside, l.config.key, run.disk.signed)
    && NoForgery(x.reinstall.clone, l.config.key, run.disk.signed)
    && NoForgery(x.ret.reinstall.clone, l.config.key, run.disk.signed)
    && NoForgery(x.prepare.clone, l.config.key, Commanded(DiskAt(run, x), CommandOf(run, x), x, l.config.key).signed)
    && x.meanwhile.None?
    && var d := PreparedDisk(run, x, l);
       d.repo.Some? ==> HonestPolls(SpawnStart(d.repo.value, d.signed, x, l.config), x.polls, l.config)
  }

  ghost predicate Honest(d: Disk, rounds: seq<Round>, l: Setup) {
    forall i: nat :: i < |rounds| ==> HonestRound(RunAll(d, rounds[..i], l), rounds[i], l)
  }

  ghost predicate SignedSpawns(events: seq<Event>, signed: set<int>) {
    forall e :: e in events && e.Spawned? ==> HasHead(e.repo) && HeadTree(e.repo) in signed
  }

  lemma {:induction false} OutcomeFrame(run: Run, outcome: S.Outcome, x: Round, l: Setup)
    ensures AfterOutcome(run, outcome, x, l).disk == run.disk && AfterOutcome(run, outcome, x, l).events == run.events
  {
    hide Recorded;
  }

  lemma {:induction false} CommandedHonest(d: Disk, command: Command, x: Round, key: int)
    requires DiskUnforged(d, key) && NoForgery(x.reinstall.clone, key, d.signed)
             && NoForgery(x.ret.reinstall.clone, key, d.signed)
    ensures DiskUnforged(Commanded(d, command, x, key), key) && d.signed <= Commanded(d, command, x, key).signed
  {
    hide Unforged, ReturnToKnownGood, Reinstall;
    if command == CmdReturn { ReturnKeepsUnforged(d, key, x.ret); }
    if command == CmdReinstall { ReinstallKeepsUnforged(d, key, x.reinstall); }
  }

  lemma {:induction false} PreparedHonest(d: Disk, key: int, c: PrepareCalls)
    requires DiskUnforged(d, key) && NoForgery(c.clone, key, d.signed)
    ensures var p := PrepareForLaunch(d, key, c);
            DiskUnforged(p.disk, key) && d.signed <= p.disk.signed
            && (p.ok ==>
                  p.disk.repo.Some? && p.verdict == Some(Signed) && HasHead(p.disk.repo.value)
                  && HeadTree(p.disk.repo.value) in p.disk.signed)
  {
    hide Unforged, SignOnDisk, VerifyHead;
    if d.repo.None? && c.clone.Some? { SignKeepsUnforged(c.clone.value, d.signed, key, None, c.sign); }
    var p := PrepareForLaunch(d, key, c);
    if p.ok {
      VerifyIffTrusted(p.disk.repo.value, key, c.verify);
      TrustedWasSigned(p.disk.repo.value, key, p.disk.signed);
    }
  }

  lemma {:induction false} SupervisedHonest(run: Run, x: Round, l: Setup)
    requires run.disk.repo.Some? && x.meanwhile.None?
    requires Unforged(run.disk.repo.value, l.config.key, run.disk.signed)
    requires HasHead(run.disk.repo.value) && HeadTree(run.disk.repo.value) in run.disk.signed
    requires SignedSpawns(run.events, run.disk.signed)
    requires HonestPolls(SpawnStart(run.disk.repo.value, run.disk.signed, x, l.config), x.polls, l.config)
    ensures var after := Supervised(run, x, l);
            DiskUnforged(after.disk, l.config.key) && SignedSpawns(after.events, after.disk.signed)
              && run.disk.signed <= after.disk.signed
  {
    hide S.Loop, S.OutcomeOf, Marks, AfterOutcome, Unforged, HonestPolls;
    var s0 := SpawnStart(run.disk.repo.value, run.disk.signed, x, l.config);
    LoopSigns(s0, x.polls, l.config);
    MarksOnly(s0, x.started, x.polls, l.config);
    forall r: Run, outcome
      ensures AfterOutcome(r, outcome, x, l).disk == r.disk && AfterOutcome(r, outcome, x, l).events == r.events
    {
      OutcomeFrame(r, outcome, x, l);
    }
  }

  lemma {:induction false} RoundHonest(run: Run, x: Round, l: Setup)
    requires DiskUnforged(run.disk, l.config.key) && SignedSpawns(run.events, run.disk.signed) && HonestRound(run, x, l)
    ensures var after := RunRound(run, x, l);
            DiskUnforged(after.disk, l.config.key) && SignedSpawns(after.events, after.disk.signed)
  {
    hide Unforged, Supervised, Commanded, PrepareForLaunch, HonestPolls, HasHead, HeadTree;
    var d := DiskAt(run, x);
    var c := Commanded(d, CommandOf(run, x), x, l.config.key);
    CommandedHonest(d, CommandOf(run, x), x, l.config.key);
    PreparedHonest(c, l.config.key, x.prepare);
    if run.ended == Running && CommandOf(run, x) != CmdQuit {
      var p := PrepareForLaunch(c, l.config.key, x.prepare);
      LaunchedHonest(run.(disk := c, command := CmdNone, failed := false), x, l);
    }
  }

  lemma {:induction false} LaunchedHonest(run: Run, x: Round, l: Setup)
    requires var p := PrepareForLaunch(run.disk, l.config.key, x.prepare);
             DiskUnforged(p.disk, l.config.key) && run.disk.signed <= p.disk.signed
               && SignedSpawns(run.events, run.disk.signed)
             && (p.ok ==>
                   p.disk.repo.Some? && p.verdict == Some(Signed) && HasHead(p.disk.repo.value)
                   && HeadTree(p.disk.repo.value) in p.disk.signed)
             && x.meanwhile.None?
             && (p.disk.repo.Some?
                 ==> HonestPolls(SpawnStart(p.disk.repo.value, p.disk.signed, x, l.config), x.polls, l.config))
    ensures var after := Launched(run, x, l);
            DiskUnforged(after.disk, l.config.key) && SignedSpawns(after.events, after.disk.signed)
  {
    hide Unforged, Supervised, PrepareForLaunch, HonestPolls;
    var p := PrepareForLaunch(run.disk, l.config.key, x.prepare);
    if p.ok {
      SupervisedHonest(run.(disk := p.disk, events := run.events + [Checked(p.disk.repo.value, Signed)]), x, l);
    }
  }

  /** Every tree that ever ran was signed by the launcher first. */
  lemma {:induction false} OnlySignedTreesRun(d: Disk, rounds: seq<Round>, l: Setup)
    requires DiskUnforged(d, l.config.key) && Honest(d, rounds, l)
    ensures var run := RunAll(d, rounds, l);
            DiskUnforged(run.disk, l.config.key) && SignedSpawns(run.events, run.disk.signed)
    decreases |rounds|
  {
    if rounds != [] {
      hide HonestRound, DiskUnforged, SignedSpawns, RunRound;
      var n := |rounds| - 1;
      assert forall i :: 0 <= i <= n ==> rounds[..n][..i] == rounds[..i];
      OnlySignedTreesRun(d, rounds[..n], l);
      RoundHonest(RunAll(d, rounds[..n], l), rounds[n], l);
    }
  }

  /**
   * A rollback whose commands work makes the known-good tree the one that is
   * checked next, found signed, and spawned.
   */
  lemma {:induction false} RollbackRuns(run: Run, x: Round, l: Setup)
    requires run.ended == Running && CommandOf(run, x) == CmdReturn
    requires var d := DiskAt(run, x);
             d.repo.Some? && HasHead(d.repo.value) && HasKnownGood(d.repo.value) && x.ret.probe
             && ReturnToKnownGood(d, l.config.key, x.ret).1
    requires x.prepare.git && x.prepare.signer && AllWork(x.prepare.verify) && x.prepare.bun && x.prepare.prepare
    requires x.meanwhile.None? && x.spawns
    ensures var d := DiskAt(run, x); var after := RunRound(run, x, l);
            exists r, head, more :: after.events == run.events + [Checked(r, Signed), Spawned(r, head)] + more
              && HasHead(r) && HeadTree(r) == KnownTree(d.repo.value) && Trusted(r, l.config.key)
              && Reaches(r, r.head.value, d.repo.value.head.value)
  {
    hide ReturnToKnownGood, Supervised, VerifyHead, Reaches, Keeps, Marks;
    var d := DiskAt(run, x);
    ReturnGoesForward(d, l.config.key, x.ret);
    var r := ReturnToKnownGood(d, l.config.key, x.ret).0.repo.value;
    VerifyIffTrusted(r, l.config.key, x.prepare.verify);
    var disk := ReturnToKnownGood(d, l.config.key, x.ret).0;
    var ready := run.(disk := disk, command := CmdNone, failed := false, events := run.events + [Checked(r, Signed)]);
    SupervisedLogs(ready, x, l);
    var s0 := SpawnStart(r, disk.signed, x, l.config);
    var more := Marks(s0, x.started, x.polls, l.config);
    assert RunRound(run, x, l).events == run.events + [Checked(r, Signed), Spawned(r, s0.spawnedHead)] + more;
  }
}
