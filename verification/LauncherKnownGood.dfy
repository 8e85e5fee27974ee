/** Where the known-good ref comes from, over the rounds of the launcher. */
module LauncherKnownGood {
  import opened Options
  import opened Repository
  import opened LauncherRun
  import opened LauncherSigning
  import S = Supervisor
  import H = SupervisorHistory

  ghost predicate RefOf(r: Option<Repo>, ref: Option<int>) { r.Some? && r.value.knownGood == ref }

  /** A ref that some checkout entering the round has: the one found, a clone, or one Electron or an install left. */
  ghost predicate Enters(run: Run, x: Round, ref: Option<int>) {
    RefOf(DiskAt(run, x).repo, ref) || RefOf(x.reinstall.clone, ref) || RefOf(x.ret.reinstall.clone, ref)
    || RefOf(x.prepare.clone, ref) || RefOf(x.meanwhile, ref) || exists p :: p in x.polls && RefOf(p.change, ref)
  }

  /** Rolling back leaves the ref alone, unless there is none to roll back to and a clone brings its own. */
  lemma {:induction false} CommandedRef(d: Disk, command: Command, x: Round, key: int)
    ensures var after := Commanded(d, command, x, key).repo;
            after.Some? ==> RefOf(d.repo, after.value.knownGood) || RefOf(x.reinstall.clone, after.value.knownGood)
                            || RefOf(x.ret.reinstall.clone, after.value.knownGood)
  {
  }

  lemma {:induction false} PreparedRef(d: Disk, key: int, c: PrepareCalls)
    ensures var after := PrepareForLaunch(d, key, c).disk.repo;
            after.Some? ==> RefOf(d.repo, after.value.knownGood) || RefOf(c.clone, after.value.knownGood)
  {
    hide VerifyHead;
  }

  /** A supervised run leaves the ref where its own history puts it, and nothing after it moves the ref. */
  lemma {:induction false} SupervisedRef(run: Run, x: Round, l: Setup)
    requires run.disk.repo.Some? && Timely(x, l.config)
    ensures var repo := if x.meanwhile.Some? then x.meanwhile.value else run.disk.repo.value;
            var head := if x.headKnown then repo.head else None;
            var after := Supervised(run, x, l).disk.repo;
            RefOf(after, if x.spawns then H.RefAfter(repo.knownGood, x.polls, head, x.started, l.config)
                  else repo.knownGood)
  {
    hide S.Loop, S.OutcomeOf, Marks, AfterOutcome, S.Positive, H.RefAfter;
    var repo := if x.meanwhile.Some? then x.meanwhile.value else run.disk.repo.value;
    var head := if x.headKnown then repo.head else None;
    H.RefFollowsHistory(repo, run.disk.signed, x.polls, head, x.started, l.config);
    forall r: Run, outcome ensures AfterOutcome(r, outcome, x, l).disk == r.disk { OutcomeFrame(r, outcome, x, l); }
  }

  /** What the history can put there: the ref at the start, one Electron left, or the head of a mark it earned. */
  lemma {:induction false} RefSources(ref: Option<int>, polls: seq<S.Poll>, head: Option<int>,
                                      started: real, o: S.Config)
    ensures var after := H.RefAfter(ref, polls, head, started, o);
            after == ref || (exists p :: p in polls && RefOf(p.change, after))
            || (after == head && exists n :: 0 <= n <= |polls| && S.Earned(polls[..n], head, started, o))
    decreases |polls|
  {
    hide S.Earned, H.StillRuns;
    if polls != [] {
      var n := |polls| - 1;
      RefSources(ref, polls[..n], head, started, o);
      assert polls[..|polls|] == polls;
      assert forall m :: 0 <= m <= n ==> polls[..n][..m] == polls[..m];
      assert polls[n] in polls && forall p :: p in polls[..n] ==> p in polls;
    }
  }

  /** A mark of the known-good ref at `ref`, logged and earned. */
  ghost predicate MarksRef(e: Event, ref: Option<int>, o: S.Config) {
    e.Marked? && e.head == ref && S.Earned(e.polls, e.head, e.started, o)
  }

  lemma {:induction false} SupervisedSource(run: Run, x: Round, l: Setup)
    requires run.disk.repo.Some? && Timely(x, l.config)
    ensures var after := Supervised(run, x, l);
            after.disk.repo.Some? && |run.events| <= |after.events|
            && var ref := after.disk.repo.value.knownGood;
               RefOf(run.disk.repo, ref) || RefOf(x.meanwhile, ref)
                 || (exists p :: p in x.polls && RefOf(p.change, ref))
               || exists i :: |run.events| <= i < |after.events| && MarksRef(after.events[i], ref, l.config)
  {
    hide S.Loop, S.Earned, S.OutcomeOf, Marks, AfterOutcome, S.Positive, H.RefAfter, Supervised, MarksRef, Timely;
    var o := l.config;
    var repo := if x.meanwhile.Some? then x.meanwhile.value else run.disk.repo.value;
    var head := if x.headKnown then repo.head else None;
    SupervisedRef(run, x, l);
    SupervisedLogs(run, x, l);
    if x.spawns {
      RefSources(repo.knownGood, x.polls, head, x.started, o);
      if n: nat :| n <= |x.polls| && S.Earned(x.polls[..n], head, x.started, o) { EarnedIsLogged(run, x, l, n); }
    }
  }

  lemma {:induction false} EarnedIsLogged(run: Run, x: Round, l: Setup, n: nat)
    requires run.disk.repo.Some? && Timely(x, l.config) && x.spawns && n <= |x.polls|
    requires var repo := if x.meanwhile.Some? then x.meanwhile.value else run.disk.repo.value;
             S.Earned(x.polls[..n], if x.headKnown then repo.head else None, x.started, l.config)
    ensures var repo := if x.meanwhile.Some? then x.meanwhile.value else run.disk.repo.value;
            var after := Supervised(run, x, l);
            exists i :: |run.events| <= i < |after.events|
                        && MarksRef(after.events[i], if x.headKnown then repo.head else None, l.config)
  {
    hide S.Loop, S.Earned, Marks, S.Positive, Supervised;
    var repo := if x.meanwhile.Some? then x.meanwhile.value else run.disk.repo.value;
    var head := if x.headKnown then repo.head else None;
    SupervisedLogs(run, x, l);
    MarksAreEarned(repo, run.disk.signed, head, x.started, x.polls, l.config);
    var m := Marks(SpawnStart(repo, run.disk.signed, x, l.config), x.started, x.polls, l.config);
    var i :| 0 <= i < |m| && m[i] == Marked(head, x.started, x.polls[..n]);
    var after := Supervised(run, x, l);
    assert after.events[|run.events| + 1 + i] == m[i];
    assert MarksRef(after.events[|run.events| + 1 + i], head, l.config);
  }

  /**
   * At the end of a round the known-good ref is one that entered the checkout,
   * or the head of a mark that the round logged and its turns had earned.
   */
  lemma {:induction false} RoundRef(run: Run, x: Round, l: Setup)
    requires run.ended == Running && CommandOf(run, x) != CmdQuit && Timely(x, l.config)
    ensures var after := RunRound(run, x, l);
            after.disk.repo.Some? ==>
              var ref := after.disk.repo.value.knownGood;
              Enters(run, x, ref)
              || exists i :: |run.events| <= i < |after.events| && MarksRef(after.events[i], ref, l.config)
  {
    hide Supervised, Commanded, PrepareForLaunch, MarksRef, DiskAt, Timely;
    var d := DiskAt(run, x);
    var c := Commanded(d, CommandOf(run, x), x, l.config.key);
    var p := PrepareForLaunch(c, l.config.key, x.prepare);
    CommandedRef(d, CommandOf(run, x), x, l.config.key);
    PreparedRef(c, l.config.key, x.prepare);
    SameDisk(run, x);
    if p.ok && p.disk.repo.Some? {
      var r1 := run.(disk := p.disk, command := CmdNone, failed := false);
      var r2 := if p.verdict.Some? then r1.(events := r1.events + [Checked(p.disk.repo.value, p.verdict.value)])
        else r1;
      SupervisedSource(r2, x, l);
    }
  }

  lemma {:induction false} SameDisk(run: Run, x: Round)
    ensures DiskAt(run, x) == if run.command == CmdNone && x.outside.Some? then Disk(x.outside, run.disk.signed)
            else run.disk
  {
  }

  /** A ref that comes with a round: by the user or Electron changing the checkout, or by a clone. */
  ghost predicate Brings(x: Round, ref: Option<int>) {
    RefOf(x.outside, ref) || RefOf(x.reinstall.clone, ref) || RefOf(x.ret.reinstall.clone, ref)
    || RefOf(x.prepare.clone, ref) || RefOf(x.meanwhile, ref) || exists p :: p in x.polls && RefOf(p.change, ref)
  }

  ghost predicate Sourced(d: Disk, rounds: seq<Round>, run: Run, ref: Option<int>, o: S.Config) {
    RefOf(d.repo, ref) || (exists k :: 0 <= k < |rounds| && Brings(rounds[k], ref))
    || exists i :: 0 <= i < |run.events| && MarksRef(run.events[i], ref, o)
  }

  /**
   * Over every run the known-good ref is the one there was at the start, one
   * that came with a round, or the head of a mark that was logged and earned:
   * the launcher itself moves it in no other way.
   */
  lemma {:induction false} RunRef(d: Disk, rounds: seq<Round>, l: Setup)
    requires forall i :: 0 <= i < |rounds| ==> Timely(rounds[i], l.config)
    ensures var run := RunAll(d, rounds, l);
            run.disk.repo.Some? ==> Sourced(d, rounds, run, run.disk.repo.value.knownGood, l.config)
    decreases |rounds|
  {
    hide Timely, MarksRef, Brings, RunRound;
    if rounds != [] {
      var n := |rounds| - 1;
      var before, x := rounds[..n], rounds[n];
      RunRef(d, before, l);
      var run := RunAll(d, before, l);
      assert forall k :: 0 <= k < n ==> before[k] == rounds[k];
      RoundSource(run, x, l);
    }
  }

  lemma {:induction false} RoundSource(run: Run, x: Round, l: Setup)
    requires Timely(x, l.config)
    ensures var after := RunRound(run, x, l);
            |run.events| <= |after.events| && (forall i :: 0 <= i < |run.events| ==> after.events[i] == run.events[i])
            && (after.disk.repo.Some? ==>
                  var ref := after.disk.repo.value.knownGood;
                  RefOf(run.disk.repo, ref) || Brings(x, ref)
                  || exists i :: 0 <= i < |after.events| && MarksRef(after.events[i], ref, l.config))
  {
    hide Timely, MarksRef, Launched, Commanded, Logs;
    RoundLogs(run, x, l);
    LogsGrow(run.events, RunRound(run, x, l).events, x.meanwhile.None?);
    if run.ended == Running && CommandOf(run, x) != CmdQuit { RoundRef(run, x, l); }
  }

  lemma {:induction false} LogsGrow(before: seq<Event>, after: seq<Event>, quiet: bool)
    requires Logs(before, after, quiet)
    ensures |before| <= |after| && forall i :: 0 <= i < |before| ==> after[i] == before[i]
  {
  }
}
