/**
 * The supervisor's event loop (launcher/linux/stella-launcher.c:2336-2536) as
 * functions: one `Poll` is one turn of the loop, with everything it read.
 */
module Supervisor {
  import opened Options
  import opened Repository

  const READY_TIMEOUT := 0
  const STABLE := 1
  const SELF_TEST_QUIT := 2
  const QUIT_TIMEOUT := 3
  const EXIT_GRACE := 4
  const TIMERS := 5
  const RELAUNCH_EXIT_CODE := 75

  datatype Config = Config(key: int, readyTimeout: real, stableSeconds: real, hold: real,
                           selfTest: bool, ui: bool, capture: bool)

  /** A channel message; `at` is the clock its handler reads. */
  datatype Message =
    | Ready(at: real)
    | Sign(commit: Option<int>, calls: SignCalls)
    | Exiting(at: real, code: int)
    | Failed(at: real)
    | Ignored

  datatype Exit = Exited(code: int) | Signaled(signal: int)

  /**
   * `change`: what Electron did to the checkout since the last turn;
   * `updateRef`: whether moving the known-good ref would work now;
   * `exit`: what `waitpid` found at the end of the turn.
   */
  datatype Poll = Poll(change: Option<Repo>, messages: seq<Message>, shutdown: bool,
                       now: real, updateRef: bool, exit: Option<Exit>)

  datatype Failure = Fine | Reported | TooSlow
  /** A signal sent to Electron; `at` is the clock when it was told to terminate. */
  datatype Kill = Terminate(at: real) | ForceKill

  datatype State = State(
    repo: Repo, signed: set<int>, spawnedHead: Option<int>, timers: seq<real>, readyAt: real, failure: Failure,
    quitRequested: bool, quits: nat, announced: Option<int>, killAt: real, kills: seq<Kill>,
    marks: nat, exit: Option<Exit>)

  function Start(repo: Repo, signed: set<int>, spawnedHead: Option<int>, started: real, o: Config): State {
    State(repo, signed, spawnedHead, [started + o.readyTimeout, 0.0, 0.0, 0.0, 0.0],
          0.0, Fine, false, 0, None, 0.0, [], 0, None)
  }

  function Terminated(s: State, at: real): State {
    s.(kills := s.kills + [Terminate(at)], killAt := if s.killAt == 0.0 then at + 8.0 else s.killAt)
  }

  function Max(a: real, b: real): real { if a > b then a else b }

  function Handle(s: State, m: Message, o: Config): State
    requires |s.timers| == TIMERS
  {
    if m.Ready? then
      if s.readyAt != 0.0 then s
      else
        var s1 := s.(readyAt := m.at, timers := s.timers[STABLE := m.at + o.stableSeconds]);
        if o.selfTest then
          s1.(timers := s1.timers[SELF_TEST_QUIT := m.at + if o.ui && o.capture then Max(o.hold, 4.0) else o.hold])
        else s1
    else if m.Sign? then
      var d := SignOnDisk(s.repo, s.signed, o.key, m.commit, m.calls).0;
      if d.repo.Some? then s.(repo := d.repo.value, signed := d.signed) else s
    else if m.Exiting? then
      s.(announced := Some(m.code), timers := s.timers[EXIT_GRACE := m.at + 10.0])
    else if m.Failed? && s.failure == Fine then
      Terminated(s.(failure := Reported), m.at)
    else s
  }

  function HandleAll(s: State, messages: seq<Message>, o: Config): (s': State)
    requires |s.timers| == TIMERS
    ensures |s'.timers| == TIMERS
  {
    if messages == [] then s
    else Handle(HandleAll(s, messages[..|messages| - 1], o), messages[|messages| - 1], o)
  }

  function AskToQuit(s: State, now: real): State
    requires |s.timers| == TIMERS
  {
    s.(quitRequested := true, quits := s.quits + 1, timers := s.timers[QUIT_TIMEOUT := now + 30.0])
  }

  function Fire(s: State, i: nat, p: Poll): State
    requires |s.timers| == TIMERS && i < TIMERS
  {
    if s.timers[i] == 0.0 || p.now < s.timers[i] then s
    else
      var s := s.(timers := s.timers[i := 0.0]);
      if i == READY_TIMEOUT then
        if s.readyAt == 0.0 && s.failure == Fine then Terminated(s.(failure := TooSlow), p.now) else s
      else if i == STABLE then
        if s.failure == Fine && s.spawnedHead.Some? && p.updateRef then
          s.(repo := s.repo.(knownGood := s.spawnedHead), marks := s.marks + 1)
        else s
      else if i == SELF_TEST_QUIT then AskToQuit(s, p.now)
      else if i == QUIT_TIMEOUT then
        if s.announced.None? then Terminated(s, p.now) else s
      else Terminated(s, p.now)
  }

  function FireFirst(s: State, n: nat, p: Poll): (s': State)
    requires |s.timers| == TIMERS && n <= TIMERS
    ensures |s'.timers| == TIMERS
  {
    if n == 0 then s else Fire(FireFirst(s, n - 1, p), n - 1, p)
  }

  /** The part of a turn before the timers. */
  function Before(s: State, p: Poll, o: Config): (s': State)
    requires |s.timers| == TIMERS
    ensures |s'.timers| == TIMERS
  {
    var s1 := HandleAll(if p.change.Some? then s.(repo := p.change.value) else s, p.messages, o);
    if p.shutdown && !s1.quitRequested then AskToQuit(s1, p.now) else s1
  }

  /** The part after them: the kill deadline, then the exit. */
  function After(s: State, p: Poll): State {
    var s1 := if s.killAt != 0.0 && p.now > s.killAt then s.(kills := s.kills + [ForceKill], killAt := 0.0) else s;
    s1.(exit := p.exit)
  }

  function Turn(s: State, p: Poll, o: Config): (s': State)
    requires |s.timers| == TIMERS
    ensures |s'.timers| == TIMERS
  {
    After(FireFirst(Before(s, p, o), TIMERS, p), p)
  }

  /** The loop, up to the exit or as far as the polls go. */
  function Loop(s: State, polls: seq<Poll>, o: Config): (s': State)
    requires |s.timers| == TIMERS
    ensures |s'.timers| == TIMERS
  {
    if polls == [] then s
    else
      var s' := Loop(s, polls[..|polls| - 1], o);
      if s'.exit.Some? then s' else Turn(s', polls[|polls| - 1], o)
  }

  datatype Reason = ProblemReported | NotReadyInTime | UncleanQuit | QuitBeforeReady | StoppedBeforeReady | NotSpawned
  datatype Outcome = Quit | Relaunch | Crashed(sinceReady: real) | FailedWith(reason: Reason)

  /** The exit code that counts: the announced one if there was one. */
  function Code(s: State): Option<int> {
    if s.announced.Some? then s.announced
    else if s.exit.Some? && s.exit.value.Exited? then Some(s.exit.value.code) else None
  }

  function OutcomeOf(s: State, finished: real, o: Config): Outcome {
    if s.failure == Reported then FailedWith(ProblemReported)
    else if s.failure == TooSlow then FailedWith(NotReadyInTime)
    else if Code(s) == Some(RELAUNCH_EXIT_CODE) then Relaunch
    else if s.quitRequested && Code(s) != Some(0) then FailedWith(UncleanQuit)
    else if Code(s) == Some(0) then if s.readyAt == 0.0 && o.selfTest then FailedWith(QuitBeforeReady) else Quit
    else if s.readyAt == 0.0 then FailedWith(StoppedBeforeReady)
    else Crashed(finished - s.readyAt)
  }

  // ------------------------------------------- what the history says, independently

  function FirstReadyIn(messages: seq<Message>): Option<real> {
    if messages == [] then None
    else
      var r := FirstReadyIn(messages[..|messages| - 1]);
      var m := messages[|messages| - 1];
      if r.Some? then r else if m.Ready? then Some(m.at) else None
  }

  /** When Electron first reported ready. */
  function FirstReady(polls: seq<Poll>): Option<real> {
    if polls == [] then None
    else
      var r := FirstReady(polls[..|polls| - 1]);
      if r.Some? then r else FirstReadyIn(polls[|polls| - 1].messages)
  }

  ghost predicate SaysFailed(polls: seq<Poll>) {
    exists j, k :: 0 <= j < |polls| && 0 <= k < |polls[j].messages| && polls[j].messages[k].Failed?
  }

  /** The startup deadline passed with no ready by then. */
  ghost predicate Slow(polls: seq<Poll>, deadline: real) {
    exists j :: 0 <= j < |polls| && polls[j].now >= deadline && FirstReady(polls[..j + 1]).None?
  }

  ghost predicate StableAt(polls: seq<Poll>, j: nat, o: Config)
    requires j < |polls|
  {
    var r := FirstReady(polls[..j + 1]);
    r.Some? && polls[j].now >= r.value + o.stableSeconds
  }

  ghost predicate WasStable(polls: seq<Poll>, o: Config) {
    exists j: nat :: j < |polls| && StableAt(polls, j, o)
  }

  /** The known-good ref is moved in the last of these turns. */
  ghost predicate Earned(polls: seq<Poll>, spawnedHead: Option<int>, started: real, o: Config) {
    polls != [] && spawnedHead.Some? && polls[|polls| - 1].updateRef
    && (forall j :: 0 <= j < |polls| - 1 ==> polls[j].exit.None?)
    && StableAt(polls, |polls| - 1, o) && !WasStable(polls[..|polls| - 1], o)
    && !SaysFailed(polls) && !Slow(polls, started + o.readyTimeout)
  }

  /** Clocks and timeouts are positive, so no deadline is taken for the zero that means "off". */
  ghost predicate Positive(polls: seq<Poll>, started: real, o: Config) {
    started > 0.0 && o.readyTimeout >= 0.0 && o.stableSeconds >= 0.0
    && (forall j :: 0 <= j < |polls| ==> polls[j].now > 0.0)
    && forall j, k :: 0 <= j < |polls| && 0 <= k < |polls[j].messages| ==>
         (polls[j].messages[k].Ready? ==> polls[j].messages[k].at > 0.0)
         && (polls[j].messages[k].Failed? ==> polls[j].messages[k].at > 0.0)
  }
}
