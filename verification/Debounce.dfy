/** Debounced engine restarts: the generation counters, the delayed blocks, the serial control
    queue and the path monitor, in timed runs of atomic steps. */
module Debounce {
  import opened Common
  import opened Runs

  /** The quiet window, in milliseconds. */
  const QUIET_MS: nat := 3000

  /** `atomicPath`: a path update checks its monitor and schedules its restart in one step. In the
      code as written other queues may run between the two. `startBumps`: carrying out a start
      takes a new generation, so that blocks waiting from before are superseded. In the code as
      written only a stop does. */
  datatype Config = Config(atomicPath: bool, startBumps: bool)

  datatype Interface = Wifi | Cellular | Wired | Other

  datatype Path = Path(satisfied: bool, interface: Interface, ipv4: bool, ipv6: bool)

  /** A restart block: its generation taken, waiting for its time, on the control queue, or over. */
  datatype Stage = Bumped | Armed(due: nat) | Queued | Over

  /** A tunnel: every start carried out has its own number. `stops` counts the stops before it. */
  datatype Tunnel = Tunnel(start: nat, stops: nat)

  /** `cause` is the tunnel whose engine was running when the event behind the block was seen. */
  datatype Block = Block(gen: nat, cause: Option<Tunnel>, stage: Stage)

  datatype Job = StartJob | StopJob | RestartJob(block: nat)

  /** A restart that was carried out: when its generation was checked, and for which tunnel. */
  datatype Restart = Restart(block: nat, gen: nat, time: nat, tunnel: Tunnel)

  /** `engine` is the tunnel whose engine is running. `checks` are path updates
      that passed their monitor check and are about to schedule. */
  datatype State = State(
    now: nat,
    restartGen: nat,
    pathGen: nat,
    monitors: set<nat>,
    lastPath: Option<Path>,
    blocks: seq<Block>,
    jobs: seq<Job>,
    engine: Option<Tunnel>,
    starts: nat,
    stops: nat,
    checks: seq<Option<Tunnel>>,
    restarts: seq<Restart>)

  datatype Event =
    | Tick(elapsed: nat)
    | CallStart
    | CallStop
    | Sleep
    | Wake
    | Arm(k: nat)
    | Fire(k: nat)
    | RunJob(ok: bool)
    | PathUpdate(monitor: nat, path: Path)
    | PathCheck(monitor: nat, path: Path)
    | PathSchedule

  const INITIAL: State := State(0, 0, 0, {}, None, [], [], None, 0, 0, [], [])

  // ---------------------------------------------------------------------
  // Path updates.
  // ---------------------------------------------------------------------

  /** An unsatisfied path is recorded with no interface and no addresses. */
  function Observed(path: Path): Path {
    if path.satisfied then path else Path(false, Other, false, false)
  }

  function ShouldRestart(last: Option<Path>, p: Path): bool {
    match last
    case None => false
    case Some(l) =>
      if p.satisfied && !l.satisfied then true
      else if p.satisfied && p.interface != l.interface then true
      else if p.satisfied && (p.ipv4 != l.ipv4 || p.ipv6 != l.ipv6) then true
      else false
  }

  /** A restart is called for by any change into a satisfied path, except the first one seen. */
  lemma RestartsOnChange(last: Option<Path>, path: Path)
    ensures ShouldRestart(last, Observed(path)) <==> last.Some? && path.satisfied && path != last.value
  {
  }

  // ---------------------------------------------------------------------
  // Steps.
  // ---------------------------------------------------------------------

  function Bump(s: State): State {
    s.(restartGen := s.restartGen + 1)
  }

  /** First half of a schedule: take the next generation. */
  function Schedule(s: State, cause: Option<Tunnel>): State {
    Bump(s).(blocks := s.blocks + [Block(s.restartGen + 1, cause, Bumped)])
  }

  function SetStage(s: State, k: nat, stage: Stage): State
    requires k < |s.blocks|
  {
    s.(blocks := s.blocks[k := s.blocks[k].(stage := stage)])
  }

  function ArmBlock(s: State, k: nat): State {
    if k < |s.blocks| && s.blocks[k].stage.Bumped? then SetStage(s, k, Armed(s.now + QUIET_MS)) else s
  }

  /** The delayed block runs at its time or later and goes to the control queue if current. */
  function FireBlock(s: State, k: nat): State {
    if k >= |s.blocks| || !s.blocks[k].stage.Armed? || s.now < s.blocks[k].stage.due then s
    else if s.restartGen != s.blocks[k].gen then SetStage(s, k, Over)
    else SetStage(s, k, Queued).(jobs := s.jobs + [RestartJob(k)])
  }

  function RunStart(cfg: Config, s: State, ok: bool): State {
    if !ok then s
    else
      var next := if cfg.startBumps then Bump(s) else s;
      next.(engine := Some(Tunnel(s.starts, s.stops)), starts := s.starts + 1,
            pathGen := s.pathGen + 1, monitors := s.monitors + {s.pathGen + 1}, lastPath := None)
  }

  function RunStop(s: State): State {
    Bump(s).(pathGen := s.pathGen + 1, engine := None, stops := s.stops + 1)
  }

  function RunRestart(s: State, k: nat, ok: bool): State {
    if k >= |s.blocks| then s
    else
      var over := SetStage(s, k, Over);
      if s.restartGen != s.blocks[k].gen then over
      else if s.engine.None? then over
      else over.(restarts := s.restarts + [Restart(k, s.blocks[k].gen, s.now, s.engine.value)],
                 engine := if ok then s.engine else None)
  }

  function RunHead(cfg: Config, s: State, ok: bool): State {
    if s.jobs == [] then s
    else
      var rest := s.(jobs := s.jobs[1..]);
      match s.jobs[0]
      case StartJob => RunStart(cfg, rest, ok)
      case StopJob => RunStop(rest)
      case RestartJob(k) => RunRestart(rest, k, ok)
  }

  predicate FromLiveMonitor(s: State, monitor: nat) {
    monitor in s.monitors && monitor == s.pathGen
  }

  function SeePath(s: State, path: Path): State {
    s.(lastPath := Some(Observed(path)))
  }

  /** One atomic step; an event that is not enabled changes nothing. */
  function Step(cfg: Config, s: State, e: Event): State {
    match e
    case Tick(elapsed) => s.(now := s.now + elapsed)
    case CallStart => s.(jobs := s.jobs + [StartJob])
    case CallStop => Bump(s).(jobs := s.jobs + [StopJob])
    case Sleep => Bump(s)
    case Wake => Schedule(s, s.engine)
    case Arm(k) => ArmBlock(s, k)
    case Fire(k) => FireBlock(s, k)
    case RunJob(ok) => RunHead(cfg, s, ok)
    case PathUpdate(monitor, path) =>
      if !FromLiveMonitor(s, monitor) then s
      else if ShouldRestart(s.lastPath, Observed(path)) then Schedule(SeePath(s, path), s.engine)
      else SeePath(s, path)
    case PathCheck(monitor, path) =>
      if cfg.atomicPath || !FromLiveMonitor(s, monitor) then s
      else if ShouldRestart(s.lastPath, Observed(path)) then SeePath(s, path).(checks := s.checks + [s.engine])
      else SeePath(s, path)
    case PathSchedule =>
      if s.checks == [] then s else Schedule(s.(checks := s.checks[1..]), s.checks[0])
  }

  function Stepper(cfg: Config): (State, Event) -> State {
    (s, e) => Step(cfg, s, e)
  }

  function RunFrom(cfg: Config, s: State, events: seq<Event>): State {
    Fold(Stepper(cfg), s, events)
  }

  function Run(cfg: Config, events: seq<Event>): State {
    RunFrom(cfg, INITIAL, events)
  }

  // ---------------------------------------------------------------------
  // Invariant.
  // ---------------------------------------------------------------------

  /** Generations of blocks increase in the order they were taken. */
  ghost predicate Ranked(s: State) {
    && (forall k: nat :: k < |s.blocks| ==> s.blocks[k].gen <= s.restartGen)
    && (forall j: nat, k: nat :: j < k < |s.blocks| ==> s.blocks[j].gen < s.blocks[k].gen)
  }

  /** Restart jobs are of distinct blocks that wait for them. */
  ghost predicate JobsOk(s: State) {
    && (forall a: nat :: a < |s.jobs| && s.jobs[a].RestartJob? ==>
          s.jobs[a].block < |s.blocks| && s.blocks[s.jobs[a].block].stage == Queued)
    && (forall a: nat, b: nat :: a < b < |s.jobs| && s.jobs[a].RestartJob? && s.jobs[b].RestartJob? ==>
          s.jobs[a].block != s.jobs[b].block)
  }

  /** A block newer than a restart cannot be carried out before the window after it has passed. */
  ghost predicate Spaced(s: State, r: Restart, k: nat)
    requires k < |s.blocks|
  {
    s.blocks[k].gen > r.gen ==>
      match s.blocks[k].stage
      case Armed(due) => r.time + QUIET_MS <= due
      case Queued => r.time + QUIET_MS <= s.now
      case _ => true
  }

  ghost predicate RestartOk(s: State, r: Restart) {
    && r.block < |s.blocks| && s.blocks[r.block].gen == r.gen && s.blocks[r.block].stage == Over
    && r.time <= s.now
    && forall k: nat :: k < |s.blocks| ==> Spaced(s, r, k)
  }

  ghost predicate RestartsOk(s: State) {
    forall a: nat :: a < |s.restarts| ==> RestartOk(s, s.restarts[a])
  }

  ghost predicate Apart(restarts: seq<Restart>) {
    forall a: nat, b: nat :: a < b < |restarts| ==>
      restarts[a].gen < restarts[b].gen && restarts[a].time + QUIET_MS <= restarts[b].time
  }

  ghost predicate EngineOk(s: State) {
    s.engine.Some? ==> s.engine.value.stops == s.stops
  }

  ghost predicate Inv(s: State) {
    Ranked(s) && JobsOk(s) && RestartsOk(s) && Apart(s.restarts) && EngineOk(s)
  }

  lemma ScheduleInv(s: State, cause: Option<Tunnel>)
    requires Inv(s)
    ensures Inv(Schedule(s, cause))
  {
    var n := Schedule(s, cause);
    assert forall k: nat :: k < |s.blocks| ==> n.blocks[k] == s.blocks[k];
    assert forall r: Restart, k: nat :: k < |s.blocks| && Spaced(s, r, k) ==> Spaced(n, r, k);
  }

  lemma ArmInv(s: State, k: nat)
    requires Inv(s)
    ensures Inv(ArmBlock(s, k))
  {
    var n := ArmBlock(s, k);
    if n != s {
      forall a: nat | a < |n.restarts|
        ensures RestartOk(n, n.restarts[a])
      {
        assert RestartOk(s, s.restarts[a]);
        assert forall j: nat :: j < |s.blocks| && Spaced(s, s.restarts[a], j) ==> Spaced(n, s.restarts[a], j);
      }
    }
  }

  lemma FireInv(s: State, k: nat)
    requires Inv(s)
    ensures Inv(FireBlock(s, k))
  {
    var n := FireBlock(s, k);
    if n != s {
      forall a: nat | a < |n.restarts|
        ensures RestartOk(n, n.restarts[a])
      {
        assert RestartOk(s, s.restarts[a]);
        assert forall j: nat :: j < |s.blocks| && Spaced(s, s.restarts[a], j) ==> Spaced(n, s.restarts[a], j);
      }
    }
  }

  lemma TickInv(s: State, elapsed: nat)
    requires Inv(s)
    ensures Inv(s.(now := s.now + elapsed))
  {
    var n := s.(now := s.now + elapsed);
    assert forall r: Restart, k: nat :: k < |s.blocks| && Spaced(s, r, k) ==> Spaced(n, r, k);
  }

  /** Steps that leave the blocks, the restarts and the clock alone. */
  lemma OtherInv(s: State, n: State)
    requires Inv(s) && n.now == s.now && n.restartGen >= s.restartGen
    requires n.blocks == s.blocks && n.restarts == s.restarts
    requires JobsOk(n) && EngineOk(n)
    ensures Inv(n)
  {
    assert forall r: Restart, k: nat :: k < |s.blocks| && Spaced(s, r, k) ==> Spaced(n, r, k);
    assert forall r: Restart :: RestartOk(s, r) ==> RestartOk(n, r);
  }

  lemma OverInv(s: State, k: nat)
    requires Inv(s) && k < |s.blocks|
    requires forall a: nat :: a < |s.jobs| && s.jobs[a].RestartJob? ==> s.jobs[a].block != k
    ensures Inv(SetStage(s, k, Over))
  {
    var n := SetStage(s, k, Over);
    forall a: nat | a < |n.restarts|
      ensures RestartOk(n, n.restarts[a])
    {
      assert RestartOk(s, s.restarts[a]);
      assert forall j: nat :: j < |s.blocks| && Spaced(s, s.restarts[a], j) ==> Spaced(n, s.restarts[a], j);
    }
  }

  /** A restart of the current generation is newer than all before it and a window away. */
  lemma NewRestart(s: State, k: nat)
    requires Inv(s) && k < |s.blocks| && s.blocks[k].stage == Queued && s.blocks[k].gen == s.restartGen
    ensures forall a: nat :: a < |s.restarts| ==>
              s.restarts[a].gen < s.restartGen && s.restarts[a].time + QUIET_MS <= s.now
  {
    forall a: nat | a < |s.restarts|
      ensures s.restarts[a].gen < s.restartGen && s.restarts[a].time + QUIET_MS <= s.now
    {
      var r := s.restarts[a];
      assert RestartOk(s, r);
      assert r.block != k;
      assert Spaced(s, r, k);
    }
  }

  lemma RecordInv(s: State, k: nat, ok: bool)
    requires Inv(s) && k < |s.blocks| && s.blocks[k].stage == Over && s.blocks[k].gen == s.restartGen && s.engine.Some?
    requires forall a: nat :: a < |s.restarts| ==>
               s.restarts[a].gen < s.restartGen && s.restarts[a].time + QUIET_MS <= s.now
    ensures Inv(s.(restarts := s.restarts + [Restart(k, s.blocks[k].gen, s.now, s.engine.value)],
                   engine := if ok then s.engine else None))
  {
    var r := Restart(k, s.blocks[k].gen, s.now, s.engine.value);
    var n := s.(restarts := s.restarts + [r], engine := if ok then s.engine else None);
    assert forall q: Restart, j: nat :: j < |s.blocks| && Spaced(s, q, j) ==> Spaced(n, q, j);
    assert forall q: Restart :: RestartOk(s, q) ==> RestartOk(n, q);
    assert RestartOk(n, r);
  }

  lemma RunRestartInv(s: State, k: nat, ok: bool)
    requires Inv(s) && s.jobs != [] && s.jobs[0] == RestartJob(k)
    ensures Inv(RunRestart(s.(jobs := s.jobs[1..]), k, ok))
  {
    var rest := s.(jobs := s.jobs[1..]);
    OtherInv(s, rest);
    OverInv(rest, k);
    if s.restartGen == s.blocks[k].gen && s.engine.Some? {
      NewRestart(s, k);
      RecordInv(SetStage(rest, k, Over), k, ok);
    }
  }

  lemma RunHeadInv(cfg: Config, s: State, ok: bool)
    requires Inv(s)
    ensures Inv(RunHead(cfg, s, ok))
  {
    if s.jobs != [] {
      var rest := s.(jobs := s.jobs[1..]);
      OtherInv(s, rest);
      match s.jobs[0]
      case StartJob => OtherInv(rest, RunStart(cfg, rest, ok));
      case StopJob => OtherInv(rest, RunStop(rest));
      case RestartJob(k) => RunRestartInv(s, k, ok);
    }
  }

  lemma {:induction false} StepInv(cfg: Config, s: State, e: Event)
    requires Inv(s)
    ensures Inv(Step(cfg, s, e))
  {
    hide Inv, ArmBlock, FireBlock, RunHead, Schedule, ShouldRestart;
    match e
    case Tick(elapsed) => TickInv(s, elapsed);
    case CallStart => AppendJob(s, StartJob);
    case CallStop => BumpInv(s); AppendJob(Bump(s), StopJob);
    case Sleep => BumpInv(s);
    case Wake => ScheduleInv(s, s.engine);
    case Arm(k) => ArmInv(s, k);
    case Fire(k) => FireInv(s, k);
    case RunJob(ok) => RunHeadInv(cfg, s, ok);
    case PathUpdate(monitor, path) =>
      SeeInv(s, path, s.checks);
      ScheduleInv(SeePath(s, path), s.engine);
    case PathCheck(monitor, path) =>
      SeeInv(s, path, s.checks);
      SeeInv(s, path, s.checks + [s.engine]);
    case PathSchedule =>
      if s.checks != [] {
        ChecksInv(s, s.checks[1..]);
        ScheduleInv(s.(checks := s.checks[1..]), s.checks[0]);
      }
  }

  lemma BumpInv(s: State)
    requires Inv(s)
    ensures Inv(Bump(s))
  {
    OtherInv(s, Bump(s));
  }

  lemma AppendJob(s: State, job: Job)
    requires Inv(s) && !job.RestartJob?
    ensures Inv(s.(jobs := s.jobs + [job]))
  {
    OtherInv(s, s.(jobs := s.jobs + [job]));
  }

  lemma ChecksInv(s: State, checks: seq<Option<Tunnel>>)
    requires Inv(s)
    ensures Inv(s.(checks := checks))
  {
    OtherInv(s, s.(checks := checks));
  }

  lemma SeeInv(s: State, path: Path, checks: seq<Option<Tunnel>>)
    requires Inv(s)
    ensures Inv(SeePath(s, path).(checks := checks)) && Inv(SeePath(s, path))
  {
    OtherInv(s, SeePath(s, path));
    ChecksInv(SeePath(s, path), checks);
  }

  lemma {:induction false} RunInv(cfg: Config, s: State, events: seq<Event>)
    requires Inv(s)
    ensures Inv(RunFrom(cfg, s, events))
    decreases |events|
  {
    hide Inv, Step;
    if events != [] {
      StepInv(cfg, s, events[0]);
      RunInv(cfg, Step(cfg, s, events[0]), events[1..]);
    }
  }

  lemma ReachableInv(cfg: Config, events: seq<Event>)
    ensures Inv(Run(cfg, events))
  {
    assert Inv(INITIAL);
    RunInv(cfg, INITIAL, events);
  }

  // ---------------------------------------------------------------------
  // What holds of every run.
  // ---------------------------------------------------------------------

  /** Of all blocks ever scheduled at most one carries the current generation. */
  lemma OneCurrentBlock(cfg: Config, events: seq<Event>, j: nat, k: nat)
    requires var s := Run(cfg, events);
             && j < |s.blocks| && k < |s.blocks|
             && s.blocks[j].gen == s.restartGen && s.blocks[k].gen == s.restartGen
    ensures j == k
  {
    ReachableInv(cfg, events);
  }

  /** Any two restarts carried out are of different generations, and their generation checks are
      at least the quiet window apart: a burst of events cannot stack restarts. */
  lemma RestartsApart(cfg: Config, events: seq<Event>, a: nat, b: nat)
    requires a < b < |Run(cfg, events).restarts|
    ensures var restarts := Run(cfg, events).restarts;
            && restarts[a].gen < restarts[b].gen
            && restarts[a].time + 3000 <= restarts[b].time
  {
    ReachableInv(cfg, events);
  }

  // ---------------------------------------------------------------------
  // Superseded blocks, and stops.
  // ---------------------------------------------------------------------

  /** Restarts from number `n` on are of generation `g` or later. */
  ghost predicate NewerOnly(s: State, n: nat, g: nat) {
    && n <= |s.restarts| && g <= s.restartGen
    && forall a: nat :: n <= a < |s.restarts| ==> s.restarts[a].gen >= g
  }

  lemma StepNewer(cfg: Config, s: State, e: Event, n: nat, g: nat)
    requires NewerOnly(s, n, g)
    ensures NewerOnly(Step(cfg, s, e), n, g)
  {
  }

  lemma {:induction false} RunNewer(cfg: Config, s: State, more: seq<Event>, n: nat, g: nat)
    requires NewerOnly(s, n, g)
    ensures NewerOnly(RunFrom(cfg, s, more), n, g)
    decreases |more|
  {
    hide NewerOnly, Step;
    if more != [] {
      StepNewer(cfg, s, more[0], n, g);
      RunNewer(cfg, Step(cfg, s, more[0]), more[1..], n, g);
    }
  }

  /** A block superseded at some point of a run, by an event, a sleep or a stop, is not carried
      out in any continuation. */
  lemma SupersededNeverRuns(cfg: Config, events: seq<Event>, more: seq<Event>, a: nat)
    requires |Run(cfg, events).restarts| <= a < |Run(cfg, events + more).restarts|
    ensures Run(cfg, events + more).restarts[a].gen >= Run(cfg, events).restartGen
  {
    var s := Run(cfg, events);
    FoldConcat(Stepper(cfg), INITIAL, events, more);
    RunNewer(cfg, s, more, |s.restarts|, s.restartGen);
  }

  /** Blocks stay in their places with their generations. */
  ghost predicate KeepsBlocks(s: State, n: State) {
    |n.blocks| >= |s.blocks| && forall k: nat :: k < |s.blocks| ==> n.blocks[k].gen == s.blocks[k].gen
  }

  lemma StepKeepsBlocks(cfg: Config, s: State, e: Event)
    ensures KeepsBlocks(s, Step(cfg, s, e))
  {
  }

  lemma {:induction false} RunKeepsBlocks(cfg: Config, s: State, more: seq<Event>)
    ensures KeepsBlocks(s, RunFrom(cfg, s, more))
    decreases |more|
  {
    hide Step;
    if more != [] {
      StepKeepsBlocks(cfg, s, more[0]);
      RunKeepsBlocks(cfg, Step(cfg, s, more[0]), more[1..]);
    }
  }

  /** After a sleep, a call of stop or a wake, whatever follows, none of the blocks scheduled before it
      is carried out: each later restart is of a block that the event or something later scheduled. */
  lemma {:induction false} SleepIsFinal(cfg: Config, events: seq<Event>, e: Event, more: seq<Event>, a: nat)
    requires e == Sleep || e == CallStop || e == Wake
    requires |Run(cfg, events).restarts| <= a < |Run(cfg, events + [e] + more).restarts|
    ensures Run(cfg, events + [e] + more).restarts[a].block >= |Run(cfg, events).blocks|
  {
    var s, n := Run(cfg, events), Run(cfg, events + [e]);
    var final := Run(cfg, events + [e] + more);
    ReachableInv(cfg, events);
    ReachableInv(cfg, events + [e] + more);
    FoldSnoc(Stepper(cfg), INITIAL, events, e);
    assert n.restartGen == s.restartGen + 1 && n.restarts == s.restarts && KeepsBlocks(s, n);
    hide Fold, Spaced;
    SupersededNeverRuns(cfg, events + [e], more, a);
    FoldConcat(Stepper(cfg), INITIAL, events + [e], more);
    RunKeepsBlocks(cfg, n, more);
    assert RestartOk(final, final.restarts[a]);
  }

  function StopsIn(jobs: seq<Job>): nat {
    if jobs == [] then 0 else (if jobs[0].StopJob? then 1 else 0) + StopsIn(jobs[1..])
  }

  lemma {:induction false} StopsAppend(jobs: seq<Job>, job: Job)
    ensures StopsIn(jobs + [job]) == StopsIn(jobs) + if job.StopJob? then 1 else 0
  {
    if jobs == [] {
      assert [job][1..] == [];
    } else {
      assert (jobs + [job])[1..] == jobs[1..] + [job];
      StopsAppend(jobs[1..], job);
    }
  }

  /** The first `m` jobs are what is left of the queue as it was when a stop was called: until
      they are done, `target` stops are not reached and they restart nothing. */
  ghost predicate Ending(s: State, m: nat, g: nat, target: nat, n: nat) {
    && m <= |s.jobs| && n <= |s.restarts| && g <= s.restartGen
    && s.stops + StopsIn(s.jobs[..m]) >= target
    && (forall a: nat :: a < m && s.jobs[a].RestartJob? ==>
          s.jobs[a].block < |s.blocks| && s.blocks[s.jobs[a].block].gen < g)
    && (forall a: nat :: n <= a < |s.restarts| ==> s.restarts[a].tunnel.stops >= target)
  }

  lemma HeadEnding(cfg: Config, s: State, ok: bool, m: nat, g: nat, target: nat, n: nat)
    requires Inv(s) && Ending(s, m, g, target, n)
    ensures Ending(RunHead(cfg, s, ok), if m == 0 then 0 else m - 1, g, target, n)
  {
    if s.jobs != [] && m > 0 {
      assert s.jobs[1..][..m - 1] == s.jobs[..m][1..];
      assert s.jobs[..m][0] == s.jobs[0];
    }
  }

  /** Other steps only add jobs at the end, and keep the generations of blocks. */
  ghost predicate Appends(s: State, n: State) {
    && s.jobs <= n.jobs && n.restarts == s.restarts && n.stops == s.stops && n.restartGen >= s.restartGen
    && |n.blocks| >= |s.blocks|
    && forall k: nat :: k < |s.blocks| ==> n.blocks[k].gen == s.blocks[k].gen
  }

  lemma StepAppends(cfg: Config, s: State, e: Event)
    requires !e.RunJob?
    ensures Appends(s, Step(cfg, s, e))
  {
  }

  lemma AppendsEnding(s: State, u: State, m: nat, g: nat, target: nat, n: nat)
    requires Ending(s, m, g, target, n) && Appends(s, u)
    ensures Ending(u, m, g, target, n)
  {
    assert u.jobs[..m] == s.jobs[..m];
  }

  lemma {:induction false} RunEnding(cfg: Config, s: State, more: seq<Event>, m: nat, g: nat, target: nat, n: nat)
    requires Inv(s) && Ending(s, m, g, target, n)
    ensures exists left: nat :: Ending(RunFrom(cfg, s, more), left, g, target, n)
    decreases |more|
  {
    hide Inv, Ending, Step, Appends, RunHead;
    if more != [] {
      var next := Step(cfg, s, more[0]);
      var left := if more[0].RunJob? && m > 0 then m - 1 else m;
      StepInv(cfg, s, more[0]);
      if more[0].RunJob? {
        RunJobStep(cfg, s, more[0].ok);
        HeadEnding(cfg, s, more[0].ok, m, g, target, n);
      } else {
        StepAppends(cfg, s, more[0]);
        AppendsEnding(s, next, m, g, target, n);
      }
      RunEnding(cfg, next, more[1..], left, g, target, n);
      assert RunFrom(cfg, s, more) == RunFrom(cfg, next, more[1..]);
    } else {
      assert Ending(RunFrom(cfg, s, more), m, g, target, n);
    }
  }

  lemma RunJobStep(cfg: Config, s: State, ok: bool)
    ensures Step(cfg, s, RunJob(ok)) == RunHead(cfg, s, ok)
  {
  }

  /** Once a stop has been called, every restart carried out later is of a tunnel started after
      that stop was carried out: neither blocks scheduled before nor restart jobs already on the
      queue restart the engine being stopped. */
  lemma StopIsFinal(cfg: Config, events: seq<Event>, more: seq<Event>, a: nat)
    requires |Run(cfg, events).restarts| <= a < |Run(cfg, events + [CallStop] + more).restarts|
    ensures var s := Run(cfg, events);
            Run(cfg, events + [CallStop] + more).restarts[a].tunnel.stops > s.stops + StopsIn(s.jobs)
  {
    var s := Run(cfg, events);
    var called := Run(cfg, events + [CallStop]);
    ReachableInv(cfg, events);
    ReachableInv(cfg, events + [CallStop]);
    FoldSnoc(Stepper(cfg), INITIAL, events, CallStop);
    FoldConcat(Stepper(cfg), INITIAL, events + [CallStop], more);
    CalledEnding(s);
    hide Fold, Inv, Ranked, JobsOk;
    RunEnding(cfg, called, more, |called.jobs|, called.restartGen, s.stops + StopsIn(s.jobs) + 1, |s.restarts|);
  }

  lemma CalledEnding(s: State)
    requires Ranked(s) && JobsOk(s)
    ensures var n := Bump(s).(jobs := s.jobs + [StopJob]);
            Ending(n, |n.jobs|, n.restartGen, s.stops + StopsIn(s.jobs) + 1, |s.restarts|)
  {
    var n := Bump(s).(jobs := s.jobs + [StopJob]);
    StopsAppend(s.jobs, StopJob);
    assert n.jobs[..|n.jobs|] == n.jobs;
  }

  // ---------------------------------------------------------------------
  // Restarts and the tunnel their cause belongs to.
  // ---------------------------------------------------------------------

  /** Every restart carried out answers an event of the tunnel it restarts. */
  ghost predicate OwnTunnel(s: State) {
    forall a: nat :: a < |s.restarts| && s.restarts[a].block < |s.blocks| ==>
      s.blocks[s.restarts[a].block].cause == Some(s.restarts[a].tunnel)
  }

  /** While an engine runs, blocks with another cause are superseded. */
  ghost predicate OldSuperseded(s: State) {
    s.engine.Some? ==>
      forall k: nat :: k < |s.blocks| && s.blocks[k].cause != s.engine ==> s.blocks[k].gen < s.restartGen
  }

  ghost predicate CauseInv(s: State) {
    OwnTunnel(s) && OldSuperseded(s) && s.checks == []
  }

  lemma StepCause(cfg: Config, s: State, e: Event)
    requires cfg.atomicPath && cfg.startBumps && Inv(s) && CauseInv(s)
    ensures CauseInv(Step(cfg, s, e))
  {
    assert forall a: nat :: a < |s.restarts| ==> RestartOk(s, s.restarts[a]);
    if e.RunJob? {
      HeadCause(cfg, s, e.ok);
      RunJobStep(cfg, s, e.ok);
    }
  }

  lemma HeadCause(cfg: Config, s: State, ok: bool)
    requires cfg.startBumps && Inv(s) && CauseInv(s)
    ensures CauseInv(RunHead(cfg, s, ok))
  {
    assert forall a: nat :: a < |s.restarts| ==> RestartOk(s, s.restarts[a]);
  }

  lemma {:induction false} RunCause(cfg: Config, s: State, events: seq<Event>)
    requires cfg.atomicPath && cfg.startBumps && Inv(s) && CauseInv(s)
    ensures CauseInv(RunFrom(cfg, s, events))
    decreases |events|
  {
    hide Inv, CauseInv, Step;
    if events != [] {
      StepInv(cfg, s, events[0]);
      StepCause(cfg, s, events[0]);
      RunCause(cfg, Step(cfg, s, events[0]), events[1..]);
    }
  }

  const SOME_PATH: Path := Path(true, Wifi, true, false)
  const OTHER_PATH: Path := Path(true, Cellular, true, false)
  const FIRST: Tunnel := Tunnel(0, 0)

  /** A path change is checked, and then the tunnel is stopped and another started. */
  const CHECKED: seq<Event> := [CallStart, RunJob(true), PathUpdate(1, SOME_PATH), PathCheck(1, OTHER_PATH)]
  const SWITCHED: seq<Event> := [CallStop, RunJob(true), CallStart, RunJob(true)]
  const DELIVERED: seq<Event> := [PathSchedule, Arm(0), Tick(QUIET_MS), Fire(0)]
  const STALE: seq<Event> := CHECKED + SWITCHED + DELIVERED + [RunJob(true)]

  /** The generation after one start. */
  function StartGen(cfg: Config): nat {
    if cfg.startBumps then 1 else 0
  }

  function AfterCheck(cfg: Config): State {
    State(0, StartGen(cfg), 1, {1}, Some(OTHER_PATH), [], [], Some(FIRST), 1, 0, [Some(FIRST)], [])
  }

  function AfterSwitch(cfg: Config): State {
    State(0, 2 * StartGen(cfg) + 2, 3, {1, 3}, None, [], [], Some(Tunnel(1, 1)), 2, 1, [Some(FIRST)], [])
  }

  function AfterFire(cfg: Config): State {
    var gen := 2 * StartGen(cfg) + 3;
    State(QUIET_MS, gen, 3, {1, 3}, None, [Block(gen, Some(FIRST), Queued)], [RestartJob(0)],
          Some(Tunnel(1, 1)), 2, 1, [], [])
  }

  lemma CheckedRun(cfg: Config)
    requires !cfg.atomicPath
    ensures Run(cfg, CHECKED) == AfterCheck(cfg)
  {
    Fold4(Stepper(cfg), INITIAL, CallStart, RunJob(true), PathUpdate(1, SOME_PATH), PathCheck(1, OTHER_PATH));
  }

  lemma SwitchedRun(cfg: Config)
    ensures RunFrom(cfg, AfterCheck(cfg), SWITCHED) == AfterSwitch(cfg)
  {
    Fold4(Stepper(cfg), AfterCheck(cfg), CallStop, RunJob(true), CallStart, RunJob(true));
  }

  lemma DeliveredRun(cfg: Config)
    ensures RunFrom(cfg, AfterSwitch(cfg), DELIVERED) == AfterFire(cfg)
  {
    Fold4(Stepper(cfg), AfterSwitch(cfg), PathSchedule, Arm(0), Tick(QUIET_MS), Fire(0));
  }

  /** The change seen in the first tunnel then restarts the second. */
  lemma StaleUpdateRestarts(cfg: Config)
    requires !cfg.atomicPath
    ensures !OwnTunnel(Run(cfg, STALE))
  {
    CheckedRun(cfg);
    SwitchedRun(cfg);
    DeliveredRun(cfg);
    FoldConcat(Stepper(cfg), INITIAL, CHECKED, SWITCHED);
    FoldConcat(Stepper(cfg), INITIAL, CHECKED + SWITCHED, DELIVERED);
    FoldSnoc(Stepper(cfg), INITIAL, CHECKED + SWITCHED + DELIVERED, RunJob(true));
    hide Fold;
    FiredRestarts(cfg, AfterFire(cfg));
  }

  /** Carrying out the one restart job of a current block for a tunnel that is not its cause. */
  lemma FiredRestarts(cfg: Config, s: State)
    requires s.jobs != [] && s.jobs[0].RestartJob? && s.jobs[0].block < |s.blocks|
    requires s.blocks[s.jobs[0].block].gen == s.restartGen
    requires s.engine.Some? && s.blocks[s.jobs[0].block].cause != s.engine
    ensures !OwnTunnel(Step(cfg, s, RunJob(true))) && !OwnTunnel(Step(cfg, s, RunJob(false)))
  {
    ForeignRecorded(cfg, s, true);
    ForeignRecorded(cfg, s, false);
  }

  lemma ForeignRecorded(cfg: Config, s: State, ok: bool)
    requires s.jobs != [] && s.jobs[0].RestartJob? && s.jobs[0].block < |s.blocks|
    requires s.blocks[s.jobs[0].block].gen == s.restartGen
    requires s.engine.Some? && s.blocks[s.jobs[0].block].cause != s.engine
    ensures var n, k := Step(cfg, s, RunJob(ok)), s.jobs[0].block;
            && n.restarts == s.restarts + [Restart(k, s.restartGen, s.now, s.engine.value)]
            && !OwnTunnel(n)
  {
    var n, k := Step(cfg, s, RunJob(ok)), s.jobs[0].block;
    assert n.restarts == s.restarts + [Restart(k, s.restartGen, s.now, s.engine.value)];
    assert n.restarts[|s.restarts|].block == k && n.blocks[k].cause == s.blocks[k].cause;
  }

  /** A wake before any tunnel exists, and then a start within the window. */
  const EARLY_WAKE: seq<Event> := [Wake, Arm(0), CallStart, RunJob(true)]
  const EARLY: seq<Event> := EARLY_WAKE + [Tick(QUIET_MS)] + [Fire(0)] + [RunJob(true)]

  /** The tunnel is restarted for an event from before it was started. */
  lemma EarlyWakeRestarts(cfg: Config)
    requires !cfg.startBumps
    ensures !OwnTunnel(Run(cfg, EARLY))
  {
    var up := State(0, 1, 1, {1}, None, [Block(1, None, Armed(QUIET_MS))], [], Some(FIRST), 1, 0, [], []);
    Fold4(Stepper(cfg), INITIAL, Wake, Arm(0), CallStart, RunJob(true));
    assert Run(cfg, EARLY_WAKE) == up;
    FoldSnoc(Stepper(cfg), INITIAL, EARLY_WAKE, Tick(QUIET_MS));
    FoldSnoc(Stepper(cfg), INITIAL, EARLY_WAKE + [Tick(QUIET_MS)], Fire(0));
    FoldSnoc(Stepper(cfg), INITIAL, EARLY_WAKE + [Tick(QUIET_MS)] + [Fire(0)], RunJob(true));
    hide Fold;
    var fired := Step(cfg, Step(cfg, up, Tick(QUIET_MS)), Fire(0));
    assert fired.blocks == [Block(1, None, Queued)] && fired.jobs == [RestartJob(0)];
    FiredRestarts(cfg, fired);
  }

  /** A restart fails and leaves no engine, but its monitor still reports; a second tunnel is
      started with no stop between. */
  const UP_AND_AWAKE: seq<Event> := [CallStart, RunJob(true), PathUpdate(1, SOME_PATH), Wake]
  const FAILED: seq<Event> := [Arm(0), Tick(QUIET_MS), Fire(0), RunJob(false)]
  const REPORTED: seq<Event> := [PathUpdate(1, OTHER_PATH), Arm(1), CallStart, RunJob(true)]
  const STOPLESS: seq<Event> := UP_AND_AWAKE + FAILED + REPORTED + [Tick(QUIET_MS)] + [Fire(1)] + [RunJob(true)]

  const AFTER_FAILURE: State :=
    State(QUIET_MS, 1, 1, {1}, Some(SOME_PATH), [Block(1, Some(FIRST), Over)], [], None, 1, 0, [],
          [Restart(0, 1, QUIET_MS, FIRST)])
  const AFTER_REPORT: State :=
    State(QUIET_MS, 2, 2, {1, 2}, None, [Block(1, Some(FIRST), Over), Block(2, None, Armed(2 * QUIET_MS))], [],
          Some(Tunnel(1, 0)), 2, 0, [], [Restart(0, 1, QUIET_MS, FIRST)])

  lemma FailedRun(cfg: Config)
    requires !cfg.startBumps
    ensures RunFrom(cfg, Run(cfg, UP_AND_AWAKE), FAILED) == AFTER_FAILURE
  {
    var awake := State(0, 1, 1, {1}, Some(SOME_PATH), [Block(1, Some(FIRST), Bumped)], [], Some(FIRST), 1, 0, [], []);
    Fold4(Stepper(cfg), INITIAL, CallStart, RunJob(true), PathUpdate(1, SOME_PATH), Wake);
    assert Run(cfg, UP_AND_AWAKE) == awake;
    Fold4(Stepper(cfg), awake, Arm(0), Tick(QUIET_MS), Fire(0), RunJob(false));
  }

  lemma ReportedRun(cfg: Config)
    requires !cfg.startBumps
    ensures RunFrom(cfg, AFTER_FAILURE, REPORTED) == AFTER_REPORT
  {
    Fold4(Stepper(cfg), AFTER_FAILURE, PathUpdate(1, OTHER_PATH), Arm(1), CallStart, RunJob(true));
  }

  /** The report of the old monitor restarts the second tunnel. */
  lemma StoplessStartRestarts(cfg: Config)
    requires !cfg.startBumps
    ensures !OwnTunnel(Run(cfg, STOPLESS))
  {
    var f := Stepper(cfg);
    FailedRun(cfg);
    ReportedRun(cfg);
    FoldConcat(f, INITIAL, UP_AND_AWAKE, FAILED);
    FoldConcat(f, INITIAL, UP_AND_AWAKE + FAILED, REPORTED);
    FoldSnoc(f, INITIAL, UP_AND_AWAKE + FAILED + REPORTED, Tick(QUIET_MS));
    FoldSnoc(f, INITIAL, UP_AND_AWAKE + FAILED + REPORTED + [Tick(QUIET_MS)], Fire(1));
    FoldSnoc(f, INITIAL, UP_AND_AWAKE + FAILED + REPORTED + [Tick(QUIET_MS)] + [Fire(1)], RunJob(true));
    hide Fold;
    var fired := Step(cfg, Step(cfg, AFTER_REPORT, Tick(QUIET_MS)), Fire(1));
    assert fired.jobs == [RestartJob(1)] && fired.blocks[1] == Block(2, None, Queued);
    FiredRestarts(cfg, fired);
  }

  /** Restarts answer events of their own tunnel, over all runs, exactly when a path update
      schedules in the same step as it checks its monitor and a start supersedes what waits. */
  lemma OwnTunnelIff(cfg: Config)
    ensures (forall events: seq<Event> :: OwnTunnel(Run(cfg, events))) <==> cfg.atomicPath && cfg.startBumps
  {
    hide Fold, Step, Inv, OwnTunnel;
    if !cfg.startBumps {
      EarlyWakeRestarts(cfg);
    } else if !cfg.atomicPath {
      StaleUpdateRestarts(cfg);
    } else {
      forall events: seq<Event>
        ensures OwnTunnel(Run(cfg, events))
      {
        InitialInv();
        RunCause(cfg, INITIAL, events);
      }
    }
  }

  lemma InitialInv()
    ensures Inv(INITIAL) && CauseInv(INITIAL)
  {
  }

  /** A lone event is answered: if nothing else happens for the window, the engine is restarted
      at its end. */
  lemma WakeRestarts(cfg: Config, s: State)
    requires s.jobs == [] && s.engine.Some?
    ensures var n := |s.blocks|;
            RunFrom(cfg, s, [Wake, Arm(n), Tick(QUIET_MS), Fire(n)] + [RunJob(true)]) ==
            s.(now := s.now + QUIET_MS,
               restartGen := s.restartGen + 1,
               blocks := s.blocks + [Block(s.restartGen + 1, s.engine, Over)],
               restarts := s.restarts + [Restart(n, s.restartGen + 1, s.now + QUIET_MS, s.engine.value)])
  {
    var n := |s.blocks|;
    var f := Stepper(cfg);
    FoldSnoc(f, s, [Wake, Arm(n), Tick(QUIET_MS), Fire(n)], RunJob(true));
    Fold4(f, s, Wake, Arm(n), Tick(QUIET_MS), Fire(n));
    LoneBlock(cfg, s);
  }

  lemma LoneBlock(cfg: Config, s: State)
    requires s.jobs == [] && s.engine.Some?
    ensures var n := |s.blocks|;
            var fired := FireBlock(ArmBlock(Schedule(s, s.engine), n).(now := s.now + QUIET_MS), n);
            RunHead(cfg, fired, true) ==
            s.(now := s.now + QUIET_MS,
               restartGen := s.restartGen + 1,
               blocks := s.blocks + [Block(s.restartGen + 1, s.engine, Over)],
               restarts := s.restarts + [Restart(n, s.restartGen + 1, s.now + QUIET_MS, s.engine.value)])
  {
    var n := |s.blocks|;
    var fired := FireBlock(ArmBlock(Schedule(s, s.engine), n).(now := s.now + QUIET_MS), n);
    assert fired == s.(now := s.now + QUIET_MS,
                       restartGen := s.restartGen + 1,
                       blocks := s.blocks + [Block(s.restartGen + 1, s.engine, Queued)],
                       jobs := [RestartJob(n)]);
    assert RunHead(cfg, fired, true).blocks == s.blocks + [Block(s.restartGen + 1, s.engine, Over)];
  }
}
