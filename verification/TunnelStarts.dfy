/** The code as written takes no new generation when a tunnel is started. When exactly a start is
    safe: which starts can be followed by a restart of the new tunnel for an event from before. */
module TunnelStarts {
  import opened Common
  import opened Runs
  import opened Debounce

  /** Path updates in two steps, and starts that take no generation. */
  const AS_WRITTEN: Config := Config(false, false)

  /** Tunnels are numbered in the order of their starts. */
  ghost predicate Numbered(s: State) {
    && (s.engine.Some? ==> s.engine.value.start < s.starts)
    && (forall a: nat :: a < |s.restarts| ==> s.restarts[a].tunnel.start < s.starts)
    && (forall k: nat :: k < |s.blocks| && s.blocks[k].cause.Some? ==> s.blocks[k].cause.value.start < s.starts)
    && (forall c: nat :: c < |s.checks| && s.checks[c].Some? ==> s.checks[c].value.start < s.starts)
  }

  /** Blocks on the way to the control queue have their job there. */
  ghost predicate QueuedHaveJobs(s: State) {
    forall k: nat :: k < |s.blocks| && s.blocks[k].stage.Queued? ==> RestartJob(k) in s.jobs
  }

  lemma NumberedHead(cfg: Config, s: State, ok: bool)
    requires Numbered(s)
    ensures Numbered(RunHead(cfg, s, ok))
  {
  }

  lemma NumberedSchedule(s: State, cause: Option<Tunnel>)
    requires Numbered(s) && (cause.Some? ==> cause.value.start < s.starts)
    ensures Numbered(Schedule(s, cause))
  {
  }

  lemma NumberedBlock(s: State, k: nat)
    requires Numbered(s)
    ensures Numbered(ArmBlock(s, k)) && Numbered(FireBlock(s, k))
  {
  }

  lemma NumberedPath(s: State, path: Path)
    requires Numbered(s)
    ensures Numbered(SeePath(s, path)) && Numbered(SeePath(s, path).(checks := s.checks + [s.engine]))
    ensures s.checks != [] ==> Numbered(s.(checks := s.checks[1..]))
  {
  }

  lemma NumberedKept(cfg: Config, s: State, e: Event)
    requires Numbered(s)
    ensures Numbered(Step(cfg, s, e))
  {
    hide RunHead, Schedule, ArmBlock, FireBlock, ShouldRestart;
    match e
    case Wake => NumberedSchedule(s, s.engine);
    case Arm(k) => NumberedBlock(s, k);
    case Fire(k) => NumberedBlock(s, k);
    case RunJob(ok) => NumberedHead(cfg, s, ok);
    case PathUpdate(_, path) =>
      NumberedPath(s, path);
      NumberedSchedule(SeePath(s, path), s.engine);
    case PathCheck(_, path) => NumberedPath(s, path);
    case PathSchedule =>
      if s.checks != [] {
        NumberedPath(s, SOME_PATH);
        NumberedSchedule(s.(checks := s.checks[1..]), s.checks[0]);
      }
    case _ =>
  }

  lemma JobDropped(jobs: seq<Job>, k: nat)
    requires jobs != [] && RestartJob(k) in jobs && jobs[0] != RestartJob(k)
    ensures RestartJob(k) in jobs[1..]
  {
  }

  lemma QueuedHead(cfg: Config, s: State, ok: bool)
    requires QueuedHaveJobs(s)
    ensures QueuedHaveJobs(RunHead(cfg, s, ok))
  {
    var n := RunHead(cfg, s, ok);
    forall k: nat | k < |n.blocks| && n.blocks[k].stage.Queued?
      ensures RestartJob(k) in n.jobs
    {
      if s.jobs != [] { JobDropped(s.jobs, k); }
    }
  }

  lemma QueuedFire(s: State, k: nat)
    requires QueuedHaveJobs(s)
    ensures QueuedHaveJobs(FireBlock(s, k))
  {
  }

  lemma QueuedKept(cfg: Config, s: State, e: Event)
    requires QueuedHaveJobs(s)
    ensures QueuedHaveJobs(Step(cfg, s, e))
  {
    hide RunHead, FireBlock;
    if e.RunJob? {
      QueuedHead(cfg, s, e.ok);
    } else if e.Fire? {
      QueuedFire(s, e.k);
    }
  }

  /** The restart job is of a superseded block. */
  predicate Superseded(s: State, job: Job) {
    job.RestartJob? ==> job.block < |s.blocks| && s.blocks[job.block].gen < s.restartGen
  }

  /** A stop takes a generation when it is called: restart jobs before it on the queue are
      superseded. */
  ghost predicate StopsSupersede(s: State) {
    forall a: nat, m: nat :: a < m < |s.jobs| && s.jobs[m].StopJob? ==> Superseded(s, s.jobs[a])
  }

  /** Generations only grow, and blocks keep theirs. */
  ghost predicate Grows(s: State, n: State) {
    && n.restartGen >= s.restartGen && |n.blocks| >= |s.blocks|
    && forall k: nat :: k < |s.blocks| ==> n.blocks[k].gen == s.blocks[k].gen && n.blocks[k].cause == s.blocks[k].cause
  }

  lemma StepGrows(cfg: Config, s: State, e: Event)
    ensures Grows(s, Step(cfg, s, e))
  {
  }

  lemma StaysSuperseded(s: State, n: State, job: Job)
    requires Grows(s, n) && Superseded(s, job)
    ensures Superseded(n, job)
  {
  }

  /** What a step does to the queue. */
  lemma StepJobs(cfg: Config, s: State, e: Event)
    ensures var n := Step(cfg, s, e);
            if e.RunJob? then n.jobs == (if s.jobs == [] then [] else s.jobs[1..])
            else n.jobs == s.jobs || (exists job :: n.jobs == s.jobs + [job] && (job.StopJob? ==> e.CallStop?))
  {
  }

  lemma SupersedeKept(cfg: Config, s: State, e: Event)
    requires Ranked(s) && JobsOk(s) && StopsSupersede(s)
    ensures StopsSupersede(Step(cfg, s, e))
  {
    var n := Step(cfg, s, e);
    StepJobs(cfg, s, e);
    StepGrows(cfg, s, e);
    hide Step, Grows, Superseded;
    forall a: nat, m: nat | a < m < |n.jobs| && n.jobs[m].StopJob?
      ensures Superseded(n, n.jobs[a])
    {
      if e.RunJob? {
        assert n.jobs[a] == s.jobs[a + 1] && n.jobs[m] == s.jobs[m + 1];
        StaysSuperseded(s, n, s.jobs[a + 1]);
      } else if m < |s.jobs| {
        StaysSuperseded(s, n, s.jobs[a]);
      } else {
        StopCalled(cfg, s, a);
      }
    }
  }

  lemma StopCalled(cfg: Config, s: State, a: nat)
    requires Ranked(s) && JobsOk(s) && a < |s.jobs|
    ensures Superseded(Step(cfg, s, CallStop), s.jobs[a])
  {
  }

  ghost predicate Known(s: State) {
    Inv(s) && Numbered(s) && QueuedHaveJobs(s) && StopsSupersede(s)
  }

  lemma InvParts(s: State)
    requires Inv(s)
    ensures Ranked(s) && JobsOk(s)
  {
  }

  lemma {:induction false} RunKnown(cfg: Config, s: State, events: seq<Event>)
    requires Known(s)
    ensures Known(RunFrom(cfg, s, events))
    decreases |events|
  {
    hide Inv, Numbered, QueuedHaveJobs, StopsSupersede, Step;
    if events != [] {
      InvParts(s);
      SupersedeKept(cfg, s, events[0]);
      StepInv(cfg, s, events[0]);
      NumberedKept(cfg, s, events[0]);
      QueuedKept(cfg, s, events[0]);
      RunKnown(cfg, Step(cfg, s, events[0]), events[1..]);
    }
  }

  lemma ReachableKnown(cfg: Config, events: seq<Event>)
    ensures Known(Run(cfg, events))
  {
    InitialInv();
    RunKnown(cfg, INITIAL, events);
  }

  /** No block of the current generation is still to be carried out. */
  ghost predicate NothingWaits(s: State) {
    forall k: nat :: k < |s.blocks| && s.blocks[k].gen == s.restartGen ==> s.blocks[k].stage.Over?
  }

  /** Restarts of the tunnel with that number answer its own events. */
  ghost predicate OwnOf(s: State, number: nat) {
    forall a: nat :: a < |s.restarts| && s.restarts[a].tunnel.start == number && s.restarts[a].block < |s.blocks| ==>
      s.blocks[s.restarts[a].block].cause == Some(s.restarts[a].tunnel)
  }

  /** Nothing from before tunnel `t` can reach it: no update checked before is still to schedule,
      and foreign blocks that are still to be carried out are superseded. */
  ghost predicate Clean(s: State, t: Tunnel) {
    && (forall c: nat :: c < |s.checks| ==> s.checks[c] == Some(t))
    && (forall k: nat :: k < |s.blocks| && !s.blocks[k].stage.Over? && s.blocks[k].cause != Some(t) ==>
          s.blocks[k].gen < s.restartGen)
  }

  /** A stop is on the queue, and nothing before it can restart. */
  ghost predicate Doomed(s: State, m: nat) {
    m < |s.jobs| && s.jobs[m].StopJob? && forall a: nat :: a < m ==> Superseded(s, s.jobs[a])
  }

  ghost predicate Ended(s: State) {
    exists m: nat :: Doomed(s, m)
  }

  /** From the start of tunnel `t` on: while its engine runs, nothing from before can reach it or a
      stop is on the way that comes first. */
  ghost predicate Guarded(s: State, t: Tunnel) {
    && t.start < s.starts && OwnOf(s, t.start)
    && (s.engine.Some? && s.engine.value.start == t.start ==> s.engine == Some(t))
    && (s.engine == Some(t) ==> Clean(s, t) || Ended(s))
  }

  /** What one step does to tunnel `t`: its engine is never started again, and while it runs the
      step restarts it only for a block that is current. */
  lemma EngineKept(cfg: Config, s: State, e: Event, t: Tunnel)
    requires t.start < s.starts
    ensures var n := Step(cfg, s, e);
            && n.starts >= s.starts
            && (n.engine == s.engine || n.engine == None || (n.engine.Some? && n.engine.value.start >= s.starts))
  {
  }

  lemma DoomedKept(cfg: Config, s: State, e: Event, t: Tunnel, m: nat)
    requires s.engine == Some(t) && t.start < s.starts && Doomed(s, m)
    ensures Step(cfg, s, e).engine != Some(t) || Ended(Step(cfg, s, e))
    ensures Step(cfg, s, e).restarts == s.restarts
  {
    var n := Step(cfg, s, e);
    StepJobs(cfg, s, e);
    StepGrows(cfg, s, e);
    if e.RunJob? {
      if m > 0 {
        DoomedHead(cfg, s, e.ok, m);
        forall a: nat | a < m - 1
          ensures Superseded(n, n.jobs[a])
        {
          StaysSuperseded(s, n, s.jobs[a + 1]);
        }
        assert n.jobs[m - 1] == s.jobs[m];
        assert Doomed(n, m - 1);
      } else {
        StopHead(cfg, s, e.ok);
      }
    } else {
      forall a: nat | a < m
        ensures Superseded(n, n.jobs[a])
      {
        StaysSuperseded(s, n, s.jobs[a]);
      }
      assert Doomed(n, m);
      StepAppends(cfg, s, e);
    }
  }

  lemma DoomedHead(cfg: Config, s: State, ok: bool, m: nat)
    requires Doomed(s, m) && m > 0
    ensures Step(cfg, s, RunJob(ok)).restarts == s.restarts
  {
    assert Superseded(s, s.jobs[0]);
  }

  lemma StopHead(cfg: Config, s: State, ok: bool)
    requires s.jobs != [] && s.jobs[0].StopJob?
    ensures Step(cfg, s, RunJob(ok)).engine == None && Step(cfg, s, RunJob(ok)).restarts == s.restarts
  {
  }

  /** A job for tunnel `t` while it is clean. */
  lemma CleanStart(cfg: Config, s: State, ok: bool, t: Tunnel)
    requires t.start < s.starts && Clean(s, t)
    ensures RunStart(cfg, s, ok).engine == Some(t) ==> Clean(RunStart(cfg, s, ok), t)
  {
  }

  lemma CleanRestart(s: State, k: nat, ok: bool, t: Tunnel)
    requires Clean(s, t) && s.engine == Some(t) && k < |s.blocks| && s.blocks[k].stage == Queued
    ensures Clean(RunRestart(s, k, ok), t)
    ensures var n := RunRestart(s, k, ok);
            n.restarts == s.restarts
            || (n.restarts == s.restarts + [Restart(k, s.blocks[k].gen, s.now, t)] && s.blocks[k].cause == Some(t))
  {
  }

  lemma CleanHead(cfg: Config, s: State, ok: bool, t: Tunnel)
    requires JobsOk(s) && RestartsOk(s)
    requires t.start < s.starts && Clean(s, t) && s.engine == Some(t) && OwnOf(s, t.start)
    ensures var n := RunHead(cfg, s, ok); OwnOf(n, t.start) && (n.engine == Some(t) ==> Clean(n, t))
  {
    if s.jobs != [] {
      var rest := s.(jobs := s.jobs[1..]);
      match s.jobs[0]
      case StartJob => CleanStart(cfg, rest, ok, t);
      case StopJob =>
      case RestartJob(k) =>
        CleanRestart(rest, k, ok, t);
        RestartBlocks(s);
        OwnKept(s, RunRestart(rest, k, ok), t);
    }
  }

  lemma RestartBlocks(s: State)
    requires RestartsOk(s)
    ensures forall a: nat :: a < |s.restarts| ==> s.restarts[a].block < |s.blocks|
  {
    assert forall a: nat :: a < |s.restarts| ==> RestartOk(s, s.restarts[a]);
  }

  /** The new restart, if there is one, is of another tunnel or of the tunnel's own block. */
  lemma OwnKept(s: State, n: State, t: Tunnel)
    requires OwnOf(s, t.start) && Grows(s, n)
    requires n.restarts == s.restarts
             || (exists r: Restart :: n.restarts == s.restarts + [r]
                   && (r.tunnel.start == t.start ==> r.block < |s.blocks| && s.blocks[r.block].cause == Some(r.tunnel)))
    requires forall a: nat :: a < |s.restarts| ==> s.restarts[a].block < |s.blocks|
    ensures OwnOf(n, t.start)
  {
  }

  /** Events other than jobs restart nothing, and while `t` runs they schedule only for it. */
  lemma CleanOther(cfg: Config, s: State, e: Event, t: Tunnel)
    requires !e.RunJob? && Clean(s, t) && s.engine == Some(t)
    ensures Clean(Step(cfg, s, e), t) && Step(cfg, s, e).engine == Some(t) && Step(cfg, s, e).restarts == s.restarts
  {
  }

  /** A restart of another tunnel. */
  lemma ElsewhereHead(cfg: Config, s: State, e: Event, t: Tunnel)
    requires RestartsOk(s) && OwnOf(s, t.start) && s.engine != Some(t)
    requires s.engine.Some? ==> s.engine.value.start != t.start
    ensures OwnOf(Step(cfg, s, e), t.start)
  {
    RestartBlocks(s);
    StepGrows(cfg, s, e);
    OwnKept(s, Step(cfg, s, e), t);
  }

  lemma GuardedKept(cfg: Config, s: State, e: Event, t: Tunnel)
    requires Inv(s) && Guarded(s, t)
    ensures Guarded(Step(cfg, s, e), t)
  {
    hide Step, Clean, Ended, OwnOf, Ranked, RestartsOk, JobsOk, RunHead;
    var n := Step(cfg, s, e);
    EngineKept(cfg, s, e, t);
    if s.engine != Some(t) {
      ElsewhereHead(cfg, s, e, t);
    } else if Clean(s, t) {
      StepGrows(cfg, s, e);
      if e.RunJob? {
        RunJobStep(cfg, s, e.ok);
        CleanHead(cfg, s, e.ok, t);
      } else {
        CleanOther(cfg, s, e, t);
        RestartBlocks(s);
        OwnKept(s, n, t);
      }
    } else {
      GuardedEnded(cfg, s, e, t);
    }
  }

  lemma GuardedEnded(cfg: Config, s: State, e: Event, t: Tunnel)
    requires RestartsOk(s) && s.engine == Some(t) && t.start < s.starts && Ended(s) && OwnOf(s, t.start)
    ensures OwnOf(Step(cfg, s, e), t.start)
    ensures Step(cfg, s, e).engine == Some(t) ==> Ended(Step(cfg, s, e))
  {
    hide Step, OwnOf, RestartsOk, Doomed;
    var m: nat :| Doomed(s, m);
    DoomedKept(cfg, s, e, t, m);
    StepGrows(cfg, s, e);
    RestartBlocks(s);
    OwnKept(s, Step(cfg, s, e), t);
  }

  lemma {:induction false} RunGuarded(cfg: Config, s: State, more: seq<Event>, t: Tunnel)
    requires Inv(s) && Guarded(s, t)
    ensures Guarded(RunFrom(cfg, s, more), t)
    decreases |more|
  {
    hide Inv, Guarded, Step;
    if more != [] {
      StepInv(cfg, s, more[0]);
      GuardedKept(cfg, s, more[0], t);
      RunGuarded(cfg, Step(cfg, s, more[0]), more[1..], t);
    }
  }

  /** What a start at the head of the queue has to find: a stop behind it, or no update that is
      about to schedule and no current block waiting (which a start that takes a generation
      supersedes itself). */
  ghost predicate SafeStart(cfg: Config, s: State)
    requires s.jobs != []
  {
    StopJob in s.jobs[1..] || (s.checks == [] && (cfg.startBumps || NothingWaits(s)))
  }

  lemma SafeStartGuards(cfg: Config, s: State)
    requires Known(s) && s.jobs != [] && s.jobs[0].StartJob? && SafeStart(cfg, s)
    ensures Guarded(Step(cfg, s, RunJob(true)), Tunnel(s.starts, s.stops))
  {
    var n, t := Step(cfg, s, RunJob(true)), Tunnel(s.starts, s.stops);
    StartFacts(cfg, s);
    OwnYet(cfg, s);
    hide Step, OwnOf;
    if StopJob in s.jobs[1..] {
      StepGrows(cfg, s, RunJob(true));
      var m: nat :| m < |s.jobs[1..]| && s.jobs[1..][m] == StopJob;
      forall a: nat | a < m
        ensures Superseded(n, n.jobs[a])
      {
        assert s.jobs[m + 1].StopJob? && Superseded(s, s.jobs[a + 1]);
        StaysSuperseded(s, n, s.jobs[a + 1]);
      }
      assert Doomed(n, m);
    } else {
      assert Clean(n, t);
    }
  }

  lemma StartFacts(cfg: Config, s: State)
    requires s.jobs != [] && s.jobs[0].StartJob?
    ensures var n := Step(cfg, s, RunJob(true));
            && n.jobs == s.jobs[1..] && n.engine == Some(Tunnel(s.starts, s.stops)) && n.starts == s.starts + 1
            && n.blocks == s.blocks && n.checks == s.checks && n.restarts == s.restarts && n.now == s.now
            && n.restartGen == s.restartGen + if cfg.startBumps then 1 else 0
  {
  }

  lemma OwnYet(cfg: Config, s: State)
    requires Numbered(s) && s.jobs != [] && s.jobs[0].StartJob?
    ensures OwnOf(Step(cfg, s, RunJob(true)), s.starts)
  {
    StartFacts(cfg, s);
  }

  /** A safe start is never followed by a restart of its tunnel for an event from before it. */
  lemma SafeStartIsSafe(cfg: Config, s: State, more: seq<Event>)
    requires Known(s) && s.jobs != [] && s.jobs[0].StartJob? && SafeStart(cfg, s)
    ensures OwnOf(RunFrom(cfg, Step(cfg, s, RunJob(true)), more), s.starts)
  {
    hide Fold, Inv, Step, SafeStart;
    StepInv(cfg, s, RunJob(true));
    SafeStartGuards(cfg, s);
    RunGuarded(cfg, Step(cfg, s, RunJob(true)), more, Tunnel(s.starts, s.stops));
  }

  // ---------------------------------------------------------------------
  // The other direction: a start that is not safe, and what may follow it.
  // ---------------------------------------------------------------------

  /** The queue has been carried out without a stop, a start or a restart: blocks of the current
      generation are as they were, and none of them was on the queue. */
  ghost predicate Drained(s: State, n: State) {
    && n.jobs == [] && n.engine == s.engine && n.checks == s.checks && n.restartGen == s.restartGen
    && |n.blocks| == |s.blocks|
    && (forall k: nat :: k < |s.blocks| ==>
          n.blocks[k].gen == s.blocks[k].gen && n.blocks[k].cause == s.blocks[k].cause)
    && forall k: nat :: k < |s.blocks| && s.blocks[k].gen == s.restartGen ==>
         n.blocks[k] == s.blocks[k] && RestartJob(k) !in s.jobs
  }

  /** No block is of an event seen with tunnel `t` running. */
  ghost predicate Foreign(s: State, t: Tunnel) {
    forall k: nat :: k < |s.blocks| ==> s.blocks[k].cause != Some(t)
  }

  /** A job carried out without success: it changes nothing, or it restarts `t` for a block that is
      not its own. */
  lemma FailedHead(cfg: Config, s: State, t: Tunnel)
    requires s.engine == Some(t) && s.jobs != [] && !s.jobs[0].StopJob? && Foreign(s, t)
    ensures var n := Step(cfg, s, RunJob(false));
            || !OwnOf(n, t.start)
            || Drained(s.(jobs := [s.jobs[0]]), n.(jobs := []))
    ensures Step(cfg, s, RunJob(false)).jobs == s.jobs[1..]
  {
    var n := Step(cfg, s, RunJob(false));
    if n.restarts != s.restarts {
      var r := n.restarts[|s.restarts|];
      assert n.blocks[r.block].cause == s.blocks[r.block].cause;
    }
  }

  /** Carrying out the whole queue without success restarts `t` for a foreign block, unless no
      current block is on it. */
  lemma {:induction false} Drains(cfg: Config, s: State, t: Tunnel) returns (more: seq<Event>)
    requires s.engine == Some(t) && StopJob !in s.jobs && Foreign(s, t)
    ensures var n := RunFrom(cfg, s, more); !OwnOf(n, t.start) || Drained(s, n)
    decreases |s.jobs|
  {
    if s.jobs == [] {
      more := [];
    } else {
      var n := Step(cfg, s, RunJob(false));
      FailedHead(cfg, s, t);
      hide Step, OwnOf;
      if OwnOf(n, t.start) {
        var rest := Drains(cfg, n, t);
        more := [RunJob(false)] + rest;
        assert more[1..] == rest;
        assert forall k: nat :: RestartJob(k) in s.jobs ==> RestartJob(k) in [s.jobs[0]] || RestartJob(k) in n.jobs;
      } else {
        more := [RunJob(false)];
        assert more[1..] == [];
      }
    }
  }

  /** The waiting block, let through: armed if it is not yet, its time awaited, and carried out. */
  function LetThrough(s: State, k: nat): seq<Event>
    requires k < |s.blocks|
  {
    var due := if s.blocks[k].stage.Armed? then s.blocks[k].stage.due else s.now + QUIET_MS;
    [Arm(k), Tick(due), Fire(k), RunJob(true)]
  }

  lemma WaitingFires(cfg: Config, s: State, k: nat)
    requires k < |s.blocks| && s.blocks[k].gen == s.restartGen && s.jobs == []
    requires s.blocks[k].stage.Bumped? || s.blocks[k].stage.Armed?
    ensures var due := if s.blocks[k].stage.Armed? then s.blocks[k].stage.due else s.now + QUIET_MS;
            var fired := Step(cfg, Step(cfg, Step(cfg, s, Arm(k)), Tick(due)), Fire(k));
            && fired.jobs == [RestartJob(k)] && fired.restartGen == s.restartGen && fired.engine == s.engine
            && |fired.blocks| == |s.blocks| && fired.blocks[k] == s.blocks[k].(stage := Queued)
  {
  }

  lemma WaitingRestarts(cfg: Config, s: State, k: nat)
    requires k < |s.blocks| && s.blocks[k].gen == s.restartGen && s.jobs == []
    requires s.blocks[k].stage.Bumped? || s.blocks[k].stage.Armed?
    requires s.engine.Some? && s.blocks[k].cause != s.engine
    ensures !OwnOf(RunFrom(cfg, s, LetThrough(s, k)), s.engine.value.start)
  {
    var due := if s.blocks[k].stage.Armed? then s.blocks[k].stage.due else s.now + QUIET_MS;
    Fold4(Stepper(cfg), s, Arm(k), Tick(due), Fire(k), RunJob(true));
    WaitingFires(cfg, s, k);
    hide Fold, Step;
    var fired := Step(cfg, Step(cfg, Step(cfg, s, Arm(k)), Tick(due)), Fire(k));
    ForeignRecorded(cfg, fired, true);
    StepGrows(cfg, fired, RunJob(true));
    var n := Step(cfg, fired, RunJob(true));
    assert n.restarts[|fired.restarts|] == Restart(k, s.restartGen, fired.now, s.engine.value);
  }

  /** An update that passed its check before the start schedules after it. */
  lemma CheckRestarts(cfg: Config, s: State) returns (more: seq<Event>)
    requires s.jobs == [] && s.checks != [] && s.engine.Some? && s.checks[0] != s.engine
    ensures !OwnOf(RunFrom(cfg, s, more), s.engine.value.start)
  {
    var n := Step(cfg, s, PathSchedule);
    more := [PathSchedule] + LetThrough(n, |s.blocks|);
    assert more[1..] == LetThrough(n, |s.blocks|);
    WaitingRestarts(cfg, n, |s.blocks|);
  }

  lemma UnsafeStartFollows(cfg: Config, s: State) returns (more: seq<Event>)
    requires Known(s) && s.jobs != [] && s.jobs[0].StartJob? && !SafeStart(cfg, s)
    ensures !OwnOf(RunFrom(cfg, Step(cfg, s, RunJob(true)), more), s.starts)
  {
    var up, t := Step(cfg, s, RunJob(true)), Tunnel(s.starts, s.stops);
    StartFacts(cfg, s);
    hide Step, OwnOf, Fold, Inv, StopsSupersede;
    more := Drains(cfg, up, t);
    var n := RunFrom(cfg, up, more);
    if OwnOf(n, t.start) {
      var last;
      if s.checks != [] {
        last := CheckRestarts(cfg, n);
      } else {
        var k: nat :| k < |s.blocks| && s.blocks[k].gen == s.restartGen && !s.blocks[k].stage.Over?;
        QueuedBehind(s, k);
        WaitingRestarts(cfg, n, k);
        last := LetThrough(n, k);
      }
      FoldConcat(Stepper(cfg), up, more, last);
      more := more + last;
    }
  }

  lemma QueuedBehind(s: State, k: nat)
    requires QueuedHaveJobs(s) && s.jobs != [] && s.jobs[0].StartJob? && k < |s.blocks|
    ensures s.blocks[k].stage.Queued? ==> RestartJob(k) in s.jobs[1..]
  {
  }

  /** In every run, and whatever else is on the control queue: a start carried out is never followed
      by a restart of the new tunnel for an event from before it, exactly when a stop is behind it
      on the queue, or no update is about to schedule and no block of the current generation is
      waiting (or the start supersedes it). */
  lemma {:induction false} StartIsSafeIff(cfg: Config, events: seq<Event>)
    requires Run(cfg, events).jobs != [] && Run(cfg, events).jobs[0].StartJob?
    ensures var s := Run(cfg, events);
            (forall more: seq<Event> :: OwnOf(RunFrom(cfg, Step(cfg, s, RunJob(true)), more), s.starts))
            <==> SafeStart(cfg, s)
  {
    var s := Run(cfg, events);
    ReachableKnown(cfg, events);
    hide Fold, Step, OwnOf, Known, SafeStart;
    if SafeStart(cfg, s) {
      forall more: seq<Event>
        ensures OwnOf(RunFrom(cfg, Step(cfg, s, RunJob(true)), more), s.starts)
      {
        SafeStartIsSafe(cfg, s, more);
      }
    } else {
      var more := UnsafeStartFollows(cfg, s);
    }
  }

  /** The code as written. */
  lemma {:induction false} AsWrittenStartIsSafeIff(events: seq<Event>)
    requires Run(AS_WRITTEN, events).jobs != [] && Run(AS_WRITTEN, events).jobs[0].StartJob?
    ensures var s := Run(AS_WRITTEN, events);
            (forall more: seq<Event> :: OwnOf(RunFrom(AS_WRITTEN, Step(AS_WRITTEN, s, RunJob(true)), more), s.starts))
            <==> StopJob in s.jobs[1..] || (s.checks == [] && NothingWaits(s))
  {
    StartIsSafeIff(AS_WRITTEN, events);
    hide Fold, Step, OwnOf;
  }
}
