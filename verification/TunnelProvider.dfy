/** The provider object of the extension. Its callbacks and queued blocks are run as a whole, except
    that other queues may run in the middle of a path update. */
module TunnelProvider {
  import opened Common
  import opened Runs
  import opened Debounce
  import opened PathUpdates
  import opened TunnelStarts

  lemma QueuedBlocksExist(history: seq<Event>)
    ensures var s := Run(AS_WRITTEN, history);
            s.jobs != [] && s.jobs[0].RestartJob? ==> s.jobs[0].block < |s.blocks|
  {
    ReachableInv(AS_WRITTEN, history);
  }

  lemma ScheduledBlock(s: State, cause: Option<Tunnel>)
    ensures var n := ArmBlock(Schedule(s, cause), |s.blocks|);
            && n.restartGen == s.restartGen + 1 && n.checks == s.checks && n.now == s.now && n.engine == s.engine
            && n.blocks == s.blocks + [Block(s.restartGen + 1, cause, Armed(s.now + QUIET_MS))]
  {
  }

  /** The fields of the provider, the delayed blocks, the control queue, and the path updates that
      are past their check (`checks`, with the tunnel each saw). `history` is the run of steps they
      amount to, so that what is proved of all runs of the code as written holds of the object. */
  class PacketTunnelProvider {
    var engine: Option<Tunnel>
    var restartGeneration: nat
    var pathGeneration: nat
    var monitors: set<nat>
    var havePath: bool
    var lastSatisfied: bool
    var lastInterface: Interface
    var lastHasIPv4: bool
    var lastHasIPv6: bool
    var blocks: seq<Block>
    var controlQueue: seq<Job>
    var now: nat
    var starts: nat
    var stops: nat
    var checks: seq<Option<Tunnel>>
    ghost var restarts: seq<Restart>
    ghost var history: seq<Event>

    ghost function Value(): State
      reads this
    {
      State(now, restartGeneration, pathGeneration, monitors,
            if havePath then Some(Path(lastSatisfied, lastInterface, lastHasIPv4, lastHasIPv6)) else None,
            blocks, controlQueue, engine, starts, stops, checks, restarts)
    }

    ghost predicate Valid()
      reads this
    {
      Value() == Run(AS_WRITTEN, history)
    }

    constructor ()
      ensures Valid() && history == []
    {
      engine := None;
      restartGeneration, pathGeneration, now, starts, stops := 0, 0, 0, 0, 0;
      monitors := {};
      havePath, lastSatisfied, lastHasIPv4, lastHasIPv6 := false, false, false, false;
      lastInterface := Other;
      blocks, controlQueue, checks, restarts, history := [], [], [], [], [];
    }

    /** Time goes by. */
    method Elapse(elapsed: nat)
      requires Valid()
      modifies this`now, this`history
      ensures Valid() && now == old(now) + elapsed && history == old(history) + [Tick(elapsed)]
    {
      hide Fold;
      FoldSnoc(Stepper(AS_WRITTEN), INITIAL, history, Tick(elapsed));
      history := history + [Tick(elapsed)];
      now := now + elapsed;
    }

    method StartTunnel()
      requires Valid()
      modifies this
      ensures Valid() && history == old(history) + [CallStart]
    {
      hide Fold;
      FoldSnoc(Stepper(AS_WRITTEN), INITIAL, history, CallStart);
      history := history + [CallStart];
      controlQueue := controlQueue + [StartJob];
    }

    method StopTunnel()
      requires Valid()
      modifies this
      ensures Valid() && history == old(history) + [CallStop]
      ensures restartGeneration == old(restartGeneration) + 1 && blocks == old(blocks)
    {
      hide Fold;
      FoldSnoc(Stepper(AS_WRITTEN), INITIAL, history, CallStop);
      history := history + [CallStop];
      restartGeneration := restartGeneration + 1;
      controlQueue := controlQueue + [StopJob];
    }

    method SleepDevice()
      requires Valid()
      modifies this
      ensures Valid() && history == old(history) + [Sleep]
      ensures restartGeneration == old(restartGeneration) + 1 && blocks == old(blocks)
    {
      hide Fold;
      FoldSnoc(Stepper(AS_WRITTEN), INITIAL, history, Sleep);
      history := history + [Sleep];
      restartGeneration := restartGeneration + 1;
    }

    /** `seen` is the tunnel that was running when the event was seen. */
    method ScheduleEngineRestart(seen: Option<Tunnel>)
      modifies this`restartGeneration, this`blocks
      ensures Value() == ArmBlock(Schedule(old(Value()), seen), |old(blocks)|)
      ensures blocks != []
    {
      restartGeneration := restartGeneration + 1;
      blocks := blocks + [Block(restartGeneration, seen, Armed(now + QUIET_MS))];
    }

    method WakeDevice()
      requires Valid()
      modifies this
      ensures Valid() && history == old(history) + [Wake] + [Arm(|old(blocks)|)]
    {
      hide Fold;
      FoldSnoc(Stepper(AS_WRITTEN), INITIAL, history, Wake);
      FoldSnoc(Stepper(AS_WRITTEN), INITIAL, history + [Wake], Arm(|blocks|));
      ghost var k := |blocks|;
      ScheduleEngineRestart(engine);
      history := history + [Wake] + [Arm(k)];
    }

    /** The delayed block, run at its time or later. */
    method RunDelayedBlock(k: nat)
      requires Valid() && k < |blocks| && blocks[k].stage.Armed? && blocks[k].stage.due <= now
      modifies this
      ensures Valid() && history == old(history) + [Fire(k)]
      ensures |blocks| == |old(blocks)| && (blocks[k].stage == Queued <==> blocks[k].gen == restartGeneration)
    {
      hide Fold;
      FoldSnoc(Stepper(AS_WRITTEN), INITIAL, history, Fire(k));
      history := history + [Fire(k)];
      if restartGeneration != blocks[k].gen {
        blocks := blocks[k := blocks[k].(stage := Over)];
        return;
      }
      blocks := blocks[k := blocks[k].(stage := Queued)];
      controlQueue := controlQueue + [RestartJob(k)];
    }

    method StartPathMonitor()
      modifies this`pathGeneration, this`monitors
      modifies this`havePath, this`lastSatisfied, this`lastInterface, this`lastHasIPv4, this`lastHasIPv6
      ensures pathGeneration == old(pathGeneration) + 1 && monitors == old(monitors) + {pathGeneration}
      ensures !havePath && !lastSatisfied && lastInterface == Other && !lastHasIPv4 && !lastHasIPv6
    {
      pathGeneration := pathGeneration + 1;
      havePath := false;
      lastSatisfied := false;
      lastInterface := Other;
      lastHasIPv4 := false;
      lastHasIPv6 := false;
      monitors := monitors + {pathGeneration};
    }

    method StopPathMonitor()
      modifies this`pathGeneration, this`restartGeneration
      ensures pathGeneration == old(pathGeneration) + 1 && restartGeneration == old(restartGeneration) + 1
    {
      pathGeneration := pathGeneration + 1;
      restartGeneration := restartGeneration + 1;
    }

    /** `restartEngineForGeneration:reason:` on the control queue. */
    method RestartEngine(k: nat, ok: bool) returns (restarted: bool)
      requires k < |blocks|
      modifies this
      ensures Value() == RunRestart(old(Value()), k, ok) && history == old(history)
      ensures restarted == (old(blocks[k].gen == restartGeneration) && old(engine).Some?)
      ensures engine == if restarted && !ok then None else old(engine)
    {
      var current := restartGeneration == blocks[k].gen;
      blocks := blocks[k := blocks[k].(stage := Over)];
      if !current { return false; }
      if engine.None? { return false; }
      restarts := restarts + [Restart(k, blocks[k].gen, now, engine.value)];
      if !ok { engine := None; }
      return true;
    }

    /** The start job. `ok` is whether the engine comes up. */
    method StartEngine(ok: bool)
      modifies this
      ensures Value() == RunStart(AS_WRITTEN, old(Value()), ok) && history == old(history)
      ensures engine == if ok then Some(Tunnel(old(starts), old(stops))) else old(engine)
      ensures restarts == old(restarts)
    {
      if !ok { return; }
      engine := Some(Tunnel(starts, stops));
      starts := starts + 1;
      StartPathMonitor();
    }

    method StopEngine()
      modifies this
      ensures Value() == RunStop(old(Value())) && history == old(history)
      ensures engine.None? && restarts == old(restarts)
    {
      StopPathMonitor();
      engine := None;
      stops := stops + 1;
    }

    /** The next job of the control queue. */
    method RunControlQueue(ok: bool)
      requires Valid() && controlQueue != []
      modifies this
      ensures Valid() && history == old(history) + [RunJob(ok)]
      ensures old(controlQueue[0]).StopJob? ==> engine.None? && restarts == old(restarts)
      ensures old(controlQueue[0]).StartJob? ==>
                && engine == (if ok then Some(Tunnel(old(starts), old(stops))) else old(engine))
                && restarts == old(restarts)
    {
      hide Fold, RunRestart, RunStart, RunStop;
      QueuedBlocksExist(history);
      FoldSnoc(Stepper(AS_WRITTEN), INITIAL, history, RunJob(ok));
      history := history + [RunJob(ok)];
      var job := controlQueue[0];
      controlQueue := controlQueue[1..];
      match job {
        case StartJob => StartEngine(ok);
        case StopJob => StopEngine();
        case RestartJob(k) => var _ := RestartEngine(k, ok);
      }
    }

    /** Compares the path with the last one seen and records it. */
    method ObservePath(path: Path) returns (changed: bool)
      modifies this`havePath, this`lastSatisfied, this`lastInterface, this`lastHasIPv4, this`lastHasIPv6
      ensures changed == ShouldRestart(old(Value()).lastPath, Observed(path))
      ensures Value() == SeePath(old(Value()), path)
    {
      var seen := Observed(path);
      changed := false;
      if !havePath {
        havePath := true;
      } else if seen.satisfied && !lastSatisfied {
        changed := true;
      } else if seen.satisfied && seen.interface != lastInterface {
        changed := true;
      } else if seen.satisfied && (seen.ipv4 != lastHasIPv4 || seen.ipv6 != lastHasIPv6) {
        changed := true;
      }
      lastSatisfied, lastInterface, lastHasIPv4, lastHasIPv6 := seen.satisfied, seen.interface, seen.ipv4, seen.ipv6;
    }

    /** First half of a path update: the monitor's generation is compared and the path observed. */
    method CheckPath(monitor: nat, path: Path) returns (changed: bool)
      requires Valid() && monitor in monitors
      modifies this
      ensures Valid() && history == old(history) + [PathCheck(monitor, path)]
      ensures changed == Asks(AS_WRITTEN, old(history), monitor, path)
      ensures changed == (monitor == old(pathGeneration) && ShouldRestart(old(Value()).lastPath, Observed(path)))
      ensures checks == old(checks) + if changed then [old(engine)] else []
      ensures blocks == old(blocks) && restartGeneration == old(restartGeneration)
    {
      hide Fold, ShouldRestart, Observed, Asks;
      ComparesWithLatest(AS_WRITTEN, history, monitor, path);
      FoldSnoc(Stepper(AS_WRITTEN), INITIAL, history, PathCheck(monitor, path));
      history := history + [PathCheck(monitor, path)];
      changed := false;
      if pathGeneration != monitor { return; }
      changed := ObservePath(path);
      if changed { checks := checks + [engine]; }
    }

    /** Second half, whatever ran in between: the restart is scheduled without another look at the
        monitor or the engine. */
    method ScheduleChecked()
      requires Valid() && checks != []
      modifies this
      ensures Valid() && history == old(history) + [PathSchedule] + [Arm(|old(blocks)|)]
      ensures checks == old(checks)[1..] && restartGeneration == old(restartGeneration) + 1
      ensures blocks == old(blocks) + [Block(restartGeneration, old(checks[0]), Armed(now + QUIET_MS))]
      ensures now == old(now) && engine == old(engine)
    {
      hide Fold, Schedule, ArmBlock;
      FoldSnoc(Stepper(AS_WRITTEN), INITIAL, history, PathSchedule);
      FoldSnoc(Stepper(AS_WRITTEN), INITIAL, history + [PathSchedule], Arm(|blocks|));
      ghost var k := |blocks|;
      var seen := checks[0];
      checks := checks[1..];
      ScheduledBlock(Value(), seen);
      ScheduleEngineRestart(seen);
      history := history + [PathSchedule] + [Arm(k)];
    }

    /** An update of the path monitor that was started as generation `monitor`, run as a whole. */
    method HandlePathUpdate(monitor: nat, path: Path) returns (scheduled: bool)
      requires Valid() && monitor in monitors
      modifies this
      ensures Valid()
      ensures scheduled == Asks(AS_WRITTEN, old(history), monitor, path)
      ensures scheduled == (monitor == old(pathGeneration) && ShouldRestart(old(Value()).lastPath, Observed(path)))
      ensures history == old(history) + [PathUpdate(monitor, path)] + if scheduled then [Arm(|old(blocks)|)] else []
    {
      hide Fold, ShouldRestart, Observed, Schedule, ArmBlock, Asks;
      ComparesWithLatest(AS_WRITTEN, history, monitor, path);
      FoldSnoc(Stepper(AS_WRITTEN), INITIAL, history, PathUpdate(monitor, path));
      FoldSnoc(Stepper(AS_WRITTEN), INITIAL, history + [PathUpdate(monitor, path)], Arm(|blocks|));
      ghost var k := |blocks|;
      history := history + [PathUpdate(monitor, path)];
      assert history + [] == history;
      scheduled := false;
      if pathGeneration != monitor { return; }
      scheduled := ObservePath(path);
      if scheduled {
        ScheduleEngineRestart(engine);
        history := history + [Arm(k)];
      }
    }
  }
}
