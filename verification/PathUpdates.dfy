/** What a path update asks for, told from the list of events alone: which monitor is live, which
    updates it has reported, and which of them was the latest. */
module PathUpdates {
  import opened Common
  import opened Runs
  import opened Debounce

  /** The job at the head of the control queue when event `j` comes. */
  ghost predicate HeadAt(cfg: Config, events: seq<Event>, j: nat, job: Job)
    requires j <= |events|
  {
    var jobs := Run(cfg, events[..j]).jobs;
    jobs != [] && jobs[0] == job
  }

  /** Event `j` carries out a start whose engine comes up. */
  ghost predicate StartAt(cfg: Config, events: seq<Event>, j: nat) {
    j < |events| && events[j] == RunJob(true) && HeadAt(cfg, events, j, StartJob)
  }

  ghost predicate StopAt(cfg: Config, events: seq<Event>, j: nat) {
    j < |events| && events[j].RunJob? && HeadAt(cfg, events, j, StopJob)
  }

  ghost predicate SwitchAt(cfg: Config, events: seq<Event>, j: nat) {
    StartAt(cfg, events, j) || StopAt(cfg, events, j)
  }

  /** The starts and stops carried out. */
  ghost function Switches(cfg: Config, events: seq<Event>): nat {
    if events == [] then 0
    else Switches(cfg, events[..|events| - 1]) + if SwitchAt(cfg, events, |events| - 1) then 1 else 0
  }

  /** The start at `j` made this monitor: monitors are numbered with the starts and stops. */
  ghost predicate MadeAt(cfg: Config, events: seq<Event>, j: nat, monitor: nat) {
    StartAt(cfg, events, j) && monitor == 1 + Switches(cfg, events[..j])
  }

  /** A monitor is live from its start to the next start or stop carried out. */
  ghost predicate Live(cfg: Config, events: seq<Event>, monitor: nat) {
    exists j: nat :: MadeAt(cfg, events, j, monitor) && forall k: nat :: j < k ==> !SwitchAt(cfg, events, k)
  }

  predicate Reports(cfg: Config, e: Event, monitor: nat) {
    && (e.PathUpdate? || (e.PathCheck? && !cfg.atomicPath))
    && e.monitor == monitor
  }

  /** Event `i` is an update of the monitor while it is live. */
  ghost predicate SeenAt(cfg: Config, events: seq<Event>, i: nat, monitor: nat): (seen: bool)
    ensures seen ==> i < |events| && Reports(cfg, events[i], monitor)
  {
    i < |events| && Reports(cfg, events[i], monitor) && Live(cfg, events[..i], monitor)
  }

  ghost predicate LatestAt(cfg: Config, events: seq<Event>, i: nat, monitor: nat) {
    SeenAt(cfg, events, i, monitor) && forall k: nat :: i < k ==> !SeenAt(cfg, events, k, monitor)
  }

  /** Any two unsatisfied paths are alike, and none is like a satisfied one. */
  predicate Differs(path: Path, latest: Path) {
    !latest.satisfied || path != latest
  }

  /** An update asks for a restart when its monitor is live, its path is satisfied, and an update of
      that monitor came before, the latest of which had another path. */
  ghost predicate Asks(cfg: Config, events: seq<Event>, monitor: nat, path: Path) {
    && Live(cfg, events, monitor) && path.satisfied
    && exists i: nat :: LatestAt(cfg, events, i, monitor) && Differs(path, events[i].path)
  }

  // ---------------------------------------------------------------------
  // One more event.
  // ---------------------------------------------------------------------

  lemma RunSnoc(cfg: Config, events: seq<Event>, e: Event)
    ensures Run(cfg, events + [e]) == Step(cfg, Run(cfg, events), e)
  {
    hide Step;
    FoldSnoc(Stepper(cfg), INITIAL, events, e);
  }

  lemma EarlierPrefix(events: seq<Event>, e: Event, j: nat)
    requires j <= |events|
    ensures (events + [e])[..j] == events[..j]
  {
  }

  lemma SwitchKept(cfg: Config, events: seq<Event>, e: Event, j: nat)
    requires j < |events|
    ensures StartAt(cfg, events + [e], j) == StartAt(cfg, events, j)
    ensures StopAt(cfg, events + [e], j) == StopAt(cfg, events, j)
  {
    hide Run;
    EarlierPrefix(events, e, j);
  }

  lemma SwitchesSnoc(cfg: Config, events: seq<Event>, e: Event)
    ensures Switches(cfg, events + [e])
         == Switches(cfg, events) + if SwitchAt(cfg, events + [e], |events|) then 1 else 0
  {
    hide SwitchAt;
    EarlierPrefix(events, e, |events|);
    assert events[..|events|] == events;
  }

  lemma {:induction false} SwitchesGrow(cfg: Config, events: seq<Event>, i: nat)
    requires i <= |events|
    ensures Switches(cfg, events[..i]) <= Switches(cfg, events)
    decreases |events|
  {
    hide SwitchAt;
    if i == |events| {
      assert events[..i] == events;
    } else {
      var before := events[..|events| - 1];
      SwitchesGrow(cfg, before, i);
      assert before[..i] == events[..i];
    }
  }

  lemma LastSwitch(cfg: Config, events: seq<Event>, e: Event)
    ensures var jobs := Run(cfg, events).jobs;
            && (StartAt(cfg, events + [e], |events|) <==> e == RunJob(true) && jobs != [] && jobs[0] == StartJob)
            && (StopAt(cfg, events + [e], |events|) <==> e.RunJob? && jobs != [] && jobs[0] == StopJob)
    ensures SwitchAt(cfg, events + [e], |events|)
       <==> StartAt(cfg, events + [e], |events|) || StopAt(cfg, events + [e], |events|)
  {
    hide Run;
    assert (events + [e])[..|events|] == events;
  }

  /** A switch decides which monitor is live; any other event leaves it. */
  lemma LiveSnoc(cfg: Config, events: seq<Event>, e: Event, monitor: nat)
    ensures Live(cfg, events + [e], monitor) <==>
              if SwitchAt(cfg, events + [e], |events|)
              then StartAt(cfg, events + [e], |events|) && monitor == 1 + Switches(cfg, events)
              else Live(cfg, events, monitor)
  {
    hide Run, HeadAt, Switches;
    var n := events + [e];
    assert n[..|events|] == events;
    forall j: nat | j < |events|
      ensures StartAt(cfg, n, j) == StartAt(cfg, events, j) && SwitchAt(cfg, n, j) == SwitchAt(cfg, events, j)
      ensures MadeAt(cfg, n, j, monitor) == MadeAt(cfg, events, j, monitor)
    {
      SwitchKept(cfg, events, e, j);
      EarlierPrefix(events, e, j);
    }
    if SwitchAt(cfg, n, |events|) {
      if MadeAt(cfg, n, |events|, monitor) {
        assert forall k: nat :: |events| < k ==> !SwitchAt(cfg, n, k);
      }
    } else {
      if Live(cfg, events, monitor) {
        var j: nat :| MadeAt(cfg, events, j, monitor) && forall k: nat :: j < k ==> !SwitchAt(cfg, events, k);
        assert MadeAt(cfg, n, j, monitor);
      }
      if Live(cfg, n, monitor) {
        var j: nat :| MadeAt(cfg, n, j, monitor) && forall k: nat :: j < k ==> !SwitchAt(cfg, n, k);
        assert MadeAt(cfg, events, j, monitor);
      }
    }
  }

  lemma SeenSnoc(cfg: Config, events: seq<Event>, e: Event, i: nat, monitor: nat)
    ensures SeenAt(cfg, events + [e], i, monitor) <==>
              if i == |events| then Reports(cfg, e, monitor) && Live(cfg, events, monitor)
              else SeenAt(cfg, events, i, monitor)
  {
    hide Live, Reports;
    if i <= |events| { EarlierPrefix(events, e, i); }
    assert events[..|events|] == events;
  }

  // ---------------------------------------------------------------------
  // The generation and the remembered path.
  // ---------------------------------------------------------------------

  /** What a step does to the monitors. */
  lemma StepMonitors(cfg: Config, s: State, e: Event)
    ensures var n := Step(cfg, s, e);
            if e == RunJob(true) && s.jobs != [] && s.jobs[0] == StartJob then
              n.pathGen == s.pathGen + 1 && n.monitors == s.monitors + {s.pathGen + 1} && n.lastPath == None
            else if e.RunJob? && s.jobs != [] && s.jobs[0] == StopJob then
              n.pathGen == s.pathGen + 1 && n.monitors == s.monitors
            else
              && n.pathGen == s.pathGen && n.monitors == s.monitors
              && (n.lastPath == s.lastPath
                  || ((e.PathUpdate? || e.PathCheck?) && Reports(cfg, e, s.pathGen) && s.pathGen in s.monitors))
  {
  }

  /** The generation compared by the code counts the switches, so it passes exactly the live monitor. */
  lemma {:induction false} LiveIff(cfg: Config, events: seq<Event>, monitor: nat)
    ensures Run(cfg, events).pathGen == Switches(cfg, events)
    ensures forall m <- Run(cfg, events).monitors :: m <= Switches(cfg, events)
    ensures FromLiveMonitor(Run(cfg, events), monitor) <==> Live(cfg, events, monitor)
    decreases |events|
  {
    hide Step, Live, SwitchAt, StartAt, StopAt;
    if events == [] {
      NoneLive(cfg, monitor);
    } else {
      var before, e := events[..|events| - 1], events[|events| - 1];
      assert events == before + [e];
      LiveIff(cfg, before, monitor);
      RunSnoc(cfg, before, e);
      SwitchesSnoc(cfg, before, e);
      LiveSnoc(cfg, before, e, monitor);
      LastSwitch(cfg, before, e);
      StepMonitors(cfg, Run(cfg, before), e);
    }
  }

  lemma NoneLive(cfg: Config, monitor: nat)
    ensures !Live(cfg, [], monitor) && Run(cfg, []) == INITIAL
  {
    assert forall j: nat :: !StartAt(cfg, [], j);
  }

  /** The path on record is the latest the monitor reported. */
  ghost predicate Recorded(cfg: Config, events: seq<Event>, monitor: nat) {
    match Run(cfg, events).lastPath
    case None => forall i: nat :: !SeenAt(cfg, events, i, monitor)
    case Some(l) => exists i: nat :: LatestAt(cfg, events, i, monitor) && l == Observed(events[i].path)
  }

  /** A monitor that has only now been made has reported nothing. */
  lemma NothingSeen(cfg: Config, events: seq<Event>, e: Event, monitor: nat)
    requires monitor == 1 + Switches(cfg, events) && e.RunJob?
    ensures forall i: nat :: !SeenAt(cfg, events + [e], i, monitor)
  {
    hide Live, Switches, Run;
    forall i: nat
      ensures !SeenAt(cfg, events + [e], i, monitor)
    {
      SeenSnoc(cfg, events, e, i, monitor);
      if SeenAt(cfg, events, i, monitor) {
        LiveIff(cfg, events[..i], monitor);
        SwitchesGrow(cfg, events, i);
      }
    }
  }

  lemma RecordedReport(cfg: Config, events: seq<Event>, e: Event, monitor: nat)
    requires Live(cfg, events, monitor) && Reports(cfg, e, monitor)
    requires Run(cfg, events + [e]).lastPath == Some(Observed(e.path))
    ensures Recorded(cfg, events + [e], monitor)
  {
    hide Live, Run, SeenAt;
    var n := events + [e];
    SeenSnoc(cfg, events, e, |events|, monitor);
    assert forall k: nat :: |events| < k ==> !SeenAt(cfg, n, k, monitor) by {
      forall k: nat | |events| < k ensures !SeenAt(cfg, n, k, monitor) { PastTheEnd(cfg, n, k, monitor); }
    }
    assert LatestAt(cfg, n, |events|, monitor) && n[|events|] == e;
  }

  lemma PastTheEnd(cfg: Config, events: seq<Event>, k: nat, monitor: nat)
    requires k >= |events|
    ensures !SeenAt(cfg, events, k, monitor)
  {
  }

  lemma RecordedKept(cfg: Config, events: seq<Event>, e: Event, monitor: nat)
    requires Recorded(cfg, events, monitor) && !(Live(cfg, events, monitor) && Reports(cfg, e, monitor))
    requires Run(cfg, events + [e]).lastPath == Run(cfg, events).lastPath
    ensures Recorded(cfg, events + [e], monitor)
  {
    hide Live, Run, SeenAt;
    var n := events + [e];
    forall i: nat
      ensures SeenAt(cfg, n, i, monitor) == SeenAt(cfg, events, i, monitor)
    {
      SeenSnoc(cfg, events, e, i, monitor);
      if i == |events| { PastTheEnd(cfg, events, i, monitor); }
    }
    if Run(cfg, events).lastPath.Some? {
      var i: nat :| LatestAt(cfg, events, i, monitor) && Run(cfg, events).lastPath.value == Observed(events[i].path);
      assert LatestAt(cfg, n, i, monitor) && n[i] == events[i];
    }
  }

  lemma {:induction false} LiveRecorded(cfg: Config, events: seq<Event>, monitor: nat)
    requires Live(cfg, events, monitor)
    ensures Recorded(cfg, events, monitor)
    decreases |events|
  {
    hide Step, Live, SwitchAt, StartAt, StopAt, Recorded, Switches;
    if events == [] {
      NoneLive(cfg, monitor);
    } else {
      var before, e := events[..|events| - 1], events[|events| - 1];
      assert events == before + [e];
      RunSnoc(cfg, before, e);
      LiveSnoc(cfg, before, e, monitor);
      LastSwitch(cfg, before, e);
      LiveIff(cfg, before, monitor);
      StepMonitors(cfg, Run(cfg, before), e);
      if SwitchAt(cfg, events, |before|) {
        NothingSeen(cfg, before, e, monitor);
        NothingRecorded(cfg, events, monitor);
      } else {
        LiveRecorded(cfg, before, monitor);
        if Reports(cfg, e, monitor) {
          StepRecords(cfg, Run(cfg, before), e, monitor);
          RecordedReport(cfg, before, e, monitor);
        } else {
          RecordedKept(cfg, before, e, monitor);
        }
      }
    }
  }

  lemma NothingRecorded(cfg: Config, events: seq<Event>, monitor: nat)
    requires Run(cfg, events).lastPath == None && forall i: nat :: !SeenAt(cfg, events, i, monitor)
    ensures Recorded(cfg, events, monitor)
  {
    hide SeenAt, Run;
  }

  lemma StepRecords(cfg: Config, s: State, e: Event, monitor: nat)
    requires FromLiveMonitor(s, monitor) && Reports(cfg, e, monitor)
    ensures Step(cfg, s, e).lastPath == Some(Observed(e.path))
  {
  }

  // ---------------------------------------------------------------------
  // What an update asks for.
  // ---------------------------------------------------------------------

  /** The comparison the code makes is the question put to the list of events. */
  lemma {:induction false} ComparesWithLatest(cfg: Config, events: seq<Event>, monitor: nat, path: Path)
    ensures FromLiveMonitor(Run(cfg, events), monitor) && ShouldRestart(Run(cfg, events).lastPath, Observed(path))
       <==> Asks(cfg, events, monitor, path)
  {
    hide Live, Run, FromLiveMonitor, SeenAt, ShouldRestart;
    LiveIff(cfg, events, monitor);
    if Live(cfg, events, monitor) {
      LiveRecorded(cfg, events, monitor);
      var last := Run(cfg, events).lastPath;
      RestartsOnChange(last, path);
      if last.Some? {
        var i: nat :| LatestAt(cfg, events, i, monitor) && last.value == Observed(events[i].path);
          OneLatest(cfg, events, monitor, i);
      }
    }
  }

  lemma OneLatest(cfg: Config, events: seq<Event>, monitor: nat, i: nat)
    requires LatestAt(cfg, events, i, monitor)
    ensures forall j: nat :: LatestAt(cfg, events, j, monitor) ==> j == i
  {
    hide SeenAt;
  }

  /** Over all runs, an update schedules a restart, in one step or in two, exactly when it asks for
      one; otherwise it takes no generation and makes no block. */
  lemma {:induction false} UpdateRestartsIff(cfg: Config, events: seq<Event>, monitor: nat, path: Path)
    ensures var s, n := Run(cfg, events), Run(cfg, events + [PathUpdate(monitor, path)]);
            if Asks(cfg, events, monitor, path) then
              n.restartGen == s.restartGen + 1 && n.blocks == s.blocks + [Block(n.restartGen, s.engine, Bumped)]
            else
              n.restartGen == s.restartGen && n.blocks == s.blocks
    ensures var s, n := Run(cfg, events), Run(cfg, events + [PathCheck(monitor, path)]);
            && n.restartGen == s.restartGen && n.blocks == s.blocks
            && n.checks == s.checks + if Asks(cfg, events, monitor, path) && !cfg.atomicPath then [s.engine] else []
    ensures !Live(cfg, events, monitor) ==> Run(cfg, events + [PathUpdate(monitor, path)]) == Run(cfg, events)
  {
    hide Live, Asks, ShouldRestart, Run, Step;
    ComparesWithLatest(cfg, events, monitor, path);
    LiveIff(cfg, events, monitor);
    RunSnoc(cfg, events, PathUpdate(monitor, path));
    RunSnoc(cfg, events, PathCheck(monitor, path));
    StepSchedules(cfg, Run(cfg, events), monitor, path);
  }

  lemma StepSchedules(cfg: Config, s: State, monitor: nat, path: Path)
    ensures var n := Step(cfg, s, PathUpdate(monitor, path));
            if FromLiveMonitor(s, monitor) && ShouldRestart(s.lastPath, Observed(path)) then
              n.restartGen == s.restartGen + 1 && n.blocks == s.blocks + [Block(n.restartGen, s.engine, Bumped)]
            else n.restartGen == s.restartGen && n.blocks == s.blocks && (!FromLiveMonitor(s, monitor) ==> n == s)
    ensures var n := Step(cfg, s, PathCheck(monitor, path));
            && n.restartGen == s.restartGen && n.blocks == s.blocks
            && n.checks == s.checks
                 + if FromLiveMonitor(s, monitor) && ShouldRestart(s.lastPath, Observed(path)) && !cfg.atomicPath
                   then [s.engine] else []
  {
    hide ShouldRestart;
  }
}
