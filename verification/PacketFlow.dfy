/** The packet flow of the provider: every tunnel has an engine object of its own, with its own flag,
    epoch and handlers, and all of them read from this one flow. */
module PacketFlow {
  import opened Runs
  import ReadChain

  /** `atomicHandlers`: as in `ReadChain`. `again`: an engine may be started on the flow after
      another, or the same one, has been. The code as written does so for each tunnel. */
  datatype Config = Config(atomicHandlers: bool, again: bool)

  /** All engines ever made, each with the reads it has armed on the flow. */
  datatype State = State(engines: seq<ReadChain.State>)

  /** An engine is made; or one of the engines, or a handler of one of its reads, takes a step. */
  datatype Event = Make | At(engine: nat, event: ReadChain.Event)

  const INITIAL: State := State([])

  ghost predicate StartedOn(s: State) {
    exists i: nat :: i < |s.engines| && s.engines[i].used
  }

  function Objects(cfg: Config): ReadChain.Config {
    ReadChain.Config(cfg.atomicHandlers, cfg.again)
  }

  /** One atomic step; an event that is not enabled changes nothing. */
  ghost function Step(cfg: Config, s: State, e: Event): State {
    match e
    case Make => State(s.engines + [ReadChain.INITIAL])
    case At(i, event) =>
      if i >= |s.engines| || (event.Start? && !cfg.again && StartedOn(s)) then s
      else State(s.engines[i := ReadChain.Step(Objects(cfg), s.engines[i], event)])
  }

  ghost function Stepper(cfg: Config): (State, Event) -> State {
    (s, e) => Step(cfg, s, e)
  }

  ghost function RunFrom(cfg: Config, s: State, events: seq<Event>): State {
    Fold(Stepper(cfg), s, events)
  }

  ghost function Run(cfg: Config, events: seq<Event>): State {
    RunFrom(cfg, INITIAL, events)
  }

  // ---------------------------------------------------------------------
  // Outstanding reads of the flow.
  // ---------------------------------------------------------------------

  /** Read `k` of engine `i` is outstanding on the flow, or being handled. */
  ghost predicate OnFlow(s: State, i: nat, k: nat) {
    i < |s.engines| && ReadChain.Live(s.engines[i], k)
  }

  ghost predicate OneOnFlow(s: State) {
    forall i: nat, j: nat, a: nat, b: nat :: OnFlow(s, i, a) && OnFlow(s, j, b) ==> i == j && a == b
  }

  /** How many reads are, over all engines. */
  function Outstanding(engines: seq<ReadChain.State>): nat {
    if engines == [] then 0
    else Outstanding(engines[..|engines| - 1]) + ReadChain.Outstanding(engines[|engines| - 1].flow)
  }

  /** How many stops and failed restarts have been carried out: each bumps the epoch of its engine. */
  function Bumps(engines: seq<ReadChain.State>): nat {
    if engines == [] then 0 else Bumps(engines[..|engines| - 1]) + engines[|engines| - 1].epoch
  }

  /** The engine is up, or on its way down and not yet bumped. */
  predicate Holds(e: ReadChain.State) {
    ReadChain.Up(e) || e.pc.Bumping?
  }

  function Holding(engines: seq<ReadChain.State>): nat {
    if engines == [] then 0 else Holding(engines[..|engines| - 1]) + if Holds(engines[|engines| - 1]) then 1 else 0
  }

  // ---------------------------------------------------------------------
  // All runs.
  // ---------------------------------------------------------------------

  /** Every engine is in a state of its own runs; and one has been started if only one may be. */
  ghost predicate Inv(cfg: Config, s: State) {
    && (forall i: nat :: i < |s.engines| ==> ReadChain.Inv(Objects(cfg), s.engines[i]))
    && (!cfg.again ==>
          forall i: nat, j: nat ::
            i < |s.engines| && j < |s.engines| && s.engines[i].used && s.engines[j].used ==> i == j)
  }

  lemma FreshEngine(cfg: Config)
    ensures ReadChain.Inv(Objects(cfg), ReadChain.INITIAL)
  {
  }

  lemma OnlyStartsUse(cfg: ReadChain.Config, s: ReadChain.State, e: ReadChain.Event)
    requires ReadChain.Step(cfg, s, e).used && !s.used
    ensures e.Start?
  {
  }

  lemma StepInv(cfg: Config, s: State, e: Event)
    requires Inv(cfg, s)
    ensures Inv(cfg, Step(cfg, s, e))
  {
    hide ReadChain.Inv, ReadChain.Step;
    FreshEngine(cfg);
    if e.At? && e.engine < |s.engines| {
      var before := s.engines[e.engine];
      var after := ReadChain.Step(Objects(cfg), before, e.event);
      ReadChain.StepInv(Objects(cfg), before, e.event);
      if after.used && !before.used { OnlyStartsUse(Objects(cfg), before, e.event); }
    }
  }

  lemma {:induction false} RunInv(cfg: Config, s: State, events: seq<Event>)
    requires Inv(cfg, s)
    ensures Inv(cfg, RunFrom(cfg, s, events))
    decreases |events|
  {
    hide Inv, Step;
    if events != [] {
      StepInv(cfg, s, events[0]);
      RunInv(cfg, Step(cfg, s, events[0]), events[1..]);
    }
  }

  /** An engine never started has no read, and one started once has no two. */
  lemma StartedOnce(s: ReadChain.State, atomic: bool, a: nat, b: nat)
    requires ReadChain.Inv(ReadChain.Config(atomic, false), s)
    requires ReadChain.Live(s, a) && ReadChain.Live(s, b)
    ensures s.used && a == b
  {
  }

  lemma OnceOnFlow(cfg: Config, s: State)
    requires !cfg.again && Inv(cfg, s)
    ensures OneOnFlow(s)
  {
    hide ReadChain.Inv, ReadChain.Live;
    forall i: nat, j: nat, a: nat, b: nat | OnFlow(s, i, a) && OnFlow(s, j, b)
      ensures i == j && a == b
    {
      StartedOnce(s.engines[i], cfg.atomicHandlers, a, a);
      StartedOnce(s.engines[j], cfg.atomicHandlers, b, b);
      StartedOnce(s.engines[i], cfg.atomicHandlers, a, b);
    }
  }

  lemma {:induction false} SumBound(cfg: ReadChain.Config, engines: seq<ReadChain.State>)
    requires forall i: nat :: i < |engines| ==> ReadChain.Inv(cfg, engines[i])
    ensures Outstanding(engines) <= Bumps(engines) + Holding(engines)
  {
    hide ReadChain.Consistent, ReadChain.AtomicInv, ReadChain.OnceInv;
    if engines != [] {
      SumBound(cfg, engines[..|engines| - 1]);
      assert ReadChain.Bounded(engines[|engines| - 1]);
    }
  }

  /** However handlers and engines interleave: at most as many reads are outstanding on the flow as
      there were stops and failed restarts, and one more for each engine that is up. */
  lemma OnFlowAtMost(cfg: Config, events: seq<Event>)
    ensures var engines := Run(cfg, events).engines;
            && Outstanding(engines) <= Bumps(engines) + Holding(engines)
            && (Holding(engines) <= 1 ==> Outstanding(engines) <= Bumps(engines) + 1)
  {
    hide Fold, Step, ReadChain.Inv;
    RunInv(cfg, INITIAL, events);
    SumBound(Objects(cfg), Run(cfg, events).engines);
  }

  // ---------------------------------------------------------------------
  // Tunnels one after another.
  // ---------------------------------------------------------------------

  /** Four steps of one engine. */
  function Four(i: nat, es: seq<ReadChain.Event>): seq<Event>
    requires |es| == 4
  {
    [At(i, es[0]), At(i, es[1]), At(i, es[2]), At(i, es[3])]
  }

  lemma FourSteps(cfg: Config, s: State, i: nat, es: seq<ReadChain.Event>)
    requires cfg.again && i < |s.engines| && |es| == 4
    ensures RunFrom(cfg, s, Four(i, es)) == State(s.engines[i := ReadChain.RunFrom(Objects(cfg), s.engines[i], es)])
  {
    hide ReadChain.Step;
    Fold4(Stepper(cfg), s, At(i, es[0]), At(i, es[1]), At(i, es[2]), At(i, es[3]));
    Fold4(ReadChain.Stepper(Objects(cfg)), s.engines[i], es[0], es[1], es[2], es[3]);
    assert es == [es[0], es[1], es[2], es[3]];
  }

  /** Tunnels 0 to n, each with its own engine, every one but the last stopped before the next. */
  function Tunnels(n: nat): seq<Event> {
    (if n == 0 then [] else Tunnels(n - 1) + Four(n - 1, ReadChain.STOPPED)) + [Make] + Four(n, ReadChain.STARTED)
  }

  function Stopped(): ReadChain.State {
    ReadChain.DownWith(ReadChain.Armed)
  }

  function Started(): ReadChain.State {
    ReadChain.UpWith(ReadChain.Armed)
  }

  /** Every stop has left a read on the flow. */
  function Left(n: nat): seq<ReadChain.State> {
    seq(n, _ => Stopped())
  }

  lemma MakeAndStart(cfg: Config, s: State)
    requires cfg.again
    ensures RunFrom(cfg, s, [Make] + Four(|s.engines|, ReadChain.STARTED)) == State(s.engines + [Started()])
  {
    var n := |s.engines|;
    var made := State(s.engines + [ReadChain.INITIAL]);
    var es := [Make] + Four(n, ReadChain.STARTED);
    assert es[1..] == Four(n, ReadChain.STARTED);
    FourSteps(cfg, made, n, ReadChain.STARTED);
    ReadChain.StartedRun(Objects(cfg));
    assert made.engines[n := Started()] == s.engines + [Started()];
  }

  lemma {:induction false} TunnelsRun(cfg: Config, n: nat)
    requires cfg.again
    ensures Run(cfg, Tunnels(n)) == State(Left(n) + [Started()])
  {
    var f, last := Stepper(cfg), [Make] + Four(n, ReadChain.STARTED);
    hide Fold, Step, Started, Stopped, Four;
    if n == 0 {
      assert Tunnels(0) == last;
      MakeAndStart(cfg, INITIAL);
      assert [] + [Started()] == Left(0) + [Started()];
    } else {
      var before, stop := Tunnels(n - 1), Four(n - 1, ReadChain.STOPPED);
      assert Tunnels(n) == before + stop + last;
      TunnelsRun(cfg, n - 1);
      FoldConcat(f, INITIAL, before + stop, last);
      FoldConcat(f, INITIAL, before, stop);
      var s := State(Left(n - 1) + [Started()]);
      StopLast(cfg, n - 1);
      MakeAndStart(cfg, State(Left(n)));
    }
  }

  lemma StopLast(cfg: Config, n: nat)
    requires cfg.again
    ensures RunFrom(cfg, State(Left(n) + [Started()]), Four(n, ReadChain.STOPPED)) == State(Left(n + 1))
  {
    hide Fold, ReadChain.Step;
    var s := State(Left(n) + [Started()]);
    FourSteps(cfg, s, n, ReadChain.STOPPED);
    ReadChain.StoppedRun(Objects(cfg), ReadChain.Armed);
    assert s.engines[n := Stopped()] == Left(n + 1);
  }

  lemma {:induction false} LeftCounts(n: nat)
    ensures Outstanding(Left(n)) == n == Bumps(Left(n)) && Holding(Left(n)) == 0
  {
    if n > 0 {
      assert Left(n)[..n - 1] == Left(n - 1);
      LeftCounts(n - 1);
    }
  }

  /** The bound is reached for any number of stops, although no engine has two reads of its own. */
  lemma OnFlowReached(cfg: Config, n: nat)
    requires cfg.again
    ensures var engines := Run(cfg, Tunnels(n)).engines;
            && Bumps(engines) == n && Holding(engines) == 1 && Outstanding(engines) == n + 1
            && forall i: nat :: i < |engines| ==> ReadChain.OneOutstanding(engines[i])
  {
    TunnelsRun(cfg, n);
    LeftCounts(n);
    hide Fold, Step;
    assert (Left(n) + [Started()])[..n] == Left(n);
  }

  /** At most one read is outstanding on the flow, in every run, exactly when no engine is started on
      it after one has been: an object for each tunnel does not help, since a stop leaves its read
      behind. */
  lemma OneOnFlowIff(cfg: Config)
    ensures (forall events: seq<Event> :: OneOnFlow(Run(cfg, events))) <==> !cfg.again
  {
    hide Fold, Step, OneOnFlow, ReadChain.Inv;
    if !cfg.again {
      forall events: seq<Event>
        ensures OneOnFlow(Run(cfg, events))
      {
        RunInv(cfg, INITIAL, events);
        OnceOnFlow(cfg, Run(cfg, events));
      }
    } else {
      TunnelsRun(cfg, 1);
      TwoLeft();
    }
  }

  lemma TwoLeft()
    ensures !OneOnFlow(State(Left(1) + [Started()]))
  {
    var s := State(Left(1) + [Started()]);
    assert OnFlow(s, 0, 0) && OnFlow(s, 1, 0);
  }
}
