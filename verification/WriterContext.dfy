/** The life of the writer context handed to the data plane: when a session task may still call
    back through it, and when the extension releases it. Runs are lists of atomic steps of the
    control queue and of the tasks, in any interleaving. */
module WriterContext {
  import opened Common
  import opened Runs

  /** What a deployment allows. The code as written has `joinsIngress` false; `interceptor` says
      whether sessions may have the DNS interceptor, `timeouts` whether a join may time out. */
  datatype Config = Config(interceptor: bool, joinsIngress: bool, timeouts: bool)

  /** Between polls, inside a poll, or finished. An abort takes effect between polls only. */
  datatype Phase = Waiting | Polling | Gone

  datatype Kind = Egress | Ingress

  datatype Task = Task(kind: Kind, ctx: nat, intercepts: bool, phase: Phase, aborted: bool)

  /** Positions of the two tasks of a session. */
  datatype Session = Session(egress: nat, ingress: nat)

  datatype After = ThenRestart | ThenStop

  /** The control queue is free, or blocked in the join of a blocking stop. */
  datatype Control = Free | Joining(session: Session, after: After)

  datatype State = State(
    tasks: seq<Task>,
    retained: set<nat>,
    nextCtx: nat,
    running: bool,
    session: Option<Session>,
    started: bool,
    tunStarted: bool,
    writerCtx: Option<nat>,
    control: Control,
    lateEmit: bool)

  datatype Event =
    | Start(ok: bool, chinadns: bool)
    | Restart(ok: bool, chinadns: bool)
    | Stop
    | Joined(ok: bool, chinadns: bool)
    | JoinTimedOut(ok: bool, chinadns: bool)
    | Wake(k: nat)
    | Emit(k: nat)
    | Yield(k: nat)
    | Finish(k: nat)
    | Cancel(k: nat)

  const INITIAL: State := State([], {}, 0, false, None, false, false, None, Free, false)

  // ---------------------------------------------------------------------
  // Control operations.
  // ---------------------------------------------------------------------

  function Release(s: State): State {
    if s.writerCtx.None? then s
    else s.(retained := s.retained - {s.writerCtx.value}, writerCtx := None)
  }

  /** `startRuntimeWithError:`: refused while running or when the socket cannot be set up;
      otherwise three tasks, of which egress and ingress hold the context. */
  function StartRuntime(cfg: Config, s: State, ok: bool, chinadns: bool): (r: (State, bool)) {
    if s.running || !ok || s.writerCtx.None? then (s, false)
    else
      var c, n := s.writerCtx.value, |s.tasks|;
      var intercepts := chinadns && cfg.interceptor;
      (s.(tasks := s.tasks + [Task(Egress, c, intercepts, Waiting, false),
                              Task(Ingress, c, intercepts, Waiting, false)],
          session := Some(Session(n, n + 1)),
          running := true,
          tunStarted := true),
       true)
  }

  function StartEngine(cfg: Config, s: State, ok: bool, chinadns: bool): State {
    if s.started then s
    else
      var held := s.(started := true, writerCtx := Some(s.nextCtx), retained := s.retained + {s.nextCtx},
                     nextCtx := s.nextCtx + 1);
      var (next, up) := StartRuntime(cfg, held, ok, chinadns);
      if up then next else Release(next).(started := false)
  }

  /** Second half of `restartWithError:`, on the same context. */
  function FinishRestart(cfg: Config, s: State, ok: bool, chinadns: bool): State {
    var (next, up) := StartRuntime(cfg, s, ok, chinadns);
    if up then next else Release(next).(started := false)
  }

  function Abort(tasks: seq<Task>, k: nat): seq<Task> {
    if k < |tasks| then tasks[k := tasks[k].(aborted := true)] else tasks
  }

  /** First half of `stop_blocking`: lower the flag, take the session, abort its tasks. The
      control queue then blocks on the join. */
  function BeginStop(s: State, after: After): State
    requires s.session.Some?
  {
    var t := s.session.value;
    s.(running := false, session := None,
       tasks := Abort(Abort(s.tasks, t.ingress), t.egress),
       control := Joining(t, after))
  }

  function AfterJoin(cfg: Config, s: State, after: After, ok: bool, chinadns: bool): State {
    var done := s.(control := Free, tunStarted := false);
    match after
    case ThenStop => Release(done)
    case ThenRestart => FinishRestart(cfg, done, ok, chinadns)
  }

  function RestartEngine(cfg: Config, s: State, ok: bool, chinadns: bool): State {
    if !s.started then s
    else if !s.tunStarted then FinishRestart(cfg, s, ok, chinadns)
    else if s.session.None? then AfterJoin(cfg, s.(running := false), ThenRestart, ok, chinadns)
    else BeginStop(s, ThenRestart)
  }

  function StopEngine(cfg: Config, s: State): State {
    if !s.started then s
    else
      var down := s.(started := false);
      if !s.tunStarted then Release(down)
      else if s.session.None? then AfterJoin(cfg, down.(running := false), ThenStop, false, false)
      else BeginStop(down, ThenStop)
  }

  predicate IsGone(s: State, k: nat) {
    k < |s.tasks| && s.tasks[k].phase.Gone?
  }

  /** The join waits for egress alone; the repaired stop also waits for ingress. */
  predicate JoinReady(cfg: Config, s: State, t: Session) {
    IsGone(s, t.egress) && (cfg.joinsIngress ==> IsGone(s, t.ingress))
  }

  // ---------------------------------------------------------------------
  // Task steps.
  // ---------------------------------------------------------------------

  predicate In(s: State, k: nat, phase: Phase) {
    k < |s.tasks| && s.tasks[k].phase == phase
  }

  function Move(s: State, k: nat, phase: Phase): State
    requires k < |s.tasks|
  {
    s.(tasks := s.tasks[k := s.tasks[k].(phase := phase)])
  }

  /** Egress calls back with decrypted packets; ingress only through the interceptor. */
  predicate MayEmit(t: Task) {
    t.kind.Egress? || t.intercepts
  }

  /** One atomic step; an event that is not enabled changes nothing. */
  function Step(cfg: Config, s: State, e: Event): State {
    match e
    case Start(ok, chinadns) => if s.control.Free? then StartEngine(cfg, s, ok, chinadns) else s
    case Restart(ok, chinadns) => if s.control.Free? then RestartEngine(cfg, s, ok, chinadns) else s
    case Stop => if s.control.Free? then StopEngine(cfg, s) else s
    case Joined(ok, chinadns) =>
      if s.control.Joining? && JoinReady(cfg, s, s.control.session)
      then AfterJoin(cfg, s, s.control.after, ok, chinadns) else s
    case JoinTimedOut(ok, chinadns) =>
      if s.control.Joining? && cfg.timeouts then AfterJoin(cfg, s, s.control.after, ok, chinadns) else s
    case Wake(k) => if In(s, k, Waiting) && !s.tasks[k].aborted then Move(s, k, Polling) else s
    case Emit(k) =>
      if In(s, k, Polling) && MayEmit(s.tasks[k])
      then s.(lateEmit := s.lateEmit || s.tasks[k].ctx !in s.retained) else s
    case Yield(k) => if In(s, k, Polling) then Move(s, k, Waiting) else s
    case Finish(k) => if In(s, k, Polling) then Move(s, k, Gone) else s
    case Cancel(k) => if In(s, k, Waiting) && s.tasks[k].aborted then Move(s, k, Gone) else s
  }

  function Stepper(cfg: Config): (State, Event) -> State {
    (s, e) => Step(cfg, s, e)
  }

  function RunFrom(cfg: Config, s: State, events: seq<Event>): State {
    Fold(Stepper(cfg), s, events)
  }

  function Run(cfg: Config, events: seq<Event>): State {
    RunFrom(cfg, INITIAL, events)
  }

  // ---------------------------------------------------------------------
  // Invariant.
  // ---------------------------------------------------------------------

  ghost predicate Live(s: State, k: nat) {
    k < |s.tasks| && !s.tasks[k].phase.Gone?
  }

  /** The tasks whose callbacks the stop has to wait for. */
  ghost predicate Watched(cfg: Config, t: Task) {
    t.kind.Egress? || cfg.joinsIngress
  }

  ghost predicate Owns(t: Session, k: nat) {
    k == t.egress || k == t.ingress
  }

  ghost predicate HoldsSession(s: State, t: Session, c: nat) {
    && t.egress < |s.tasks| && t.ingress < |s.tasks|
    && s.tasks[t.egress].kind == Egress && s.tasks[t.ingress].kind == Ingress
    && s.tasks[t.egress].ctx == c && s.tasks[t.ingress].ctx == c
  }

  /** Control-queue bookkeeping. */
  ghost predicate Consistent(s: State) {
    && s.retained == (if s.writerCtx.Some? then {s.writerCtx.value} else {})
    && (s.running <==> s.session.Some?)
    && (s.control.Free? ==> (s.writerCtx.Some? <==> s.started) && (s.tunStarted <==> s.session.Some?))
    && (s.session.Some? ==> s.control.Free? && s.writerCtx.Some? && HoldsSession(s, s.session.value, s.writerCtx.value))
    && (s.control.Joining? ==>
          && s.session.None? && s.writerCtx.Some? && HoldsSession(s, s.control.session, s.writerCtx.value)
          && (s.started <==> s.control.after.ThenRestart?))
  }

  /** Live watched tasks belong to the current session or to the one being joined. */
  ghost predicate Accounted(cfg: Config, s: State) {
    forall k: nat :: Live(s, k) && Watched(cfg, s.tasks[k]) ==>
      || (s.session.Some? && Owns(s.session.value, k))
      || (s.control.Joining? && Owns(s.control.session, k))
  }

  ghost predicate InterceptsAllowed(cfg: Config, s: State) {
    forall k: nat :: k < |s.tasks| && s.tasks[k].intercepts ==> cfg.interceptor
  }

  ghost predicate Inv(cfg: Config, s: State) {
    Consistent(s) && Accounted(cfg, s) && InterceptsAllowed(cfg, s)
  }

  /** The condition on a deployment under which the context is never used after release. */
  predicate Safe(cfg: Config) {
    !cfg.timeouts && (!cfg.interceptor || cfg.joinsIngress)
  }

  lemma StartRuntimeInv(cfg: Config, s: State, ok: bool, chinadns: bool)
    requires s.control.Free? && s.started && s.session.None? && !s.running && !s.tunStarted
    requires s.writerCtx.Some? && s.retained == {s.writerCtx.value}
    requires Accounted(cfg, s) && InterceptsAllowed(cfg, s)
    ensures Inv(cfg, FinishRestart(cfg, s, ok, chinadns))
  {
    var next := FinishRestart(cfg, s, ok, chinadns);
    assert forall k :: 0 <= k < |s.tasks| ==> next.tasks[k] == s.tasks[k];
  }

  lemma StartEngineInv(cfg: Config, s: State, ok: bool, chinadns: bool)
    requires Inv(cfg, s) && s.control.Free?
    ensures Inv(cfg, StartEngine(cfg, s, ok, chinadns))
  {
    if !s.started {
      var held := s.(started := true, writerCtx := Some(s.nextCtx), retained := s.retained + {s.nextCtx},
                     nextCtx := s.nextCtx + 1);
      StartRuntimeInv(cfg, held, ok, chinadns);
    }
  }

  lemma BeginStopInv(cfg: Config, s: State, after: After)
    requires Accounted(cfg, s) && InterceptsAllowed(cfg, s) && s.session.Some? && s.control.Free?
    requires s.writerCtx.Some? && s.retained == {s.writerCtx.value}
    requires HoldsSession(s, s.session.value, s.writerCtx.value)
    requires s.started <==> after.ThenRestart?
    ensures Inv(cfg, BeginStop(s, after))
  {
    var next := BeginStop(s, after);
    assert |next.tasks| == |s.tasks|;
    assert forall k :: 0 <= k < |s.tasks| ==> next.tasks[k] == s.tasks[k].(aborted := next.tasks[k].aborted);
  }

  lemma AfterJoinInv(cfg: Config, s: State, ok: bool, chinadns: bool)
    requires Inv(cfg, s) && s.control.Joining? && JoinReady(cfg, s, s.control.session)
    ensures Inv(cfg, AfterJoin(cfg, s, s.control.after, ok, chinadns))
  {
    var done := s.(control := Free, tunStarted := false);
    NothingLeft(cfg, s);
    if s.control.after.ThenRestart? {
      StartRuntimeInv(cfg, done, ok, chinadns);
    }
  }

  /** When the join returns no watched task is alive. */
  lemma NothingLeft(cfg: Config, s: State)
    requires Inv(cfg, s) && s.control.Joining? && JoinReady(cfg, s, s.control.session)
    ensures forall k: nat :: Live(s, k) ==> !Watched(cfg, s.tasks[k])
  {
  }

  lemma RestartInv(cfg: Config, s: State, ok: bool, chinadns: bool)
    requires Inv(cfg, s) && s.control.Free?
    ensures Inv(cfg, RestartEngine(cfg, s, ok, chinadns))
  {
    if s.started {
      if s.session.Some? {
        BeginStopInv(cfg, s, ThenRestart);
      } else {
        StartRuntimeInv(cfg, s, ok, chinadns);
      }
    }
  }

  lemma StopInv(cfg: Config, s: State)
    requires Inv(cfg, s) && s.control.Free?
    ensures Inv(cfg, StopEngine(cfg, s))
  {
    if s.started && s.session.Some? {
      BeginStopInv(cfg, s.(started := false), ThenStop);
    }
  }

  lemma MoveInv(cfg: Config, s: State, k: nat, phase: Phase)
    requires Inv(cfg, s) && k < |s.tasks| && !s.tasks[k].phase.Gone?
    ensures Inv(cfg, Move(s, k, phase))
  {
    var next := Move(s, k, phase);
    assert forall j :: 0 <= j < |s.tasks| && j != k ==> next.tasks[j] == s.tasks[j];
    assert forall j: nat :: Live(next, j) ==> Live(s, j);
  }

  lemma {:induction false} StepInv(cfg: Config, s: State, e: Event)
    requires Inv(cfg, s) && !cfg.timeouts
    ensures Inv(cfg, Step(cfg, s, e))
  {
    hide Inv, StartEngine, RestartEngine, StopEngine, AfterJoin, Move, JoinReady;
    match e
    case Start(ok, chinadns) => if s.control.Free? { StartEngineInv(cfg, s, ok, chinadns); }
    case Restart(ok, chinadns) => if s.control.Free? { RestartInv(cfg, s, ok, chinadns); }
    case Stop => if s.control.Free? { StopInv(cfg, s); }
    case Joined(ok, chinadns) =>
      if s.control.Joining? && JoinReady(cfg, s, s.control.session) { AfterJoinInv(cfg, s, ok, chinadns); }
    case JoinTimedOut(ok, chinadns) =>
    case Wake(k) => if In(s, k, Waiting) { MoveInv(cfg, s, k, Polling); }
    case Emit(k) => EmitInv(cfg, s, k);
    case Yield(k) => if In(s, k, Polling) { MoveInv(cfg, s, k, Waiting); }
    case Finish(k) => if In(s, k, Polling) { MoveInv(cfg, s, k, Gone); }
    case Cancel(k) => if In(s, k, Waiting) { MoveInv(cfg, s, k, Gone); }
  }

  lemma EmitInv(cfg: Config, s: State, k: nat)
    requires Inv(cfg, s)
    ensures Inv(cfg, s.(lateEmit := true)) && Inv(cfg, s.(lateEmit := false))
    ensures Inv(cfg, Step(cfg, s, Emit(k)))
  {
  }

  /** In a safe deployment a live task that may emit holds a retained context. */
  lemma EmitterRetained(cfg: Config, s: State, k: nat)
    requires Inv(cfg, s) && Safe(cfg) && Live(s, k) && MayEmit(s.tasks[k])
    ensures s.tasks[k].ctx in s.retained
  {
  }

  lemma {:induction false} StepNotLate(cfg: Config, s: State, e: Event)
    requires Inv(cfg, s) && Safe(cfg) && !s.lateEmit
    ensures !Step(cfg, s, e).lateEmit
  {
    if e.Emit? && In(s, e.k, Polling) && MayEmit(s.tasks[e.k]) {
      EmitterRetained(cfg, s, e.k);
    }
  }

  lemma {:induction false} RunSafe(cfg: Config, s: State, events: seq<Event>)
    requires Safe(cfg) && Inv(cfg, s) && !s.lateEmit
    ensures Inv(cfg, RunFrom(cfg, s, events)) && !RunFrom(cfg, s, events).lateEmit
    decreases |events|
  {
    hide Inv, Step;
    if events != [] {
      StepInv(cfg, s, events[0]);
      StepNotLate(cfg, s, events[0]);
      RunSafe(cfg, Step(cfg, s, events[0]), events[1..]);
    }
  }

  lemma {:induction false} RunInv(cfg: Config, s: State, events: seq<Event>)
    requires !cfg.timeouts && Inv(cfg, s)
    ensures Inv(cfg, RunFrom(cfg, s, events))
    decreases |events|
  {
    hide Inv, Step;
    if events != [] {
      StepInv(cfg, s, events[0]);
      RunInv(cfg, Step(cfg, s, events[0]), events[1..]);
    }
  }

  lemma InitialInv(cfg: Config)
    ensures Inv(cfg, INITIAL)
  {
  }

  /** Live egress tasks are tasks of the one session that is running or being joined. */
  lemma {:induction false} OneLiveEgress(cfg: Config, events: seq<Event>)
    requires !cfg.timeouts
    ensures AtMostOneEgress(Run(cfg, events))
  {
    InitialInv(cfg);
    RunInv(cfg, INITIAL, events);
  }

  // ---------------------------------------------------------------------
  // The unsafe deployments, and the exact condition.
  // ---------------------------------------------------------------------

  /** The ingress task of a session with the interceptor is inside a poll when the stop begins:
      egress is joined, the context is released, and the poll then calls back through it. */
  const INGRESS_ESCAPES: seq<Event> := [Start(true, true), Wake(1), Stop, Cancel(0)] + [Joined(false, false)]

  /** The egress task does not leave its poll within the time limit of the join. */
  const EGRESS_ESCAPES: seq<Event> := [Start(true, false), Wake(0), Stop, JoinTimedOut(false, false)]

  /** The same, with a restart in place of the stop: a second egress task joins the first. */
  const EGRESS_DOUBLES: seq<Event> := [Start(true, false), Wake(0), Restart(true, false), JoinTimedOut(true, false)]

  lemma IngressEscapes(cfg: Config)
    requires cfg.interceptor && !cfg.joinsIngress
    ensures Run(cfg, INGRESS_ESCAPES + [Emit(1)]).lateEmit
  {
    Fold4(Stepper(cfg), INITIAL, Start(true, true), Wake(1), Stop, Cancel(0));
    FoldSnoc(Stepper(cfg), INITIAL, [Start(true, true), Wake(1), Stop, Cancel(0)], Joined(false, false));
    FoldSnoc(Stepper(cfg), INITIAL, INGRESS_ESCAPES, Emit(1));
  }

  lemma EgressEscapes(cfg: Config)
    requires cfg.timeouts
    ensures Run(cfg, EGRESS_ESCAPES + [Emit(0)]).lateEmit
  {
    Fold4(Stepper(cfg), INITIAL, Start(true, false), Wake(0), Stop, JoinTimedOut(false, false));
    FoldSnoc(Stepper(cfg), INITIAL, EGRESS_ESCAPES, Emit(0));
  }

  lemma EgressDoubles(cfg: Config)
    requires cfg.timeouts
    ensures var s := Run(cfg, EGRESS_DOUBLES);
            && Live(s, 0) && Live(s, 2) && s.tasks[0].kind.Egress? && s.tasks[2].kind.Egress?
            && s.tasks[0].ctx == s.tasks[2].ctx
  {
    Fold4(Stepper(cfg), INITIAL, Start(true, false), Wake(0), Restart(true, false), JoinTimedOut(true, false));
  }

  /** No callback ever uses a released context, over all runs, exactly in the safe deployments:
      no join may time out, and with an interceptor the stop must join ingress too. */
  lemma WriterSafeIff(cfg: Config)
    ensures (forall events: seq<Event> :: !Run(cfg, events).lateEmit) <==> Safe(cfg)
  {
    hide Fold, Step, Inv;
    if Safe(cfg) {
      forall events: seq<Event>
        ensures !Run(cfg, events).lateEmit
      {
        InitialInv(cfg);
        RunSafe(cfg, INITIAL, events);
      }
    } else if cfg.timeouts {
      EgressEscapes(cfg);
    } else {
      IngressEscapes(cfg);
    }
  }

  ghost predicate AtMostOneEgress(s: State) {
    forall j: nat, k: nat :: Live(s, j) && Live(s, k) && s.tasks[j].kind.Egress? && s.tasks[k].kind.Egress? ==> j == k
  }

  /** Two egress tasks never coexist, over all runs, exactly when no join may time out. */
  lemma OneEgressIff(cfg: Config)
    ensures (forall events: seq<Event> :: AtMostOneEgress(Run(cfg, events))) <==> !cfg.timeouts
  {
    hide Fold, Step, Inv;
    if cfg.timeouts {
      EgressDoubles(cfg);
      assert !AtMostOneEgress(Run(cfg, EGRESS_DOUBLES));
    } else {
      forall events: seq<Event>
        ensures AtMostOneEgress(Run(cfg, events))
      {
        OneLiveEgress(cfg, events);
      }
    }
  }

  // ---------------------------------------------------------------------
  // Retains and releases balance, and a stop comes to its end, in every deployment.
  // ---------------------------------------------------------------------

  /** Exactly the tasks of the running session have not been told to end. */
  ghost predicate AbortedElsewhere(s: State) {
    forall k: nat :: k < |s.tasks| ==> (s.tasks[k].aborted <==> !(s.session.Some? && Owns(s.session.value, k)))
  }

  ghost predicate Newest(s: State) {
    s.writerCtx.Some? ==> s.nextCtx > 0 && s.writerCtx.value == s.nextCtx - 1
  }

  ghost predicate Booked(s: State) {
    && Consistent(s) && AbortedElsewhere(s) && Newest(s)
    && (s.session.Some? ==> s.session.value.egress < s.session.value.ingress)
    && (s.control.Free? ==> (s.started <==> s.session.Some?))
  }

  lemma BookedRuntime(cfg: Config, s: State, ok: bool, chinadns: bool)
    requires s.control.Free? && s.started && s.session.None? && !s.running && !s.tunStarted
    requires s.writerCtx.Some? && s.retained == {s.writerCtx.value} && AbortedElsewhere(s) && Newest(s)
    ensures Booked(FinishRestart(cfg, s, ok, chinadns))
  {
    var next := FinishRestart(cfg, s, ok, chinadns);
    assert forall k :: 0 <= k < |s.tasks| ==> next.tasks[k] == s.tasks[k];
  }

  lemma BookedStart(cfg: Config, s: State, ok: bool, chinadns: bool)
    requires Booked(s) && s.control.Free?
    ensures Booked(StartEngine(cfg, s, ok, chinadns))
  {
    if !s.started {
      var held := s.(started := true, writerCtx := Some(s.nextCtx), retained := s.retained + {s.nextCtx},
                     nextCtx := s.nextCtx + 1);
      BookedRuntime(cfg, held, ok, chinadns);
    }
  }

  lemma BookedBegin(s: State, after: After)
    requires AbortedElsewhere(s) && Newest(s) && s.session.Some? && s.control.Free?
    requires s.session.value.egress < s.session.value.ingress
    requires s.writerCtx.Some? && s.retained == {s.writerCtx.value}
    requires HoldsSession(s, s.session.value, s.writerCtx.value)
    requires s.started <==> after.ThenRestart?
    ensures Booked(BeginStop(s, after))
  {
    var next := BeginStop(s, after);
    var t := s.session.value;
    assert |next.tasks| == |s.tasks|;
    assert forall k :: 0 <= k < |s.tasks| ==>
        next.tasks[k] == s.tasks[k].(aborted := s.tasks[k].aborted || k == t.egress || k == t.ingress);
  }

  lemma BookedJoin(cfg: Config, s: State, ok: bool, chinadns: bool)
    requires Booked(s) && s.control.Joining?
    ensures Booked(AfterJoin(cfg, s, s.control.after, ok, chinadns))
  {
    var done := s.(control := Free, tunStarted := false);
    if s.control.after.ThenRestart? {
      BookedRuntime(cfg, done, ok, chinadns);
    }
  }

  lemma BookedMove(s: State, k: nat, phase: Phase)
    requires Booked(s) && k < |s.tasks|
    ensures Booked(Move(s, k, phase))
  {
    var next := Move(s, k, phase);
    assert forall j :: 0 <= j < |s.tasks| ==> next.tasks[j] == s.tasks[j].(phase := next.tasks[j].phase);
  }

  lemma BookedControl(cfg: Config, s: State, ok: bool, chinadns: bool)
    requires Booked(s) && s.control.Free?
    ensures Booked(RestartEngine(cfg, s, ok, chinadns)) && Booked(StopEngine(cfg, s))
  {
    if s.started {
      BookedBegin(s, ThenRestart);
      BookedBegin(s.(started := false), ThenStop);
    }
  }

  lemma {:induction false} BookedStep(cfg: Config, s: State, e: Event)
    requires Booked(s)
    ensures Booked(Step(cfg, s, e))
  {
    hide Booked, StartEngine, RestartEngine, StopEngine, AfterJoin, Move, JoinReady;
    match e
    case Start(ok, chinadns) => if s.control.Free? { BookedStart(cfg, s, ok, chinadns); }
    case Restart(ok, chinadns) => if s.control.Free? { BookedControl(cfg, s, ok, chinadns); }
    case Stop => if s.control.Free? { BookedControl(cfg, s, false, false); }
    case Joined(ok, chinadns) => if s.control.Joining? { BookedJoin(cfg, s, ok, chinadns); }
    case JoinTimedOut(ok, chinadns) => if s.control.Joining? { BookedJoin(cfg, s, ok, chinadns); }
    case Wake(k) => if In(s, k, Waiting) { BookedMove(s, k, Polling); }
    case Emit(k) => BookedEmit(s);
    case Yield(k) => if In(s, k, Polling) { BookedMove(s, k, Waiting); }
    case Finish(k) => if In(s, k, Polling) { BookedMove(s, k, Gone); }
    case Cancel(k) => if In(s, k, Waiting) { BookedMove(s, k, Gone); }
  }

  lemma BookedEmit(s: State)
    requires Booked(s)
    ensures Booked(s.(lateEmit := true)) && Booked(s.(lateEmit := false))
  {
  }

  lemma {:induction false} RunBooked(cfg: Config, s: State, events: seq<Event>)
    requires Booked(s)
    ensures Booked(RunFrom(cfg, s, events))
    decreases |events|
  {
    hide Booked, Step;
    if events != [] {
      BookedStep(cfg, s, events[0]);
      RunBooked(cfg, Step(cfg, s, events[0]), events[1..]);
    }
  }

  lemma InitialBooked()
    ensures Booked(INITIAL)
  {
  }

  /** Between operations of every run the engine is started exactly while it has a session, and then
      the newest context is retained, which both tasks of the session hold; otherwise none is. The
      tasks of all other sessions, and no others, have been told to end. */
  lemma {:induction false} BetweenOperations(cfg: Config, events: seq<Event>)
    requires Run(cfg, events).control.Free?
    ensures var s := Run(cfg, events);
            && (s.started <==> s.session.Some?) && (s.running <==> s.session.Some?)
            && (s.started ==> s.nextCtx > 0 && s.retained == {s.nextCtx - 1}
                              && HoldsSession(s, s.session.value, s.nextCtx - 1))
            && (!s.started ==> s.retained == {})
            && AbortedElsewhere(s)
  {
    hide Fold, AbortedElsewhere, HoldsSession;
    InitialBooked();
    RunBooked(cfg, INITIAL, events);
  }

  /** A start brings the engine up with a new session and a context of its own, or leaves nothing. */
  ghost predicate Brought(s: State, n: State, ok: bool) {
    && n.control.Free? && (n.started <==> ok)
    && n.retained == (if ok then {s.nextCtx} else {})
    && n.session == (if ok then Some(Session(|s.tasks|, |s.tasks| + 1)) else None)
  }

  /** The session is taken away and joined; the context stays until then. */
  ghost predicate Taken(s: State, n: State, after: After) {
    && s.session.Some? && n.session.None? && n.control == Joining(s.session.value, after)
    && n.retained == s.retained && (n.started <==> after.ThenRestart?)
  }

  /** What each operation does from rest, in every run: a start on an engine that is started does
      nothing, and neither does a restart or a stop on one that is not. */
  lemma {:induction false} OperationsFromRest(cfg: Config, events: seq<Event>, ok: bool, chinadns: bool)
    requires Run(cfg, events).control.Free?
    ensures var s, n := Run(cfg, events), Run(cfg, events + [Start(ok, chinadns)]);
            if s.started then n == s else Brought(s, n, ok)
    ensures var s, n := Run(cfg, events), Run(cfg, events + [Restart(ok, chinadns)]);
            if s.started then Taken(s, n, ThenRestart) else n == s
    ensures var s, n := Run(cfg, events), Run(cfg, events + [Stop]);
            if s.started then Taken(s, n, ThenStop) else n == s
  {
    hide Fold, Booked, Brought, Taken;
    InitialBooked();
    RunBooked(cfg, INITIAL, events);
    FoldSnoc(Stepper(cfg), INITIAL, events, Start(ok, chinadns));
    FoldSnoc(Stepper(cfg), INITIAL, events, Restart(ok, chinadns));
    FoldSnoc(Stepper(cfg), INITIAL, events, Stop);
    FromRest(cfg, Run(cfg, events), ok, chinadns);
  }

  lemma FromRest(cfg: Config, s: State, ok: bool, chinadns: bool)
    requires Booked(s) && s.control.Free?
    ensures var n := Step(cfg, s, Start(ok, chinadns)); if s.started then n == s else Brought(s, n, ok)
    ensures var n := Step(cfg, s, Restart(ok, chinadns)); if s.started then Taken(s, n, ThenRestart) else n == s
    ensures var n := Step(cfg, s, Stop); if s.started then Taken(s, n, ThenStop) else n == s
  {
    hide AbortedElsewhere, HoldsSession, Abort;
  }

  /** The tasks of the session being joined leave their polls, if they are in any, and end. */
  function Drain(t: Session): seq<Event> {
    [Yield(t.egress), Cancel(t.egress), Yield(t.ingress), Cancel(t.ingress)]
  }

  /** An aborted task leaves its poll and ends. */
  lemma TaskEnds(cfg: Config, s: State, k: nat)
    requires k < |s.tasks| && s.tasks[k].aborted
    ensures var n := Step(cfg, Step(cfg, s, Yield(k)), Cancel(k));
            && n == s.(tasks := n.tasks) && |n.tasks| == |s.tasks| && IsGone(n, k)
            && forall j: nat :: j < |s.tasks| && j != k ==> n.tasks[j] == s.tasks[j]
  {
    hide StartEngine, RestartEngine, StopEngine, AfterJoin, JoinReady, MayEmit;
  }

  lemma {:induction false} DrainEnds(cfg: Config, s: State)
    requires Booked(s) && s.control.Joining?
    ensures var n := RunFrom(cfg, s, Drain(s.control.session));
            n == s.(tasks := n.tasks) && |n.tasks| == |s.tasks| && JoinReady(cfg, n, s.control.session)
  {
    var t := s.control.session;
    BothAborted(s);
    hide Step, Fold, Booked;
    Fold4(Stepper(cfg), s, Yield(t.egress), Cancel(t.egress), Yield(t.ingress), Cancel(t.ingress));
    TaskEnds(cfg, s, t.egress);
    TaskEnds(cfg, Step(cfg, Step(cfg, s, Yield(t.egress)), Cancel(t.egress)), t.ingress);
  }

  lemma BothAborted(s: State)
    requires Booked(s) && s.control.Joining?
    ensures var t := s.control.session;
            && t.egress < |s.tasks| && t.ingress < |s.tasks| && t.egress != t.ingress
            && s.tasks[t.egress].aborted && s.tasks[t.ingress].aborted
  {
  }

  /** A stop or restart that has begun can always come to its end without a time limit: when the tasks
      it aborted have ended the join returns. A stop then leaves nothing started or retained; a
      restart leaves a new session on the same context, or nothing when the engine does not come up. */
  lemma {:induction false} StopFinishes(cfg: Config, events: seq<Event>, ok: bool, chinadns: bool)
    requires Run(cfg, events).control.Joining?
    ensures var s := Run(cfg, events);
            var n := Run(cfg, events + Drain(s.control.session) + [Joined(ok, chinadns)]);
            && n.control.Free? && (n.started <==> s.control.after.ThenRestart? && ok)
            && n.retained == (if n.started then s.retained else {})
            && (n.started ==> n.session == Some(Session(|s.tasks|, |s.tasks| + 1)))
  {
    hide Fold, Booked;
    var s := Run(cfg, events);
    var drain := Drain(s.control.session);
    InitialBooked();
    RunBooked(cfg, INITIAL, events);
    DrainEnds(cfg, s);
    FoldConcat(Stepper(cfg), INITIAL, events, drain);
    FoldSnoc(Stepper(cfg), INITIAL, events + drain, Joined(ok, chinadns));
    JoinEnds(cfg, s, RunFrom(cfg, s, drain), ok, chinadns);
  }

  lemma JoinEnds(cfg: Config, s: State, d: State, ok: bool, chinadns: bool)
    requires Booked(s) && s.control.Joining?
    requires d == s.(tasks := d.tasks) && |d.tasks| == |s.tasks| && JoinReady(cfg, d, s.control.session)
    ensures var n := Step(cfg, d, Joined(ok, chinadns));
            && n.control.Free? && (n.started <==> s.control.after.ThenRestart? && ok)
            && n.retained == (if n.started then s.retained else {})
            && (n.started ==> n.session == Some(Session(|s.tasks|, |s.tasks| + 1)))
  {
  }
}
