/** The chain of `readPackets` calls of one engine object on the packet flow: who may ingest, and how
    many reads are outstanding. A read is armed with the epoch of its time; its completion handler
    runs on a queue of its own, between any two steps of a start, restart or stop. */
module ReadChain {
  import opened Runs

  /** `atomicHandlers`: a completion runs as one step. Otherwise, as in the code, its checks, each
      packet it ingests and each load of its re-arming are separate steps. `reuse`: one engine
      object may be started more than once (the extension makes a new one for each tunnel). */
  datatype Config = Config(atomicHandlers: bool, reuse: bool)

  type Packet = seq<int>

  /** Outstanding; past the two checks; past the flag test of the re-arming; past its load of the
      epoch, about to arm the next read with it; over. */
  datatype Status = Armed | Handling | Rearming | Ready(next: nat) | Done

  datatype Read = Read(epoch: nat, status: Status)

  /** Where the control queue stands inside an operation. */
  datatype Pc =
    | Idle
    | Bringing(ok: bool)
    | Raising
    | Arming
    | Rebringing(ok: bool)
    | Lowering
    | Bumping
    | Ending

  /** `flow` holds every read ever armed. Reads before position `cut` were armed before the last
      stop or failed restart; `staleUse` records that one of them ingested or re-armed since. */
  datatype State = State(
    started: bool,
    used: bool,
    tunStarted: bool,
    running: bool,
    epoch: nat,
    flow: seq<Read>,
    pc: Pc,
    cut: nat,
    ingested: seq<Packet>,
    staleUse: bool)

  datatype Event =
    | Start(ok: bool)
    | Restart(ok: bool)
    | Stop
    | Advance
    | Complete(k: nat, packets: seq<Packet>)
    | Check(k: nat)
    | IngestNext(k: nat, packet: Packet)
    | Rearm(k: nat)
    | LoadEpoch(k: nat)
    | ArmNext(k: nat)

  const INITIAL: State := State(false, false, false, false, 0, [], Idle, 0, [], false)

  // ---------------------------------------------------------------------
  // Steps of the control queue.
  // ---------------------------------------------------------------------

  /** `readNextPackets`: nothing unless the loop is running. */
  function ReadNext(s: State): State {
    if s.running then s.(flow := s.flow + [Read(s.epoch, Armed)]) else s
  }

  function AdvanceControl(s: State): State {
    match s.pc
    case Idle => s
    case Bringing(ok) =>
      if ok then s.(tunStarted := true, pc := Raising) else s.(started := false, pc := Idle)
    case Raising => s.(running := true, pc := Arming)
    case Arming => ReadNext(s).(pc := Idle)
    case Rebringing(ok) =>
      if ok then s.(tunStarted := true, pc := Idle) else s.(pc := Lowering)
    case Lowering => s.(running := false, cut := |s.flow|, pc := Bumping)
    case Bumping => s.(epoch := s.epoch + 1, pc := Ending)
    case Ending => s.(tunStarted := false, started := false, pc := Idle)
  }

  function BeginStart(cfg: Config, s: State, ok: bool): State {
    if !s.pc.Idle? || s.started || (s.used && !cfg.reuse) then s
    else s.(started := true, used := true, pc := Bringing(ok))
  }

  function BeginRestart(s: State, ok: bool): State {
    if !s.pc.Idle? || !s.started then s else s.(tunStarted := false, pc := Rebringing(ok))
  }

  function BeginStop(s: State): State {
    if !s.pc.Idle? || !s.started then s else s.(started := false, pc := Lowering)
  }

  // ---------------------------------------------------------------------
  // Steps of completion handlers.
  // ---------------------------------------------------------------------

  predicate Has(s: State, k: nat, status: Status) {
    k < |s.flow| && s.flow[k].status == status
  }

  function Mark(s: State, k: nat, status: Status): State
    requires k < |s.flow|
  {
    s.(flow := s.flow[k := s.flow[k].(status := status)])
  }

  /** The two checks at the head of the handler. The flag is loaded first, and an epoch that still
      matches afterwards was never bumped: the two loads act as one. */
  predicate Accepts(s: State, r: Read) {
    s.running && r.epoch == s.epoch
  }

  function Use(s: State, k: nat, packets: seq<Packet>): State {
    s.(ingested := s.ingested + packets, staleUse := s.staleUse || k < s.cut)
  }

  function CheckRead(s: State, k: nat): State
    requires k < |s.flow|
  {
    Mark(s, k, if Accepts(s, s.flow[k]) then Handling else Done)
  }

  /** `readNextPackets` at the end of the handler looks at the running flag again, */
  function RearmRead(s: State, k: nat): State
    requires k < |s.flow|
  {
    Mark(s, k, if s.running then Rearming else Done)
  }

  /** then loads the epoch of this moment, not the one the handler was armed with, */
  function LoadForNext(s: State, k: nat): State
    requires k < |s.flow|
  {
    Mark(s, k, Ready(s.epoch))
  }

  /** and arms the next read with it. */
  function ArmNextRead(s: State, k: nat): State
    requires k < |s.flow| && s.flow[k].status.Ready?
  {
    var n := Use(Mark(s, k, Done), k, []);
    n.(flow := n.flow + [Read(s.flow[k].status.next, Armed)])
  }

  function CompleteRead(s: State, k: nat, packets: seq<Packet>): State
    requires k < |s.flow|
  {
    if Accepts(s, s.flow[k]) then ReadNext(Use(Mark(s, k, Done), k, packets)) else Mark(s, k, Done)
  }

  /** One atomic step; an event that is not enabled changes nothing. */
  function Step(cfg: Config, s: State, e: Event): State {
    match e
    case Start(ok) => BeginStart(cfg, s, ok)
    case Restart(ok) => BeginRestart(s, ok)
    case Stop => BeginStop(s)
    case Advance => AdvanceControl(s)
    case Complete(k, packets) => if Has(s, k, Armed) then CompleteRead(s, k, packets) else s
    case Check(k) => if !cfg.atomicHandlers && Has(s, k, Armed) then CheckRead(s, k) else s
    case IngestNext(k, packet) => if Has(s, k, Handling) then Use(s, k, [packet]) else s
    case Rearm(k) => if Has(s, k, Handling) then RearmRead(s, k) else s
    case LoadEpoch(k) => if Has(s, k, Rearming) then LoadForNext(s, k) else s
    case ArmNext(k) => if k < |s.flow| && s.flow[k].status.Ready? then ArmNextRead(s, k) else s
  }

  function Stepper(cfg: Config): (State, Event) -> State {
    (s, e) => Step(cfg, s, e)
  }

  function RunFrom(cfg: Config, s: State, events: seq<Event>): State {
    Fold(Stepper(cfg), s, events)
  }

  function Run(cfg: Config, events: seq<Event>): State {
    RunFrom(cfg, INITIAL, events)
  }

  // ---------------------------------------------------------------------
  // The chain of the current epoch.
  // ---------------------------------------------------------------------

  ghost predicate Live(s: State, k: nat) {
    k < |s.flow| && !s.flow[k].status.Done?
  }

  /** The epoch a read, or the handler that will arm the next one, goes by. */
  function ChainEpoch(r: Read): nat {
    if r.status.Ready? then r.status.next else r.epoch
  }

  /** An outstanding read, or a handler at work, of the current epoch. */
  ghost predicate Current(s: State, k: nat) {
    Live(s, k) && ChainEpoch(s.flow[k]) == s.epoch
  }

  ghost predicate OneChain(s: State) {
    forall j: nat, k: nat :: Current(s, j) && Current(s, k) ==> j == k
  }

  /** The same of every epoch, past ones included. */
  ghost predicate OnePerEpoch(s: State) {
    forall j: nat, k: nat :: Live(s, j) && Live(s, k) && ChainEpoch(s.flow[j]) == ChainEpoch(s.flow[k]) ==> j == k
  }

  /** No read of the object is outstanding beside another, of whatever epochs. */
  ghost predicate OneOutstanding(s: State) {
    forall j: nat, k: nat :: Live(s, j) && Live(s, k) ==> j == k
  }

  ghost predicate NoChain(s: State) {
    forall k: nat :: !Current(s, k)
  }

  /** The loop is up and its read has been armed. */
  predicate Up(s: State) {
    s.running && !s.pc.Arming?
  }

  /** Before the first read of a start. */
  predicate BeforeRead(s: State) {
    s.pc.Bringing? || s.pc.Raising? || s.pc.Arming?
  }

  /** Control-queue bookkeeping: the loop runs exactly between raising and lowering the flag. */
  ghost predicate Consistent(s: State) {
    && s.cut <= |s.flow|
    && (s.started ==> s.used)
    && match s.pc
       case Idle => s.running == s.started && s.tunStarted == s.started
       case Bringing(_) => !s.running && s.started && !s.tunStarted
       case Raising => !s.running && s.started && s.tunStarted
       case Arming => s.running && s.started && s.tunStarted
       case Rebringing(_) => s.running && s.started
       case Lowering => s.running && s.used
       case Bumping => !s.running && s.used
       case Ending => !s.running && s.used
  }

  /** Handlers leave the control queue alone, and only add reads. */
  lemma HandlerConsistent(cfg: Config, s: State, e: Event)
    requires !(e.Start? || e.Restart? || e.Stop? || e.Advance?) && Consistent(s)
    ensures Consistent(Step(cfg, s, e))
  {
    hide Accepts;
  }

  lemma ControlConsistent(cfg: Config, s: State, e: Event)
    requires Consistent(s)
    ensures Consistent(Step(cfg, s, e))
  {
    if !(e.Start? || e.Restart? || e.Stop? || e.Advance?) {
      HandlerConsistent(cfg, s, e);
    } else {
      hide CheckRead, RearmRead, LoadForNext, ArmNextRead, CompleteRead, Accepts;
    }
  }

  // ---------------------------------------------------------------------
  // Atomic handlers.
  // ---------------------------------------------------------------------

  /** With atomic handlers a read is outstanding or over; reads before the cut are of older epochs
      once the epoch is bumped; and the chain is there exactly while the loop is up. */
  ghost predicate AtomicInv(s: State) {
    && (forall k: nat :: k < |s.flow| ==> s.flow[k].status.Armed? || s.flow[k].status.Done?)
    && (forall k: nat :: k < |s.flow| ==> s.flow[k].epoch <= s.epoch)
    && (forall k: nat :: k < s.cut && k < |s.flow| ==> s.flow[k].epoch < s.epoch || s.pc.Bumping?)
    && (BeforeRead(s) || s.pc.Ending? || (s.pc.Idle? && !s.started) ==> NoChain(s))
    && (Up(s) ==> exists k: nat :: Current(s, k))
    && OnePerEpoch(s)
  }

  /** Reads other than `k` are as they were. */
  lemma OthersStay(s: State, n: State, k: nat)
    requires k < |s.flow| && |n.flow| >= |s.flow| && n.epoch == s.epoch
    requires forall j: nat :: j < |s.flow| && j != k ==> n.flow[j] == s.flow[j]
    ensures forall j: nat :: j < |s.flow| && j != k ==>
              (Live(n, j) <==> Live(s, j)) && (Current(n, j) <==> Current(s, j))
  {
  }

  lemma SameFlow(s: State, n: State)
    requires n.flow == s.flow && n.epoch == s.epoch
    ensures forall k: nat :: (Live(n, k) <==> Live(s, k)) && (Current(n, k) <==> Current(s, k))
  {
  }

  lemma AtomicControl(cfg: Config, s: State, e: Event)
    requires Consistent(s) && AtomicInv(s)
    requires e.Start? || e.Restart? || e.Stop? || (e.Advance? && !s.pc.Arming? && !s.pc.Bumping?)
    ensures AtomicInv(Step(cfg, s, e)) && Step(cfg, s, e).staleUse == s.staleUse
  {
    SameFlow(s, Step(cfg, s, e));
  }

  lemma AtomicArm(s: State)
    requires Consistent(s) && AtomicInv(s) && s.pc.Arming?
    ensures AtomicInv(AdvanceControl(s)) && AdvanceControl(s).staleUse == s.staleUse
  {
    var n := AdvanceControl(s);
    assert forall k: nat :: k < |s.flow| ==> n.flow[k] == s.flow[k] && (Current(n, k) <==> Current(s, k));
    assert Current(n, |s.flow|);
  }

  lemma AtomicBump(s: State)
    requires Consistent(s) && AtomicInv(s) && s.pc.Bumping?
    ensures AtomicInv(AdvanceControl(s)) && AdvanceControl(s).staleUse == s.staleUse
  {
    var n := AdvanceControl(s);
    assert forall k: nat :: k < |s.flow| ==> n.flow[k].epoch < n.epoch;
  }

  /** A completion that is refused only ends its read. */
  lemma AtomicRefuse(s: State, k: nat, packets: seq<Packet>)
    requires Consistent(s) && AtomicInv(s) && Has(s, k, Armed) && !Accepts(s, s.flow[k])
    ensures AtomicInv(CompleteRead(s, k, packets)) && CompleteRead(s, k, packets).staleUse == s.staleUse
  {
    OthersStay(s, CompleteRead(s, k, packets), k);
    assert Current(s, k) ==> !s.running;
  }

  /** One that is accepted replaces its read by the next of the same epoch. */
  lemma AcceptedFlow(s: State, k: nat, packets: seq<Packet>)
    requires AtomicInv(s) && Has(s, k, Armed) && Accepts(s, s.flow[k])
    ensures var n := CompleteRead(s, k, packets);
            && Current(s, k) && |n.flow| == |s.flow| + 1 && n.flow[|s.flow|] == Read(s.epoch, Armed)
            && n.flow[k] == Read(s.epoch, Done) && Current(n, |s.flow|) && !Live(n, k)
            && (forall j: nat :: j < |s.flow| && j != k ==> n.flow[j] == s.flow[j])
  {
  }

  lemma AtomicAccept(s: State, k: nat, packets: seq<Packet>)
    requires Consistent(s) && AtomicInv(s) && Has(s, k, Armed) && Accepts(s, s.flow[k])
    ensures AtomicInv(CompleteRead(s, k, packets)) && CompleteRead(s, k, packets).staleUse == s.staleUse
  {
    var n := CompleteRead(s, k, packets);
    AcceptedFlow(s, k, packets);
    assert !s.pc.Bumping? && n == s.(flow := n.flow, ingested := n.ingested);
    hide CompleteRead, Accepts;
    OthersStay(s, n, k);
  }

  lemma AtomicComplete(s: State, k: nat, packets: seq<Packet>)
    requires Consistent(s) && AtomicInv(s) && Has(s, k, Armed)
    ensures AtomicInv(CompleteRead(s, k, packets)) && CompleteRead(s, k, packets).staleUse == s.staleUse
  {
    hide Consistent, AtomicInv, CompleteRead;
    if Accepts(s, s.flow[k]) { AtomicAccept(s, k, packets); } else { AtomicRefuse(s, k, packets); }
  }

  lemma {:induction false} AtomicStep(cfg: Config, s: State, e: Event)
    requires cfg.atomicHandlers && Consistent(s) && AtomicInv(s)
    ensures AtomicInv(Step(cfg, s, e)) && Step(cfg, s, e).staleUse == s.staleUse
  {
    if e.Advance? && s.pc.Arming? {
      AtomicArm(s);
    } else if e.Advance? && s.pc.Bumping? {
      AtomicBump(s);
    } else if e.Start? || e.Restart? || e.Stop? || e.Advance? {
      AtomicControl(cfg, s, e);
    } else if e.Complete? && Has(s, e.k, Armed) {
      AtomicComplete(s, e.k, e.packets);
    }
  }

  // ---------------------------------------------------------------------
  // An engine object started once.
  // ---------------------------------------------------------------------

  /** Started once, an engine never has more than one read or handler alive; it is of the current
      epoch while the loop is up. */
  ghost predicate OnceInv(s: State) {
    && (!s.used || BeforeRead(s) ==> s.flow == [])
    && OneOutstanding(s)
    && (Up(s) ==> exists k: nat :: Current(s, k))
  }

  lemma OnceControl(cfg: Config, s: State, e: Event)
    requires !cfg.reuse && Consistent(s) && OnceInv(s)
    requires e.Start? || e.Restart? || e.Stop? || (e.Advance? && !s.pc.Arming? && !s.pc.Bumping?)
    ensures OnceInv(Step(cfg, s, e))
  {
    SameFlow(s, Step(cfg, s, e));
  }

  lemma OnceAdvance(s: State)
    requires Consistent(s) && OnceInv(s) && (s.pc.Arming? || s.pc.Bumping?)
    ensures OnceInv(AdvanceControl(s))
  {
    var n := AdvanceControl(s);
    if s.pc.Arming? {
      assert n.flow == [Read(s.epoch, Armed)] && Current(n, 0);
    } else {
      assert forall k: nat :: Live(n, k) <==> Live(s, k);
    }
  }

  /** A handler moves on, or its read is replaced by the next. */
  lemma OnceMoved(s: State, n: State, k: nat)
    requires Consistent(s) && OnceInv(s) && Live(s, k)
    requires n == s.(flow := n.flow, ingested := n.ingested, staleUse := n.staleUse)
    requires |s.flow| <= |n.flow| <= |s.flow| + 1
    requires forall j: nat :: j < |s.flow| && j != k ==> n.flow[j] == s.flow[j]
    requires |n.flow| == |s.flow| + 1 ==> !Live(n, k)
    requires s.running ==> Current(n, k) || Current(n, |s.flow|)
    ensures OnceInv(n)
  {
    OthersStay(s, n, k);
    assert forall j: nat :: Live(n, j) ==> j == k || j == |s.flow|;
  }

  lemma {:induction false} OnceStep(cfg: Config, s: State, e: Event)
    requires !cfg.reuse && Consistent(s) && OnceInv(s)
    ensures OnceInv(Step(cfg, s, e))
  {
    hide AdvanceControl;
    if e.Advance? && (s.pc.Arming? || s.pc.Bumping?) {
      OnceAdvance(s);
    } else if e.Start? || e.Restart? || e.Stop? || e.Advance? {
      OnceControl(cfg, s, e);
    } else if Step(cfg, s, e) != s {
      OnceHandler(cfg, s, e);
    }
  }

  lemma OnceHandler(cfg: Config, s: State, e: Event)
    requires Consistent(s) && OnceInv(s) && Step(cfg, s, e) != s
    requires !(e.Start? || e.Restart? || e.Stop? || e.Advance?)
    ensures OnceInv(Step(cfg, s, e))
  {
    var k, n := e.k, Step(cfg, s, e);
    assert Live(s, k);
    assert s.running ==> Current(s, k);
    OnceMoved(s, n, k);
  }

  // ---------------------------------------------------------------------
  // All outstanding reads, whatever the handlers and however often the engine is started.
  // ---------------------------------------------------------------------

  /** How many reads are outstanding or being handled. */
  function Outstanding(flow: seq<Read>): nat {
    if flow == [] then 0
    else Outstanding(flow[..|flow| - 1]) + if flow[|flow| - 1].status.Done? then 0 else 1
  }

  lemma OutstandingAppend(flow: seq<Read>, r: Read)
    ensures Outstanding(flow + [r]) == Outstanding(flow) + if r.status.Done? then 0 else 1
  {
    assert (flow + [r])[..|flow|] == flow;
  }

  lemma {:induction false} OutstandingUpdate(flow: seq<Read>, k: nat, r: Read)
    requires k < |flow| && !flow[k].status.Done?
    ensures Outstanding(flow[k := r]) == Outstanding(flow) - if r.status.Done? then 1 else 0
  {
    var last := |flow| - 1;
    if k == last {
      assert flow[k := r][..last] == flow[..last];
    } else {
      assert flow[k := r][..last] == flow[..last][k := r];
      OutstandingUpdate(flow[..last], k, r);
    }
  }

  /** Every stop and every failed restart bumps the epoch, and only a start adds a read. */
  ghost predicate Bounded(s: State) {
    Outstanding(s.flow) <= s.epoch + if Up(s) || s.pc.Bumping? then 1 else 0
  }

  lemma BoundedStep(cfg: Config, s: State, e: Event)
    requires Consistent(s) && Bounded(s)
    ensures Bounded(Step(cfg, s, e))
  {
    hide Outstanding;
    if e.Advance? {
      OutstandingAppend(s.flow, Read(s.epoch, Armed));
    } else if !(e.Start? || e.Restart? || e.Stop?) && Live(s, e.k) {
      BoundedHandler(cfg, s, e);
    }
  }

  lemma BoundedHandler(cfg: Config, s: State, e: Event)
    requires !(e.Start? || e.Restart? || e.Stop? || e.Advance?) && Live(s, e.k) && Bounded(s)
    ensures Bounded(Step(cfg, s, e))
  {
    hide Outstanding;
    var r := Step(cfg, s, e).flow[e.k];
    OutstandingUpdate(s.flow, e.k, r);
    OutstandingAppend(s.flow[e.k := r], Read(s.epoch, Armed));
    if e.ArmNext? && s.flow[e.k].status.Ready? {
      OutstandingAppend(s.flow[e.k := r], Read(s.flow[e.k].status.next, Armed));
    }
  }

  // ---------------------------------------------------------------------
  // All runs.
  // ---------------------------------------------------------------------

  ghost predicate Inv(cfg: Config, s: State) {
    Consistent(s) && Bounded(s) && (cfg.atomicHandlers ==> AtomicInv(s) && !s.staleUse) && (!cfg.reuse ==> OnceInv(s))
  }

  lemma {:induction false} StepInv(cfg: Config, s: State, e: Event)
    requires Inv(cfg, s)
    ensures Inv(cfg, Step(cfg, s, e))
  {
    hide Step, Consistent, Bounded, AtomicInv, OnceInv;
    ControlConsistent(cfg, s, e);
    BoundedStep(cfg, s, e);
    if cfg.atomicHandlers { AtomicStep(cfg, s, e); }
    if !cfg.reuse { OnceStep(cfg, s, e); }
  }

  lemma {:induction false} RunInv(cfg: Config, s: State, events: seq<Event>)
    requires Inv(cfg, s)
    ensures Inv(cfg, RunFrom(cfg, s, events))
    decreases |events|
  {
    hide Inv, Step;
    if events != [] {
      StepInv(cfg, s, events[0]);
      RunInv(cfg, Step(cfg, s, events[0]), events[1..]);
    }
  }

  lemma ReachableInv(cfg: Config, events: seq<Event>)
    ensures Inv(cfg, Run(cfg, events))
  {
    assert Inv(cfg, INITIAL);
    RunInv(cfg, INITIAL, events);
  }

  lemma InvOneChain(cfg: Config, s: State)
    requires Inv(cfg, s) && (cfg.atomicHandlers || !cfg.reuse)
    ensures OneChain(s) && OnePerEpoch(s) && (Up(s) ==> exists k: nat :: Current(s, k))
  {
  }

  // ---------------------------------------------------------------------
  // The unsafe settings, and the exact conditions.
  // ---------------------------------------------------------------------

  const STARTED: seq<Event> := [Start(true), Advance, Advance, Advance]
  const STOPPED: seq<Event> := [Stop, Advance, Advance, Advance]

  /** Started, with one read of epoch 0 in the given status; and stopped after that. */
  function UpWith(status: Status): State {
    State(true, true, true, true, 0, [Read(0, status)], Idle, 0, [], false)
  }

  function DownWith(status: Status): State {
    State(false, true, false, false, 1, [Read(0, status)], Idle, 1, [], false)
  }

  lemma StartedRun(cfg: Config)
    ensures Run(cfg, STARTED) == UpWith(Armed)
  {
    Fold4(Stepper(cfg), INITIAL, Start(true), Advance, Advance, Advance);
  }

  lemma StoppedRun(cfg: Config, status: Status)
    ensures RunFrom(cfg, UpWith(status), STOPPED) == DownWith(status)
  {
    Fold4(Stepper(cfg), UpWith(status), Stop, Advance, Advance, Advance);
  }

  const CHECKED: seq<Event> := STARTED + [Check(0)]
  const TESTED: seq<Event> := CHECKED + [Rearm(0)]

  lemma CheckedRun(cfg: Config)
    requires !cfg.atomicHandlers
    ensures Run(cfg, CHECKED) == UpWith(Handling) && Run(cfg, TESTED) == UpWith(Rearming)
  {
    StartedRun(cfg);
    FoldSnoc(Stepper(cfg), INITIAL, STARTED, Check(0));
    FoldSnoc(Stepper(cfg), INITIAL, CHECKED, Rearm(0));
    hide Fold;
    assert UpWith(Armed).flow[0 := Read(0, Handling)] == [Read(0, Handling)];
    assert UpWith(Handling).flow[0 := Read(0, Rearming)] == [Read(0, Rearming)];
  }

  const STALE_USE: seq<Event> := CHECKED + STOPPED + [IngestNext(0, [])]

  /** A handler is past its checks when a whole stop goes by, and then ingests. */
  lemma StaleHandlerIngests(cfg: Config)
    requires !cfg.atomicHandlers
    ensures Run(cfg, STALE_USE).staleUse
  {
    CheckedRun(cfg);
    StoppedRun(cfg, Handling);
    FoldConcat(Stepper(cfg), INITIAL, CHECKED, STOPPED);
    FoldSnoc(Stepper(cfg), INITIAL, CHECKED + STOPPED, IngestNext(0, []));
  }

  const ARMED_DOWN: seq<Event> := TESTED + STOPPED + [LoadEpoch(0)] + [ArmNext(0)]

  /** A handler is past the flag test of its re-arming when a whole stop goes by: the stopped
      engine ends up with one read of the new epoch, whether or not it can be started again. */
  lemma StoppedEngineArms(cfg: Config)
    requires !cfg.atomicHandlers
    ensures Run(cfg, ARMED_DOWN) ==
            State(false, true, false, false, 1, [Read(0, Done), Read(1, Armed)], Idle, 1, [], true)
  {
    CheckedRun(cfg);
    StoppedRun(cfg, Rearming);
    FoldConcat(Stepper(cfg), INITIAL, TESTED, STOPPED);
    FoldSnoc(Stepper(cfg), INITIAL, TESTED + STOPPED, LoadEpoch(0));
    FoldSnoc(Stepper(cfg), INITIAL, TESTED + STOPPED + [LoadEpoch(0)], ArmNext(0));
    hide Fold;
    var loaded := Step(cfg, DownWith(Rearming), LoadEpoch(0));
    assert loaded.flow == [Read(0, Ready(1))];
    assert Step(cfg, loaded, ArmNext(0)).flow == [Read(0, Done), Read(1, Armed)];
  }

  const TWO_CHAINS: seq<Event> := ARMED_DOWN + STARTED

  /** If the engine is then started again, two reads of the same epoch are outstanding. */
  lemma StaleHandlerRearms(cfg: Config)
    requires !cfg.atomicHandlers && cfg.reuse
    ensures !OneChain(Run(cfg, TWO_CHAINS))
  {
    StoppedEngineArms(cfg);
    var down := Run(cfg, ARMED_DOWN);
    FoldConcat(Stepper(cfg), INITIAL, ARMED_DOWN, STARTED);
    Fold4(Stepper(cfg), down, Start(true), Advance, Advance, Advance);
    hide Fold;
    var end := Run(cfg, TWO_CHAINS);
    assert end.flow == [Read(0, Done), Read(1, Armed), Read(1, Armed)] && end.epoch == 1;
    assert Current(end, 1) && Current(end, 2);
  }

  /** At most one read of the current epoch is outstanding, and at most one of any past epoch,
      over all runs, exactly when handlers are atomic or no engine object is started twice. */
  lemma OneChainIff(cfg: Config)
    ensures (forall events: seq<Event> :: OneChain(Run(cfg, events))) <==> cfg.atomicHandlers || !cfg.reuse
    ensures (forall events: seq<Event> :: OnePerEpoch(Run(cfg, events))) <==> cfg.atomicHandlers || !cfg.reuse
  {
    hide Fold, Step, OneChain, OnePerEpoch;
    if cfg.atomicHandlers || !cfg.reuse {
      forall events: seq<Event>
        ensures OneChain(Run(cfg, events)) && OnePerEpoch(Run(cfg, events))
      {
        ReachableInv(cfg, events);
        InvOneChain(cfg, Run(cfg, events));
      }
    } else {
      StaleHandlerRearms(cfg);
      OneOfCurrent(Run(cfg, TWO_CHAINS));
    }
  }

  lemma OneOfCurrent(s: State)
    ensures OnePerEpoch(s) ==> OneChain(s)
  {
  }

  /** However handlers interleave and however often the object is started: at most one read of it
      more is outstanding than it had stops and failed restarts. */
  lemma OutstandingAtMost(cfg: Config, events: seq<Event>)
    ensures Outstanding(Run(cfg, events).flow) <= Run(cfg, events).epoch + 1
  {
    hide Fold, Step, Consistent, AtomicInv, OnceInv;
    ReachableInv(cfg, events);
  }

  function StopsAndStarts(n: nat): seq<Event> {
    if n == 0 then STARTED else StopsAndStarts(n - 1) + STOPPED + STARTED
  }

  /** Every stop has left its read outstanding. */
  function Piled(n: nat): State {
    State(true, true, true, true, n, seq(n + 1, i requires 0 <= i => Read(i, Armed)), Idle, n, [], false)
  }

  function PiledDown(n: nat): State {
    Piled(n).(started := false, running := false, cut := n + 1, epoch := n + 1, tunStarted := false)
  }

  lemma PiledStopped(cfg: Config, n: nat)
    ensures RunFrom(cfg, Piled(n), STOPPED) == PiledDown(n)
  {
    Fold4(Stepper(cfg), Piled(n), Stop, Advance, Advance, Advance);
  }

  lemma PiledStarted(cfg: Config, n: nat)
    requires cfg.reuse
    ensures RunFrom(cfg, PiledDown(n), STARTED) == Piled(n + 1)
  {
    var s := PiledDown(n);
    Fold4(Stepper(cfg), s, Start(true), Advance, Advance, Advance);
    assert s.flow + [Read(n + 1, Armed)] == Piled(n + 1).flow;
  }

  lemma {:induction false} PiledRun(cfg: Config, n: nat)
    requires cfg.reuse
    ensures Run(cfg, StopsAndStarts(n)) == Piled(n)
  {
    hide Piled, PiledDown, Fold;
    if n == 0 {
      StartedRun(cfg);
      PiledOnce();
    } else {
      var before := StopsAndStarts(n - 1);
      PiledRun(cfg, n - 1);
      FoldConcat(Stepper(cfg), INITIAL, before + STOPPED, STARTED);
      FoldConcat(Stepper(cfg), INITIAL, before, STOPPED);
      PiledStopped(cfg, n - 1);
      PiledStarted(cfg, n - 1);
    }
  }

  lemma PiledOnce()
    ensures Piled(0) == UpWith(Armed)
  {
    assert Piled(0).flow == [Read(0, Armed)];
  }

  lemma {:induction false} AllOutstanding(flow: seq<Read>)
    requires forall k: nat :: k < |flow| ==> flow[k].status.Armed?
    ensures Outstanding(flow) == |flow|
  {
    if flow != [] { AllOutstanding(flow[..|flow| - 1]); }
  }

  /** The bound is reached by an engine object stopped and started n times before any read
      completes. */
  lemma OutstandingReached(cfg: Config, n: nat)
    requires cfg.reuse
    ensures var s := Run(cfg, StopsAndStarts(n)); s.epoch == n && Outstanding(s.flow) == n + 1
  {
    PiledRun(cfg, n);
    AllOutstanding(Piled(n).flow);
  }

  /** At most one read of an engine object is outstanding, over all runs, exactly when the object is
      not started twice: the epoch keeps a superseded read from being used, not from being there. */
  lemma OneOutstandingIff(cfg: Config)
    ensures (forall events: seq<Event> :: OneOutstanding(Run(cfg, events))) <==> !cfg.reuse
  {
    hide Fold, Step, OneOutstanding;
    if !cfg.reuse {
      forall events: seq<Event>
        ensures OneOutstanding(Run(cfg, events))
      {
        ReachableInv(cfg, events);
      }
    } else {
      PiledRun(cfg, 1);
      PiledTwo();
    }
  }

  lemma PiledTwo()
    ensures !OneOutstanding(Piled(1))
  {
    assert Live(Piled(1), 0) && Live(Piled(1), 1);
  }

  /** No read armed before a stop or failed restart ingests or re-arms after it, over all runs,
      exactly when handlers are atomic; restarting the same engine object makes no difference. */
  lemma NoStaleUseIff(cfg: Config)
    ensures (forall events: seq<Event> :: !Run(cfg, events).staleUse) <==> cfg.atomicHandlers
  {
    hide Fold, Step, AtomicInv, OnceInv, Consistent;
    if cfg.atomicHandlers {
      forall events: seq<Event>
        ensures !Run(cfg, events).staleUse
      {
        ReachableInv(cfg, events);
      }
    } else {
      StaleHandlerIngests(cfg);
    }
  }

  /** Between operations a started engine has exactly one current read, whatever restarts happened
      and wherever its handler stands. */
  lemma ChainWhileStarted(cfg: Config, events: seq<Event>)
    requires cfg.atomicHandlers || !cfg.reuse
    requires Run(cfg, events).pc.Idle? && Run(cfg, events).started
    ensures var s := Run(cfg, events);
            s.running && OneChain(s) && exists k: nat :: Current(s, k)
  {
    hide Fold, Step;
    ReachableInv(cfg, events);
    InvOneChain(cfg, Run(cfg, events));
  }

  ghost predicate QuietWhenStopped(s: State) {
    s.pc.Idle? && !s.started ==> NoChain(s)
  }

  /** A stopped engine has no read of the current epoch, over all runs, exactly when handlers are
      atomic; that the object is never started again does not help. */
  lemma StoppedQuietIff(cfg: Config)
    ensures (forall events: seq<Event> :: QuietWhenStopped(Run(cfg, events))) <==> cfg.atomicHandlers
  {
    hide Fold, Step;
    if cfg.atomicHandlers {
      forall events: seq<Event>
        ensures QuietWhenStopped(Run(cfg, events))
      {
        ReachableInv(cfg, events);
      }
    } else {
      StoppedEngineArms(cfg);
      assert Current(Run(cfg, ARMED_DOWN), 1);
    }
  }

  /** A restart that succeeds leaves the flow, the flag and the epoch alone. */
  lemma RestartKeepsChain(cfg: Config, s: State)
    requires s.pc.Idle? && s.started
    ensures var n := RunFrom(cfg, s, [Restart(true), Advance]);
            n.pc.Idle? && n.started && n.tunStarted && n.flow == s.flow && n.running == s.running && n.epoch == s.epoch
  {
    FoldSnoc(Stepper(cfg), s, [], Restart(true));
    FoldSnoc(Stepper(cfg), s, [Restart(true)], Advance);
    assert [] + [Restart(true)] == [Restart(true)] && [Restart(true)] + [Advance] == [Restart(true), Advance];
  }
}
