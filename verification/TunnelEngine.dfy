/** The engine object of the extension, its operations run as wholes. */
module TunnelEngine {
  import opened Common
  import opened Runs
  import opened ReadChain

  const WHOLE_HANDLERS: Config := Config(true, true)

  function Halted(s: State): State {
    s.(started := false, tunStarted := false, running := false, cut := |s.flow|, epoch := s.epoch + 1)
  }

  lemma WholeStart(history: seq<Event>, ok: bool)
    ensures var s := Run(WHOLE_HANDLERS, history);
            s.pc.Idle? ==>
              Run(WHOLE_HANDLERS, history + [Start(ok), Advance, Advance, Advance]) ==
              if s.started then s
              else if !ok then s.(used := true)
              else s.(started := true, used := true, tunStarted := true, running := true,
                      flow := s.flow + [Read(s.epoch, Armed)])
  {
    FoldConcat(Stepper(WHOLE_HANDLERS), INITIAL, history, [Start(ok), Advance, Advance, Advance]);
    Fold4(Stepper(WHOLE_HANDLERS), Run(WHOLE_HANDLERS, history), Start(ok), Advance, Advance, Advance);
  }

  lemma WholeRestart(history: seq<Event>, ok: bool)
    ensures var s := Run(WHOLE_HANDLERS, history);
            s.pc.Idle? ==>
              Run(WHOLE_HANDLERS, history + [Restart(ok), Advance, Advance, Advance] + [Advance]) ==
              if !s.started then s else if ok then s.(tunStarted := true) else Halted(s)
  {
    FoldConcat(Stepper(WHOLE_HANDLERS), INITIAL, history, [Restart(ok), Advance, Advance, Advance]);
    Fold4(Stepper(WHOLE_HANDLERS), Run(WHOLE_HANDLERS, history), Restart(ok), Advance, Advance, Advance);
    FoldSnoc(Stepper(WHOLE_HANDLERS), INITIAL, history + [Restart(ok), Advance, Advance, Advance], Advance);
  }

  lemma WholeStop(history: seq<Event>)
    ensures var s := Run(WHOLE_HANDLERS, history);
            s.pc.Idle? ==> Run(WHOLE_HANDLERS, history + STOPPED) == if !s.started then s else Halted(s)
  {
    FoldConcat(Stepper(WHOLE_HANDLERS), INITIAL, history, STOPPED);
    Fold4(Stepper(WHOLE_HANDLERS), Run(WHOLE_HANDLERS, history), Stop, Advance, Advance, Advance);
  }

  /** The fields of the engine, with each operation run as a whole. `history` is the run of steps
      they amount to; `Valid` says that the fields are those of its last state, so that what is
      proved of all runs holds of the object. */
  class SVTunnelEngine {
    var started: bool
    var tunStarted: bool
    var ingressRunning: bool
    var ingressEpoch: nat
    var ingressPackets: nat
    var ingested: seq<Packet>
    var writerCtx: Option<nat>
    var flow: seq<Read>
    ghost var history: seq<Event>

    ghost predicate Valid()
      reads this
    {
      var s := Run(WHOLE_HANDLERS, history);
      && s.pc.Idle?
      && s.started == started && s.tunStarted == tunStarted
      && s.running == ingressRunning && s.epoch == ingressEpoch
      && s.flow == flow && s.ingested == ingested && ingressPackets == |ingested|
      && (started <==> writerCtx.Some?)
    }

    constructor ()
      ensures Valid() && history == [] && !started
    {
      started, tunStarted, ingressRunning := false, false, false;
      ingressEpoch, ingressPackets := 0, 0;
      writerCtx := None;
      flow, ingested := [], [];
      history := [];
    }

    method ReadNextPackets()
      modifies this`flow
      ensures flow == if ingressRunning then old(flow) + [Read(ingressEpoch, Armed)] else old(flow)
    {
      if !ingressRunning { return; }
      flow := flow + [Read(ingressEpoch, Armed)];
    }

    method ReleaseWriterContext()
      modifies this`writerCtx
      ensures writerCtx == None
    {
      writerCtx := None;
    }

    /** `ok` is whether the data plane comes up; `writer` the context retained for it. */
    method Start(ok: bool, writer: nat) returns (up: bool)
      requires Valid()
      modifies this
      ensures Valid() && history == old(history) + [Event.Start(ok), Advance, Advance, Advance]
      ensures up == started == (old(started) || ok)
      ensures !old(started) && ok ==> writerCtx == Some(writer) && flow == old(flow) + [Read(ingressEpoch, Armed)]
      ensures old(started) || !ok ==> writerCtx == old(writerCtx) && flow == old(flow)
    {
      hide Fold, Step;
      WholeStart(history, ok);
      history := history + [Event.Start(ok), Advance, Advance, Advance];
      if started { return true; }
      started := true;
      writerCtx := Some(writer);
      if !ok {
        ReleaseWriterContext();
        started := false;
        return false;
      }
      tunStarted := true;
      ingressRunning := true;
      ReadNextPackets();
      return true;
    }

    method Restart(ok: bool) returns (up: bool)
      requires Valid()
      modifies this
      ensures Valid() && history == old(history) + [Event.Restart(ok), Advance, Advance, Advance] + [Advance]
      ensures up == started == (old(started) && ok)
      ensures up ==> flow == old(flow) && ingressEpoch == old(ingressEpoch) && writerCtx == old(writerCtx)
      ensures !up && old(started) ==> ingressEpoch > old(ingressEpoch) && writerCtx.None?
    {
      hide Fold, Step;
      WholeRestart(history, ok);
      history := history + [Event.Restart(ok), Advance, Advance, Advance] + [Advance];
      if !started { return false; }
      if tunStarted { tunStarted := false; }
      if !ok {
        ingressRunning := false;
        ingressEpoch := ingressEpoch + 1;
        ReleaseWriterContext();
        started := false;
        return false;
      }
      tunStarted := true;
      return true;
    }

    method Stop()
      requires Valid()
      modifies this
      ensures Valid() && history == old(history) + STOPPED
      ensures !started && writerCtx.None? && flow == old(flow)
      ensures old(started) ==> ingressEpoch > old(ingressEpoch)
    {
      hide Fold, Step;
      WholeStop(history);
      history := history + STOPPED;
      if !started { return; }
      started := false;
      ingressRunning := false;
      ingressEpoch := ingressEpoch + 1;
      if tunStarted { tunStarted := false; }
      ReleaseWriterContext();
    }

    /** One packet handed to the core, and counted. */
    method IngestPacket(packet: Packet)
      modifies this`ingested, this`ingressPackets
      ensures ingested == old(ingested) + [packet] && ingressPackets == old(ingressPackets) + 1
    {
      ingested := ingested + [packet];
      ingressPackets := ingressPackets + 1;
    }

    /** The completion of read `k` with a batch of packets. A read that was armed before a stop or
        failed restart changes nothing, however often the engine was started since. */
    method ReadCompleted(k: nat, packets: seq<Packet>)
      requires Valid() && k < |flow| && flow[k].status.Armed?
      modifies this
      ensures Valid() && history == old(history) + [Complete(k, packets)]
      ensures started == old(started) && ingressEpoch == old(ingressEpoch) && writerCtx == old(writerCtx)
      ensures old(started && flow[k].epoch == ingressEpoch) ==>
                ingested == old(ingested) + packets
                && flow == old(flow)[k := old(flow[k]).(status := Done)] + [Read(ingressEpoch, Armed)]
      ensures !old(started && flow[k].epoch == ingressEpoch) ==>
                ingested == old(ingested) && flow == old(flow)[k := old(flow[k]).(status := Done)]
    {
      ReachableInv(WHOLE_HANDLERS, history);
      hide Fold, AtomicInv;
      FoldSnoc(Stepper(WHOLE_HANDLERS), INITIAL, history, Complete(k, packets));
      history := history + [Complete(k, packets)];
      var epoch := flow[k].epoch;
      flow := flow[k := flow[k].(status := Done)];
      if !ingressRunning { return; }
      if ingressEpoch != epoch { return; }
      for i := 0 to |packets|
        invariant ingested == old(ingested) + packets[..i] && ingressPackets == |ingested|
        modifies this`ingested, this`ingressPackets
      {
        IngestPacket(packets[i]);
      }
      assert packets[..|packets|] == packets;
      ReadNextPackets();
    }
  }
}
