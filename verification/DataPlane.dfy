/** The statics of the core and the channels of its sessions, with each call run as a whole. */
module DataPlane {
  import opened Common
  import opened Runs
  import opened IngestQueue

  const AS_WRITTEN: Config := Config(false, true)

  /** What one drain of a queue sends, given what becomes of each packet in turn: it ends with the
      queue, with the known outcomes, or with the first failed send. */
  function SentOf(queue: seq<nat>, outcomes: seq<Outcome>): seq<nat> {
    if queue == [] || outcomes == [] || outcomes[0].SendError? then []
    else (if outcomes[0].SendOk? then [queue[0]] else []) + SentOf(queue[1..], outcomes[1..])
  }

  function Tagged(i: nat, ids: seq<nat>): seq<Datagram> {
    if ids == [] then [] else [Datagram(i, ids[0])] + Tagged(i, ids[1..])
  }

  function SizeOf(packets: seq<Packet>, ids: seq<nat>): nat {
    if ids == [] then 0 else (if ids[0] < |packets| then packets[ids[0]].size else 0) + SizeOf(packets, ids[1..])
  }

  ghost predicate SameSizes(p: seq<Packet>, q: seq<Packet>) {
    |p| == |q| && forall k: nat :: k < |p| ==> p[k].size == q[k].size
  }

  lemma SizesSame(p: seq<Packet>)
    ensures SameSizes(p, p)
  {
  }

  lemma SizesTrans(p: seq<Packet>, q: seq<Packet>, r: seq<Packet>)
    requires SameSizes(p, q) && SameSizes(q, r)
    ensures SameSizes(p, r)
    ensures forall id: nat :: id < |q| ==> id < |r| && q[id].size == r[id].size
  {
  }

  lemma {:induction false} TaggedSnoc(i: nat, ids: seq<nat>, id: nat)
    ensures Tagged(i, ids + [id]) == Tagged(i, ids) + [Datagram(i, id)]
  {
    if ids == [] {
      assert Tagged(i, []) == [];
    } else {
      assert (ids + [id])[1..] == ids[1..] + [id];
      TaggedSnoc(i, ids[1..], id);
    }
  }

  lemma {:induction false} SizeSnoc(packets: seq<Packet>, ids: seq<nat>, id: nat)
    ensures SizeOf(packets, ids + [id]) == SizeOf(packets, ids) + if id < |packets| then packets[id].size else 0
  {
    if ids == [] {
      assert SizeOf(packets, []) == 0;
    } else {
      assert (ids + [id])[1..] == ids[1..] + [id];
      SizeSnoc(packets, ids[1..], id);
    }
  }

  lemma NothingSent(i: nat, packets: seq<Packet>)
    ensures Tagged(i, []) == [] && SizeOf(packets, []) == 0
  {
  }

  lemma SentUsedUp(queue: seq<nat>, outcomes: seq<Outcome>)
    ensures queue == [] || outcomes == [] ==> SentOf(queue, outcomes) == []
  {
  }

  lemma HeldIsKnown(history: seq<Event>, i: nat)
    ensures var s := Run(AS_WRITTEN, history);
            i < |s.sessions| && s.sessions[i].task.Handling? ==> s.sessions[i].task.id < |s.packets|
  {
    ReachableInv(AS_WRITTEN, history);
    var s := Run(AS_WRITTEN, history);
    if i < |s.sessions| { assert SessionOk(s, i); }
  }

  lemma SentUnfold(queue: seq<nat>, outcomes: seq<Outcome>, n: nat)
    requires n < |outcomes| && queue != []
    ensures SentOf(queue, outcomes[n..]) ==
            if outcomes[n].SendError? then []
            else (if outcomes[n].SendOk? then [queue[0]] else []) + SentOf(queue[1..], outcomes[n + 1..])
  {
    assert outcomes[n..][1..] == outcomes[n + 1..];
  }

  /** The two halves of a call of `ingest`, back to back. */
  function IngestResult(s: State, size: nat): State {
    var next := s.(offered := s.offered + 1);
    if s.current.None? || s.current.value >= |s.sessions| || s.sessions[s.current.value].task.Gone?
    then next.(packets := s.packets + [Packet(s.offered, size, Rejected)])
    else
      var i, q := s.current.value, s.sessions[s.current.value].queue;
      if |q| >= INGEST_QUEUE_DEPTH then next.(packets := s.packets + [Packet(s.offered, size, DroppedFull)])
      else next.(packets := s.packets + [Packet(s.offered, size, Queued(i))],
                 sessions := s.sessions[i := s.sessions[i].(queue := q + [|s.packets|])])
  }

  function IngestEvents(s: State, size: nat): seq<Event> {
    [Offer(size)] + if s.current.Some? then [TrySend(0)] else []
  }

  lemma WholeIngest(history: seq<Event>, size: nat)
    requires size > 0 && Run(AS_WRITTEN, history).calls == []
    ensures var s := Run(AS_WRITTEN, history);
            Run(AS_WRITTEN, history + IngestEvents(s, size)) == IngestResult(s, size)
  {
    hide Fold;
    var s := Run(AS_WRITTEN, history);
    ReachableInv(AS_WRITTEN, history);
    FoldSnoc(Stepper(AS_WRITTEN), INITIAL, history, Offer(size));
    FoldSnoc(Stepper(AS_WRITTEN), INITIAL, history + [Offer(size)], TrySend(0));
    assert history + ([Offer(size)] + [TrySend(0)]) == history + [Offer(size)] + [TrySend(0)];
    assert [Offer(size)] + [] == [Offer(size)];
    BothHalves(s, size);
  }

  lemma BothHalves(s: State, size: nat)
    requires size > 0 && s.calls == [] && SlotOk(s)
    ensures var n := OfferPacket(AS_WRITTEN, s, size);
            (if s.current.Some? then TrySendPacket(n, 0) else n) == IngestResult(s, size)
  {
  }

  /** The statics of the engine and the channels of its sessions, with each call run as a whole.
      `history` is the run of steps they amount to, so that what is proved of all runs holds of
      the object. */
  class Engine {
    var packets: seq<Packet>
    var sessions: seq<Session>
    var current: Option<nat>
    var running: bool
    var wire: seq<Datagram>
    var upBytes: nat
    ghost var history: seq<Event>

    ghost function Value(): State
      reads this
    {
      State(packets, sessions, current, running, [], |packets|, wire, upBytes)
    }

    ghost predicate Valid()
      reads this
    {
      Value() == Run(AS_WRITTEN, history) && SlotOk(Value())
    }

    constructor ()
      ensures Valid() && history == []
    {
      packets, sessions, wire := [], [], [];
      current, running, upBytes := None, false, 0;
      history := [];
    }

    method Start(ok: bool) returns (up: bool)
      requires Valid()
      modifies this
      ensures Valid() && history == old(history) + [Event.Start(ok)]
      ensures up == (!old(running) && ok)
      ensures up ==> running && current == Some(|old(sessions)|)
      ensures up ==> sessions == old(sessions) + [Session([], Waiting, false)]
      ensures !up ==> Value() == old(Value())
    {
      FoldSnoc(Stepper(AS_WRITTEN), INITIAL, history, Event.Start(ok));
      history := history + [Event.Start(ok)];
      if running || !ok { return false; }
      current := Some(|sessions|);
      sessions := sessions + [Session([], Waiting, false)];
      running := true;
      return true;
    }

    method Stop()
      requires Valid()
      modifies this
      ensures Valid() && history == old(history) + [Event.Stop]
      ensures !running && current.None? && packets == old(packets) && wire == old(wire) && upBytes == old(upBytes)
    {
      FoldSnoc(Stepper(AS_WRITTEN), INITIAL, history, Event.Stop);
      history := history + [Event.Stop];
      running := false;
      if current.Some? && current.value < |sessions| {
        sessions := sessions[current.value := sessions[current.value].(aborted := true)];
      }
      current := None;
    }

    /** A whole call of `svpn_tun_ingest`. A full queue is not an error; no session, or one whose
        task has ended, is. */
    method Ingest(size: nat) returns (rc: int)
      requires Valid()
      modifies this
      ensures Valid()
      ensures wire == old(wire) && upBytes == old(upBytes) && current == old(current)
      ensures rc == if size > 0 && (current.None? || old(sessions[current.value].task.Gone?)) then -1 else 0
      ensures size == 0 ==> Value() == old(Value())
      ensures size > 0 && rc == -1 ==>
                packets == old(packets) + [Packet(|old(packets)|, size, Rejected)] && sessions == old(sessions)
      ensures size > 0 && rc == 0 ==>
                var i, q := current.value, old(sessions[current.value].queue);
                if |q| < INGEST_QUEUE_DEPTH
                then packets == old(packets) + [Packet(|old(packets)|, size, Queued(i))]
                     && sessions == old(sessions)[i := old(sessions[current.value]).(queue := q + [|old(packets)|])]
                else packets == old(packets) + [Packet(|old(packets)|, size, DroppedFull)] && sessions == old(sessions)
    {
      ReachableInv(AS_WRITTEN, history);
      if size == 0 { return 0; }
      WholeIngest(history, size);
      history := history + IngestEvents(Value(), size);
      if current.None? {
        packets := packets + [Packet(|packets|, size, Rejected)];
        return -1;
      }
      var i := current.value;
      if sessions[i].task.Gone? {
        packets := packets + [Packet(|packets|, size, Rejected)];
        return -1;
      }
      if |sessions[i].queue| >= INGEST_QUEUE_DEPTH {
        packets := packets + [Packet(|packets|, size, DroppedFull)];
        return 0;
      }
      sessions := sessions[i := sessions[i].(queue := sessions[i].queue + [|packets|])];
      packets := packets + [Packet(|packets|, size, Queued(i))];
      return 0;
    }

    /** One receive of the ingress loop. */
    method ReceiveNext(i: nat) returns (id: nat)
      requires Valid() && i < |sessions| && sessions[i].task.Waiting? && sessions[i].queue != []
      modifies this
      ensures Valid() && id == old(sessions[i].queue[0])
      ensures wire == old(wire) && upBytes == old(upBytes) && SameSizes(packets, old(packets))
      ensures sessions ==
              old(sessions)[i := old(sessions[i]).(queue := old(sessions[i].queue)[1..], task := Handling(id))]
    {
      FoldSnoc(Stepper(AS_WRITTEN), INITIAL, history, Receive(i));
      history := history + [Receive(i)];
      id := sessions[i].queue[0];
      packets := SetFate(packets, id, InFlight(i));
      sessions := sessions[i := sessions[i].(queue := sessions[i].queue[1..], task := Handling(id))];
    }

    /** The packet is on the wire; its bytes are counted next. */
    method CountSent(i: nat, id: nat)
      requires Valid() && i < |sessions| && sessions[i].task == Counting(id) && id < |packets|
      modifies this
      ensures Valid() && SameSizes(packets, old(packets)) && wire == old(wire)
      ensures upBytes == old(upBytes) + old(packets[id].size)
      ensures sessions == old(sessions)[i := old(sessions[i]).(task := Waiting)]
    {
      hide Fold;
      FoldSnoc(Stepper(AS_WRITTEN), INITIAL, history, CountBytes(i));
      history := history + [CountBytes(i)];
      upBytes := upBytes + packets[id].size;
      packets := SetFate(packets, id, Sent(i));
      sessions := sessions[i := sessions[i].(task := Waiting)];
    }

    /** The rest of one iteration, for each thing that may become of the packet. */
    method Deliver(i: nat, id: nat, outcome: Outcome)
      requires Valid() && i < |sessions| && sessions[i].task == Handling(id)
      modifies this
      ensures Valid() && |sessions| == |old(sessions)| && SameSizes(packets, old(packets))
      ensures id < |packets|
      ensures wire == old(wire) + if outcome.SendOk? then [Datagram(i, id)] else []
      ensures upBytes == old(upBytes) + if outcome.SendOk? then packets[id].size else 0
      ensures outcome.SendError? ==> sessions[i] == old(sessions[i]).(queue := [], task := Gone)
      ensures !outcome.SendError? ==> sessions[i] == old(sessions[i]).(task := Waiting)
    {
      HeldIsKnown(history, i);
      hide Fold, Discard;
      FoldSnoc(Stepper(AS_WRITTEN), INITIAL, history, Handle(i, outcome));
      history := history + [Handle(i, outcome)];
      match outcome
      case Intercept =>
        packets := SetFate(packets, id, Intercepted);
        sessions := sessions[i := sessions[i].(task := Waiting)];
      case CryptoError =>
        packets := SetFate(packets, id, Unencryptable);
        sessions := sessions[i := sessions[i].(task := Waiting)];
      case SendOk =>
        packets := SetFate(packets, id, OnWire(i));
        wire := wire + [Datagram(i, id)];
        sessions := sessions[i := sessions[i].(task := Counting(id))];
        CountSent(i, id);
      case SendError =>
        var queue := sessions[i].queue;
        packets := Discard(SetFate(packets, id, Failed), queue);
        sessions := sessions[i := sessions[i].(queue := [], task := Gone)];
    }

    /** The ingress loop until its queue is drained, the known outcomes are used up, or a send
        fails. */
    method IngressLoop(i: nat, outcomes: seq<Outcome>)
      requires Valid() && i < |sessions| && sessions[i].task.Waiting?
      modifies this
      ensures Valid() && SameSizes(packets, old(packets))
      ensures wire == old(wire) + Tagged(i, SentOf(old(sessions[i].queue), outcomes))
      ensures upBytes == old(upBytes) + SizeOf(old(packets), SentOf(old(sessions[i].queue), outcomes))
    {
      hide Fold, Run, SentOf, Tagged, SizeOf, SlotOk, Valid, SameSizes;
      SizesSame(packets);
      var n := 0;
      ghost var done: seq<nat> := [];
      NothingSent(i, packets);
      ghost var all := SentOf(sessions[i].queue, outcomes);
      while n < |outcomes| && sessions[i].task.Waiting? && sessions[i].queue != []
        invariant 0 <= n <= |outcomes| && Valid() && i < |sessions|
        invariant sessions[i].task.Waiting? || (sessions[i].task.Gone? && sessions[i].queue == [])
        invariant SameSizes(packets, old(packets))
        invariant wire == old(wire) + Tagged(i, done)
        invariant upBytes == old(upBytes) + SizeOf(old(packets), done)
        invariant all == done + SentOf(sessions[i].queue, outcomes[n..])
      {
        ghost var queue, before := sessions[i].queue, packets;
        var id := ReceiveNext(i);
        SizesTrans(packets, before, old(packets));
        ghost var held := packets;
        Deliver(i, id, outcomes[n]);
        SizesTrans(packets, held, old(packets));
        TaggedSnoc(i, done, id);
        SizeSnoc(old(packets), done, id);
        SentUnfold(queue, outcomes, n);
        SentUsedUp(sessions[i].queue, outcomes[n + 1..]);
        if outcomes[n].SendOk? { done := done + [id]; }
        n := n + 1;
      }
      SentUsedUp(sessions[i].queue, outcomes[n..]);
      assert all == done;
    }
  }
}
