/** What becomes of every packet given to `ingest`: the bounded queue of each session, the ingress
    task that drains it, stops and restarts in any interleaving with them, and the upstream byte
    counter. */
module IngestQueue {
  import opened Common
  import opened Runs

  const INGEST_QUEUE_DEPTH: nat := 1024

  /** `joinsIngress`: whether a new session starts only after the ingress task of the old one has
      ended. The code as written does not wait for it. `overlap`: whether a call to `ingest` may
      begin before the one before it has returned. The code as written does not keep a read
      handler that outlives a stop from running beside the next one. */
  datatype Config = Config(joinsIngress: bool, overlap: bool)

  /** A call that holds a sender clone of a session but has not tried it yet. Calls are numbered in
      the order in which they begin. */
  datatype Call = Call(number: nat, size: nat, session: nat)

  /** `OnWire` is sent but not counted yet. The number is the session. */
  datatype Fate =
    | Rejected
    | DroppedFull
    | Queued(session: nat)
    | InFlight(session: nat)
    | Intercepted
    | Unencryptable
    | OnWire(session: nat)
    | Sent(session: nat)
    | Failed
    | Lost

  datatype Packet = Packet(call: nat, size: nat, fate: Fate)

  /** The ingress task: at the receive, holding a packet, past a successful send, or ended. */
  datatype Task = Waiting | Handling(id: nat) | Counting(id: nat) | Gone

  datatype Session = Session(queue: seq<nat>, task: Task, aborted: bool)

  datatype Datagram = Datagram(session: nat, id: nat)

  /** A packet is named by its position in the order in which the calls are decided: rejected for
      want of a session, or tried on the queue. `calls` are those not decided yet. */
  datatype State = State(
    packets: seq<Packet>,
    sessions: seq<Session>,
    current: Option<nat>,
    running: bool,
    calls: seq<Call>,
    offered: nat,
    wire: seq<Datagram>,
    upBytes: nat)

  datatype Outcome = Intercept | CryptoError | SendOk | SendError

  datatype Event =
    | Start(ok: bool)
    | Stop
    | Offer(size: nat)
    | TrySend(c: nat)
    | Receive(i: nat)
    | Handle(i: nat, outcome: Outcome)
    | CountBytes(i: nat)
    | Cancel(i: nat)
    | Close(i: nat)

  const INITIAL: State := State([], [], None, false, [], 0, [], 0)

  // ---------------------------------------------------------------------
  // Steps.
  // ---------------------------------------------------------------------

  function SetFate(packets: seq<Packet>, id: nat, fate: Fate): seq<Packet> {
    if id < |packets| then packets[id := packets[id].(fate := fate)] else packets
  }

  /** Dropping the receiver discards what is still queued. */
  function Discard(packets: seq<Packet>, queue: seq<nat>): (r: seq<Packet>)
    ensures |r| == |packets|
    ensures forall k: nat :: k < |packets| ==> r[k] == if k in queue then packets[k].(fate := Lost) else packets[k]
  {
    if queue == [] then packets else SetFate(Discard(packets, queue[1..]), queue[0], Lost)
  }

  function EndTask(s: State, i: nat): State
    requires i < |s.sessions|
  {
    s.(packets := Discard(s.packets, s.sessions[i].queue),
       sessions := s.sessions[i := s.sessions[i].(queue := [], task := Gone)])
  }

  function StartSession(cfg: Config, s: State, ok: bool): State {
    if s.running || !ok then s
    else if cfg.joinsIngress && exists i: nat :: i < |s.sessions| && !s.sessions[i].task.Gone? then s
    else s.(sessions := s.sessions + [Session([], Waiting, false)], current := Some(|s.sessions|), running := true)
  }

  function StopSession(s: State): State {
    var down := s.(running := false, current := None);
    if s.current.Some? && s.current.value < |s.sessions|
    then down.(sessions := s.sessions[s.current.value := s.sessions[s.current.value].(aborted := true)])
    else down
  }

  /** First half of `ingest`: clone the sender of the session in the slot, if there is one. Empty
      packets do not get this far. */
  function OfferPacket(cfg: Config, s: State, size: nat): State {
    if size == 0 || (!cfg.overlap && s.calls != []) then s
    else
      var next := s.(offered := s.offered + 1);
      if s.current.None? then next.(packets := s.packets + [Packet(s.offered, size, Rejected)])
      else next.(calls := s.calls + [Call(s.offered, size, s.current.value)])
  }

  /** What `try_send` on the clone of a session does with a packet. */
  function Tried(s: State, i: nat): Fate
    requires i < |s.sessions|
  {
    if s.sessions[i].task.Gone? then Rejected
    else if |s.sessions[i].queue| >= INGEST_QUEUE_DEPTH then DroppedFull
    else Queued(i)
  }

  /** Second half: `try_send`, whatever session is current by then. */
  function TrySendPacket(s: State, c: nat): State {
    if c >= |s.calls| || s.calls[c].session >= |s.sessions| then s
    else
      var i, id, fate := s.calls[c].session, |s.packets|, Tried(s, s.calls[c].session);
      var done := s.(calls := s.calls[..c] + s.calls[c + 1..],
                     packets := s.packets + [Packet(s.calls[c].number, s.calls[c].size, fate)]);
      if fate.Queued? then done.(sessions := s.sessions[i := s.sessions[i].(queue := s.sessions[i].queue + [id])])
      else done
  }

  function ReceivePacket(s: State, i: nat): State {
    if i >= |s.sessions| || !s.sessions[i].task.Waiting? || s.sessions[i].queue == [] then s
    else
      var id := s.sessions[i].queue[0];
      s.(packets := SetFate(s.packets, id, InFlight(i)),
         sessions := s.sessions[i := s.sessions[i].(queue := s.sessions[i].queue[1..], task := Handling(id))])
  }

  function SetTask(s: State, i: nat, task: Task): State
    requires i < |s.sessions|
  {
    s.(sessions := s.sessions[i := s.sessions[i].(task := task)])
  }

  function Resolve(s: State, i: nat, fate: Fate, task: Task): State
    requires i < |s.sessions| && s.sessions[i].task.Handling?
  {
    SetTask(s, i, task).(packets := SetFate(s.packets, s.sessions[i].task.id, fate))
  }

  function HandlePacket(s: State, i: nat, outcome: Outcome): State {
    if i >= |s.sessions| || !s.sessions[i].task.Handling? then s
    else
      var id := s.sessions[i].task.id;
      match outcome
      case Intercept => Resolve(s, i, Intercepted, Waiting)
      case CryptoError => Resolve(s, i, Unencryptable, Waiting)
      case SendOk => Resolve(s, i, OnWire(i), Counting(id)).(wire := s.wire + [Datagram(i, id)])
      case SendError => EndTask(Resolve(s, i, Failed, Waiting), i)
  }

  function CountPacket(s: State, i: nat): State {
    if i >= |s.sessions| || !s.sessions[i].task.Counting? || s.sessions[i].task.id >= |s.packets| then s
    else
      var id := s.sessions[i].task.id;
      SetTask(s, i, Waiting).(packets := SetFate(s.packets, id, Sent(i)), upBytes := s.upBytes + s.packets[id].size)
  }

  /** An abort takes effect at some later await: at the receive, or with a packet in hand. */
  function CancelTask(s: State, i: nat): State {
    if i >= |s.sessions| || !s.sessions[i].aborted then s
    else if s.sessions[i].task.Waiting? then EndTask(s, i)
    else if s.sessions[i].task.Handling? then EndTask(Resolve(s, i, Lost, Waiting), i)
    else s
  }

  /** The receive returns `None`: every sender is gone and the queue is drained. */
  function CloseTask(s: State, i: nat): State {
    if i < |s.sessions| && s.sessions[i].task.Waiting? && s.sessions[i].queue == []
       && s.current != Some(i) && (forall c: nat :: c < |s.calls| ==> s.calls[c].session != i)
    then SetTask(s, i, Gone) else s
  }

  /** One atomic step; an event that is not enabled changes nothing. */
  function Step(cfg: Config, s: State, e: Event): State {
    match e
    case Start(ok) => StartSession(cfg, s, ok)
    case Stop => StopSession(s)
    case Offer(size) => OfferPacket(cfg, s, size)
    case TrySend(c) => TrySendPacket(s, c)
    case Receive(i) => ReceivePacket(s, i)
    case Handle(i, outcome) => HandlePacket(s, i, outcome)
    case CountBytes(i) => CountPacket(s, i)
    case Cancel(i) => CancelTask(s, i)
    case Close(i) => CloseTask(s, i)
  }

  function Stepper(cfg: Config): (State, Event) -> State {
    (s, e) => Step(cfg, s, e)
  }

  function RunFrom(cfg: Config, s: State, events: seq<Event>): State {
    Fold(Stepper(cfg), s, events)
  }

  function Run(cfg: Config, events: seq<Event>): State {
    RunFrom(cfg, INITIAL, events)
  }

  // ---------------------------------------------------------------------
  // Where each packet is.
  // ---------------------------------------------------------------------

  predicate Known(s: State, id: nat, fate: Fate) {
    id < |s.packets| && s.packets[id].fate == fate
  }

  /** The fate of a packet says where it is. */
  predicate Located(s: State, id: nat)
    requires id < |s.packets|
  {
    match s.packets[id].fate
    case Queued(i) => i < |s.sessions| && id in s.sessions[i].queue
    case InFlight(i) => i < |s.sessions| && s.sessions[i].task == Handling(id)
    case OnWire(i) => i < |s.sessions| && s.sessions[i].task == Counting(id) && Datagram(i, id) in s.wire
    case Sent(i) => Datagram(i, id) in s.wire
    case _ => true
  }

  predicate Increasing(q: seq<nat>) {
    forall a: nat, b: nat :: a < b < |q| ==> q[a] < q[b]
  }

  /** Everything a session holds has the fate that says so, oldest first. */
  predicate SessionOk(s: State, i: nat)
    requires i < |s.sessions|
  {
    var t := s.sessions[i];
    && |t.queue| <= INGEST_QUEUE_DEPTH
    && Increasing(t.queue)
    && (forall id: nat :: id in t.queue ==> Known(s, id, Queued(i)))
    && match t.task
       case Waiting => true
       case Handling(h) => Known(s, h, InFlight(i)) && forall id: nat :: id in t.queue ==> h < id
       case Counting(h) => Known(s, h, OnWire(i)) && forall id: nat :: id in t.queue ==> h < id
       case Gone => t.queue == []
  }

  predicate DatagramOk(s: State, d: Datagram) {
    Known(s, d.id, Sent(d.session)) || Known(s, d.id, OnWire(d.session))
  }

  /** The datagrams of session `i` precede what it still holds. */
  predicate Precedes(s: State, d: Datagram)
  {
    d.session < |s.sessions| &&
    var t := s.sessions[d.session];
    && (forall id: nat :: id in t.queue ==> d.id < id)
    && (t.task.Handling? ==> d.id < t.task.id)
  }

  /** A sender clone is of some session. */
  predicate CallsOk(s: State) {
    forall c: nat :: c < |s.calls| ==> s.calls[c].session < |s.sessions|
  }

  predicate SlotOk(s: State) {
    && (s.running <==> s.current.Some?)
    && (s.current.Some? ==> s.current.value < |s.sessions|)
  }

  /** Datagrams of one session are in the order of their packets. */
  predicate SessionOrder(wire: seq<Datagram>) {
    forall a: nat, b: nat :: a < b < |wire| && wire[a].session == wire[b].session ==> wire[a].id < wire[b].id
  }

  ghost predicate AllLocated(s: State) {
    forall id: nat :: id < |s.packets| ==> Located(s, id)
  }

  ghost predicate AllSessionsOk(s: State) {
    forall i: nat :: i < |s.sessions| ==> SessionOk(s, i)
  }

  ghost predicate WireOk(s: State) {
    forall a: nat :: a < |s.wire| ==> DatagramOk(s, s.wire[a]) && Precedes(s, s.wire[a])
  }

  function SentBytes(packets: seq<Packet>): nat {
    if packets == [] then 0
    else SentBytes(packets[..|packets| - 1])
         + if packets[|packets| - 1].fate.Sent? then packets[|packets| - 1].size else 0
  }

  ghost predicate Inv(s: State) {
    && SlotOk(s) && CallsOk(s) && AllLocated(s) && AllSessionsOk(s) && WireOk(s)
    && SessionOrder(s.wire)
    && s.upBytes == SentBytes(s.packets)
  }

  // ---------------------------------------------------------------------
  // The byte counter.
  // ---------------------------------------------------------------------

  lemma SentBytesSame(p: seq<Packet>, q: seq<Packet>)
    requires |p| == |q|
    requires forall k: nat :: k < |p| ==> p[k].size == q[k].size && p[k].fate.Sent? == q[k].fate.Sent?
    ensures SentBytes(p) == SentBytes(q)
  {
    if p != [] { SentBytesSame(p[..|p| - 1], q[..|q| - 1]); }
  }

  lemma SentBytesAdd(p: seq<Packet>, id: nat, i: nat)
    requires id < |p| && !p[id].fate.Sent?
    ensures SentBytes(SetFate(p, id, Sent(i))) == SentBytes(p) + p[id].size
  {
    var q := SetFate(p, id, Sent(i));
    var n := |p| - 1;
    if id == n {
      SentBytesSame(p[..n], q[..n]);
    } else {
      assert q[..n] == SetFate(p[..n], id, Sent(i));
      SentBytesAdd(p[..n], id, i);
    }
  }

  // ---------------------------------------------------------------------
  // Steps that touch one session.
  // ---------------------------------------------------------------------

  /** Fates a step about session `i` may change. */
  predicate Touchable(fate: Fate, i: nat) {
    fate == Queued(i) || fate == InFlight(i) || fate == OnWire(i)
  }

  /** From `s` to `n` only session `i`, fates it may change, and the wire by `extra` differ. */
  ghost predicate Local(s: State, n: State, i: nat, extra: seq<Datagram>) {
    && i < |s.sessions| == |n.sessions|
    && (forall j: nat :: j < |s.sessions| && j != i ==> n.sessions[j] == s.sessions[j])
    && |n.packets| == |s.packets|
    && (forall id: nat :: id < |s.packets| ==> n.packets[id].size == s.packets[id].size)
    && (forall id: nat :: id < |s.packets| && n.packets[id].fate != s.packets[id].fate ==>
          Touchable(s.packets[id].fate, i))
    && n.wire == s.wire + extra
  }

  lemma OtherSessions(s: State, n: State, i: nat, extra: seq<Datagram>)
    requires Local(s, n, i, extra) && AllSessionsOk(s)
    ensures forall j: nat :: j < |n.sessions| && j != i ==> SessionOk(n, j)
  {
    forall j: nat | j < |n.sessions| && j != i
      ensures SessionOk(n, j)
    {
      assert SessionOk(s, j);
      assert forall id: nat, fate: Fate :: Known(s, id, fate) && !Touchable(fate, i) ==> Known(n, id, fate);
    }
  }

  /** Packets whose fate does not change and is not with session `i` stay located. */
  lemma OtherPackets(s: State, n: State, i: nat, extra: seq<Datagram>, id: nat)
    requires Local(s, n, i, extra) && id < |s.packets| && Located(s, id)
    requires n.packets[id].fate == s.packets[id].fate && !Touchable(s.packets[id].fate, i)
    ensures Located(n, id)
  {
    assert forall d: Datagram :: d in s.wire ==> d in n.wire;
  }

  /** Datagrams of other sessions keep their standing. */
  lemma OtherDatagrams(s: State, n: State, i: nat, extra: seq<Datagram>, d: Datagram)
    requires Local(s, n, i, extra) && DatagramOk(s, d) && Precedes(s, d) && d.session != i
    ensures DatagramOk(n, d) && Precedes(n, d)
  {
  }

  ghost predicate MineLocated(s: State, n: State, i: nat)
    requires |n.packets| == |s.packets|
  {
    forall id: nat :: id < |s.packets| && Touchable(s.packets[id].fate, i) ==> Located(n, id)
  }

  ghost predicate MineOnWire(n: State, i: nat) {
    forall a: nat :: a < |n.wire| && n.wire[a].session == i ==> DatagramOk(n, n.wire[a]) && Precedes(n, n.wire[a])
  }

  lemma AssembleWire(s: State, n: State, i: nat, extra: seq<Datagram>)
    requires Local(s, n, i, extra) && WireOk(s) && MineOnWire(n, i)
    requires forall a: nat :: a < |extra| ==> extra[a].session == i
    ensures WireOk(n)
  {
    forall a: nat | a < |n.wire|
      ensures DatagramOk(n, n.wire[a]) && Precedes(n, n.wire[a])
    {
      if a < |s.wire| && s.wire[a].session != i {
        OtherDatagrams(s, n, i, extra, s.wire[a]);
      }
    }
  }

  lemma AssemblePackets(s: State, n: State, i: nat, extra: seq<Datagram>)
    requires Local(s, n, i, extra) && AllLocated(s) && MineLocated(s, n, i)
    ensures AllLocated(n)
  {
    forall id: nat | id < |n.packets|
      ensures Located(n, id)
    {
      assert Located(s, id);
      if !Touchable(s.packets[id].fate, i) { OtherPackets(s, n, i, extra, id); }
    }
  }

  /** A step about one session keeps the invariant if it does so for that session. */
  lemma Assemble(s: State, n: State, i: nat, extra: seq<Datagram>)
    requires Inv(s) && Local(s, n, i, extra)
    requires SessionOk(n, i) && MineLocated(s, n, i) && MineOnWire(n, i)
    requires forall a: nat :: a < |extra| ==> extra[a].session == i
    requires SlotOk(n) && SessionOrder(n.wire) && CallsOk(n) && n.upBytes == SentBytes(n.packets)
    ensures Inv(n)
  {
    hide SessionOk, Located, DatagramOk, Precedes, SessionOrder, CallsOk, SentBytes;
    OtherSessions(s, n, i, extra);
    AssembleWire(s, n, i, extra);
    AssemblePackets(s, n, i, extra);
  }

  // ---------------------------------------------------------------------
  // Each step keeps the invariant.
  // ---------------------------------------------------------------------

  lemma MemberSplit(q: seq<nat>)
    requires q != [] && Increasing(q)
    ensures forall id: nat :: id in q <==> id == q[0] || id in q[1..]
    ensures Increasing(q[1..]) && forall id: nat :: id in q[1..] ==> q[0] < id
  {
    assert q == [q[0]] + q[1..];
  }

  lemma MemberAdd(q: seq<nat>, x: nat)
    ensures forall id: nat :: id in q + [x] <==> id == x || id in q
  {
  }

  /** The ingress task of session `i` is done with the packet it held. */
  predicate LetGo(s: State, n: State, i: nat)
    requires i < |s.sessions| && i < |n.sessions|
  {
    var before, after := s.sessions[i].task, n.sessions[i].task;
    before != after && (before.Handling? || before.Counting?) && before.id < |n.packets|
  }

  /** Packets of session `i` that the step leaves alone stay located. */
  lemma Mine(s: State, n: State, i: nat, extra: seq<Datagram>)
    requires AllLocated(s) && Local(s, n, i, extra)
    requires forall id: nat :: id in s.sessions[i].queue && id !in n.sessions[i].queue && id < |n.packets| ==>
               Located(n, id)
    requires LetGo(s, n, i) ==> Located(n, s.sessions[i].task.id)
    requires forall id: nat :: id < |s.packets| && n.packets[id].fate != s.packets[id].fate ==> Located(n, id)
    ensures MineLocated(s, n, i)
  {
    forall id: nat | id < |s.packets| && Touchable(s.packets[id].fate, i)
      ensures Located(n, id)
    {
      assert Located(s, id);
      assert Datagram(i, id) in s.wire ==> Datagram(i, id) in n.wire;
    }
  }

  lemma MyDatagrams(s: State, n: State, i: nat, extra: seq<Datagram>)
    requires WireOk(s) && Local(s, n, i, extra)
    requires forall id: nat :: Known(s, id, Sent(i)) ==> Known(n, id, Sent(i))
    requires forall id: nat :: Known(s, id, OnWire(i)) ==> Known(n, id, OnWire(i)) || Known(n, id, Sent(i))
    requires forall d: Datagram :: d.session == i && DatagramOk(s, d) && Precedes(s, d) ==> Precedes(n, d)
    requires forall a: nat :: a < |extra| ==> extra[a].session == i && DatagramOk(n, extra[a]) && Precedes(n, extra[a])
    ensures MineOnWire(n, i)
  {
    forall a: nat | a < |n.wire| && n.wire[a].session == i
      ensures DatagramOk(n, n.wire[a]) && Precedes(n, n.wire[a])
    {
      if a < |s.wire| { assert DatagramOk(s, s.wire[a]) && Precedes(s, s.wire[a]); }
    }
  }

  /** The two together. */
  lemma Keep(s: State, n: State, i: nat, extra: seq<Datagram>)
    requires Inv(s) && Local(s, n, i, extra)
    requires SessionOk(n, i) && SlotOk(n) && SessionOrder(n.wire) && CallsOk(n) && n.upBytes == SentBytes(n.packets)
    requires forall id: nat :: id in s.sessions[i].queue && id !in n.sessions[i].queue && id < |n.packets| ==>
               Located(n, id)
    requires LetGo(s, n, i) ==> Located(n, s.sessions[i].task.id)
    requires forall id: nat :: id < |s.packets| && n.packets[id].fate != s.packets[id].fate ==> Located(n, id)
    requires forall id: nat :: Known(s, id, Sent(i)) ==> Known(n, id, Sent(i))
    requires forall id: nat :: Known(s, id, OnWire(i)) ==> Known(n, id, OnWire(i)) || Known(n, id, Sent(i))
    requires forall d: Datagram :: d.session == i && DatagramOk(s, d) && Precedes(s, d) ==> Precedes(n, d)
    requires forall a: nat :: a < |extra| ==> extra[a].session == i && DatagramOk(n, extra[a]) && Precedes(n, extra[a])
    ensures Inv(n)
  {
    hide SessionOk, Located, DatagramOk, Precedes, SessionOrder, CallsOk, SentBytes, Local;
    Mine(s, n, i, extra);
    MyDatagrams(s, n, i, extra);
    Assemble(s, n, i, extra);
  }

  lemma StartInv(cfg: Config, s: State, ok: bool)
    requires Inv(s)
    ensures Inv(StartSession(cfg, s, ok))
  {
    var n := StartSession(cfg, s, ok);
    if n != s {
      assert forall j: nat :: j < |s.sessions| ==> n.sessions[j] == s.sessions[j];
      forall id: nat | id < |n.packets|
        ensures Located(n, id)
      {
        assert Located(s, id);
      }
      forall j: nat | j < |n.sessions|
        ensures SessionOk(n, j)
      {
        if j < |s.sessions| { assert SessionOk(s, j); }
      }
      assert forall d: Datagram :: DatagramOk(s, d) && Precedes(s, d) ==> DatagramOk(n, d) && Precedes(n, d);
    }
  }

  lemma StopInv(s: State)
    requires Inv(s)
    ensures Inv(StopSession(s))
  {
    var n := StopSession(s);
    if s.current.Some? {
      var i := s.current.value;
      assert SessionOk(s, i);
      Keep(s, n, i, []);
    }
  }

  /** A packet is added whose fate is final at once. */
  lemma AddInv(s: State, n: State, p: Packet)
    requires Inv(s) && (p.fate == Rejected || p.fate == DroppedFull)
    requires n == s.(packets := s.packets + [p], calls := n.calls, offered := n.offered) && CallsOk(n)
    ensures Inv(n)
  {
    assert n.packets[..|n.packets| - 1] == s.packets;
    assert forall id: nat, fate: Fate :: Known(s, id, fate) ==> Known(n, id, fate);
    forall id: nat | id < |n.packets|
      ensures Located(n, id)
    {
      if id < |s.packets| { assert Located(s, id); }
    }
    forall j: nat | j < |n.sessions|
      ensures SessionOk(n, j)
    {
      assert SessionOk(s, j);
    }
    assert forall d: Datagram :: DatagramOk(s, d) && Precedes(s, d) ==> DatagramOk(n, d) && Precedes(n, d);
  }

  lemma OfferInv(cfg: Config, s: State, size: nat)
    requires Inv(s)
    ensures Inv(OfferPacket(cfg, s, size))
  {
    var n := OfferPacket(cfg, s, size);
    if size == 0 || (!cfg.overlap && s.calls != []) {
    } else if s.current.None? {
      AddInv(s, n, Packet(s.offered, size, Rejected));
    } else {
      CallsInv(s, n);
    }
  }

  /** The calls do not matter to the packets. */
  lemma CallsInv(s: State, n: State)
    requires Inv(s) && n == s.(calls := n.calls, offered := n.offered) && CallsOk(n)
    ensures Inv(n)
  {
    assert forall id: nat :: id < |s.packets| ==> (Located(n, id) <==> Located(s, id));
    assert forall j: nat :: j < |s.sessions| ==> (SessionOk(n, j) <==> SessionOk(s, j));
    assert forall d: Datagram :: (DatagramOk(n, d) <==> DatagramOk(s, d)) && (Precedes(n, d) <==> Precedes(s, d));
  }

  /** The new packet comes after everything in the queue. */
  lemma QueueBelow(s: State, i: nat)
    requires i < |s.sessions| && SessionOk(s, i)
    ensures forall id: nat :: id in s.sessions[i].queue ==> id < |s.packets|
    ensures Increasing(s.sessions[i].queue + [|s.packets|])
  {
    var q := s.sessions[i].queue;
    assert forall id: nat :: id in q ==> Known(s, id, Queued(i));
    forall a: nat, b: nat | a < b < |q| + 1
      ensures (q + [|s.packets|])[a] < (q + [|s.packets|])[b]
    {
      assert q[a] in q;
    }
  }

  /** A packet goes to the end of the queue of session `i`. */
  ghost predicate Enqueued(s: State, n: State, i: nat, p: Packet) {
    && i < |s.sessions| && p.fate == Queued(i)
    && n == s.(packets := s.packets + [p], calls := n.calls,
               sessions := s.sessions[i := s.sessions[i].(queue := s.sessions[i].queue + [|s.packets|])])
  }

  lemma EnqueuedSession(s: State, n: State, i: nat, p: Packet, j: nat)
    requires Enqueued(s, n, i, p) && j < |s.sessions| && SessionOk(s, j)
    requires !s.sessions[i].task.Gone? && |s.sessions[i].queue| < INGEST_QUEUE_DEPTH
    ensures SessionOk(n, j)
  {
    assert forall id: nat, fate: Fate :: Known(s, id, fate) ==> Known(n, id, fate);
    if j == i {
      QueueBelow(s, i);
      MemberAdd(s.sessions[i].queue, |s.packets|);
    }
  }

  lemma EnqueuedPacket(s: State, n: State, i: nat, p: Packet, id: nat)
    requires Enqueued(s, n, i, p) && id < |n.packets| && (id < |s.packets| ==> Located(s, id))
    ensures Located(n, id)
  {
    MemberAdd(s.sessions[i].queue, |s.packets|);
    if id == |s.packets| { assert n.packets[id].fate == Queued(i); }
  }

  lemma EnqueuedDatagram(s: State, n: State, i: nat, p: Packet, d: Datagram)
    requires Enqueued(s, n, i, p) && DatagramOk(s, d) && Precedes(s, d)
    ensures DatagramOk(n, d) && Precedes(n, d)
  {
    MemberAdd(s.sessions[i].queue, |s.packets|);
  }

  lemma EnqueuedAll(s: State, n: State, i: nat, p: Packet)
    requires Enqueued(s, n, i, p) && AllSessionsOk(s) && AllLocated(s) && WireOk(s)
    requires !s.sessions[i].task.Gone? && |s.sessions[i].queue| < INGEST_QUEUE_DEPTH
    ensures AllSessionsOk(n) && AllLocated(n) && WireOk(n)
  {
    assert |n.sessions| == |s.sessions| && |n.packets| == |s.packets| + 1 && n.wire == s.wire;
    hide SessionOk, Located, DatagramOk, Precedes, Enqueued;
    forall j: nat | j < |n.sessions|
      ensures SessionOk(n, j)
    {
      EnqueuedSession(s, n, i, p, j);
    }
    forall id: nat | id < |n.packets|
      ensures Located(n, id)
    {
      EnqueuedPacket(s, n, i, p, id);
    }
    forall a: nat | a < |n.wire|
      ensures DatagramOk(n, n.wire[a]) && Precedes(n, n.wire[a])
    {
      EnqueuedDatagram(s, n, i, p, s.wire[a]);
    }
  }

  lemma EnqueuedInv(s: State, n: State, i: nat, p: Packet)
    requires Inv(s) && Enqueued(s, n, i, p) && CallsOk(n)
    requires !s.sessions[i].task.Gone? && |s.sessions[i].queue| < INGEST_QUEUE_DEPTH
    ensures Inv(n)
  {
    hide AllSessionsOk, AllLocated, WireOk, CallsOk, SessionOrder;
    EnqueuedAll(s, n, i, p);
    assert n.packets[..|s.packets|] == s.packets;
  }

  lemma TrySendInv(s: State, c: nat)
    requires Inv(s)
    ensures Inv(TrySendPacket(s, c))
  {
    if c < |s.calls| {
      var n, i := TrySendPacket(s, c), s.calls[c].session;
      var p := Packet(s.calls[c].number, s.calls[c].size, Tried(s, i));
      assert CallsOk(n);
      hide CallsOk;
      if p.fate.Queued? { EnqueuedInv(s, n, i, p); } else { AddInv(s, n, p); }
    }
  }

  lemma ReceiveInv(s: State, i: nat)
    requires Inv(s)
    ensures Inv(ReceivePacket(s, i))
  {
    var n := ReceivePacket(s, i);
    if n != s {
      assert SessionOk(s, i);
      var q := s.sessions[i].queue;
      MemberSplit(q);
      assert q[0] in q && Known(s, q[0], Queued(i));
      SentBytesSame(s.packets, n.packets);
      assert n.sessions[i].queue == q[1..];
      forall id: nat | id in q[1..]
        ensures q[0] < id && Known(n, id, Queued(i))
      {
        assert Known(s, id, Queued(i));
      }
      assert SessionOk(n, i);
      Keep(s, n, i, []);
    }
  }

  lemma ResolveInv(s: State, i: nat, fate: Fate)
    requires Inv(s) && i < |s.sessions| && s.sessions[i].task.Handling?
    requires fate.Intercepted? || fate.Unencryptable? || fate.Failed? || fate.Lost?
    ensures Inv(Resolve(s, i, fate, Waiting))
  {
    var n := Resolve(s, i, fate, Waiting);
    assert SessionOk(s, i);
    SentBytesSame(s.packets, n.packets);
    Keep(s, n, i, []);
  }

  /** Ending a task changes the fate of its queue and of nothing else. */
  lemma Discarded(s: State, i: nat)
    requires i < |s.sessions| && SessionOk(s, i) && CallsOk(s)
    ensures var n := EndTask(s, i);
            && Local(s, n, i, []) && SessionOk(n, i) && CallsOk(n)
            && n.upBytes == s.upBytes && n.calls == s.calls
            && n.current == s.current && n.running == s.running
            && n.sessions[i].queue == []
            && (s.sessions[i].task.Waiting? ==>
                  forall id: nat :: Known(s, id, Queued(i)) && id in s.sessions[i].queue ==> Known(n, id, Lost))
            && (forall id: nat :: id < |s.packets| && n.packets[id].fate != s.packets[id].fate ==>
                  id in s.sessions[i].queue && s.packets[id].fate == Queued(i) && n.packets[id].fate == Lost)
  {
    hide Discard;
    assert forall id: nat :: id in s.sessions[i].queue ==> Known(s, id, Queued(i));
  }

  lemma EndTaskInv(s: State, i: nat)
    requires Inv(s) && i < |s.sessions| && s.sessions[i].task.Waiting?
    ensures Inv(EndTask(s, i))
  {
    var n := EndTask(s, i);
    assert SessionOk(s, i);
    Discarded(s, i);
    SentBytesSame(s.packets, n.packets);
    hide Discard, EndTask;
    Keep(s, n, i, []);
  }

  lemma SendInv(s: State, i: nat)
    requires Inv(s)
    ensures Inv(HandlePacket(s, i, SendOk))
  {
    var n := HandlePacket(s, i, SendOk);
    if n != s {
      var extra := [Datagram(i, s.sessions[i].task.id)];
      assert SessionOk(s, i);
      SentBytesSame(s.packets, n.packets);
      assert extra[0] in n.wire;
      SendKeepsOrder(s, i);
      Keep(s, n, i, extra);
    }
  }

  lemma SendKeepsOrder(s: State, i: nat)
    requires Inv(s) && i < |s.sessions| && s.sessions[i].task.Handling?
    ensures SessionOrder(HandlePacket(s, i, SendOk).wire)
  {
    assert forall a: nat :: a < |s.wire| ==> Precedes(s, s.wire[a]);
  }

  lemma CountInv(s: State, i: nat)
    requires Inv(s)
    ensures Inv(CountPacket(s, i))
  {
    var n := CountPacket(s, i);
    if n != s {
      assert SessionOk(s, i);
      assert Located(s, s.sessions[i].task.id);
      SentBytesAdd(s.packets, s.sessions[i].task.id, i);
      Keep(s, n, i, []);
    }
  }

  lemma CloseInv(s: State, i: nat)
    requires Inv(s)
    ensures Inv(CloseTask(s, i))
  {
    var n := CloseTask(s, i);
    if n != s {
      assert SessionOk(s, i);
      Keep(s, n, i, []);
    }
  }

  lemma CancelInv(s: State, i: nat)
    requires Inv(s)
    ensures Inv(CancelTask(s, i))
  {
    if i < |s.sessions| && s.sessions[i].aborted {
      if s.sessions[i].task.Waiting? {
        EndTaskInv(s, i);
      } else if s.sessions[i].task.Handling? {
        ResolveInv(s, i, Lost);
        EndTaskInv(Resolve(s, i, Lost, Waiting), i);
      }
    }
  }

  lemma HandleInv(s: State, i: nat, outcome: Outcome)
    requires Inv(s)
    ensures Inv(HandlePacket(s, i, outcome))
  {
    if i < |s.sessions| && s.sessions[i].task.Handling? {
      match outcome
      case Intercept => ResolveInv(s, i, Intercepted);
      case CryptoError => ResolveInv(s, i, Unencryptable);
      case SendOk => SendInv(s, i);
      case SendError =>
        ResolveInv(s, i, Failed);
        EndTaskInv(Resolve(s, i, Failed, Waiting), i);
    }
  }

  lemma {:induction false} StepInv(cfg: Config, s: State, e: Event)
    requires Inv(s)
    ensures Inv(Step(cfg, s, e))
  {
    hide Inv, StartSession, StopSession, OfferPacket, TrySendPacket;
    hide ReceivePacket, HandlePacket, CountPacket, CancelTask, CloseTask;
    match e
    case Start(ok) => StartInv(cfg, s, ok);
    case Stop => StopInv(s);
    case Offer(size) => OfferInv(cfg, s, size);
    case TrySend(c) => TrySendInv(s, c);
    case Receive(i) => ReceiveInv(s, i);
    case Handle(i, outcome) => HandleInv(s, i, outcome);
    case CountBytes(i) => CountInv(s, i);
    case Cancel(i) => CancelInv(s, i);
    case Close(i) => CloseInv(s, i);
  }

  lemma {:induction false} RunInv(cfg: Config, s: State, events: seq<Event>)
    requires Inv(s)
    ensures Inv(RunFrom(cfg, s, events))
    decreases |events|
  {
    hide Inv, Step;
    if events != [] {
      StepInv(cfg, s, events[0]);
      RunInv(cfg, Step(cfg, s, events[0]), events[1..]);
    }
  }

  lemma ReachableInv(cfg: Config, events: seq<Event>)
    ensures Inv(Run(cfg, events))
  {
    RunInv(cfg, INITIAL, events);
  }

  // ---------------------------------------------------------------------
  // What holds of every run.
  // ---------------------------------------------------------------------

  /** No queue ever holds more than its depth. */
  lemma QueueBounded(cfg: Config, events: seq<Event>, i: nat)
    requires i < |Run(cfg, events).sessions|
    ensures |Run(cfg, events).sessions[i].queue| <= 1024
  {
    ReachableInv(cfg, events);
    assert SessionOk(Run(cfg, events), i);
  }

  /** The recorded fate of a packet is exactly where it is: in one queue, in the hands of one task
      or on the wire once, and otherwise it was rejected, dropped, intercepted, not encryptable,
      failed or lost. */
  lemma FateExact(cfg: Config, events: seq<Event>, id: nat, i: nat)
    requires id < |Run(cfg, events).packets|
    ensures var s := Run(cfg, events);
            var fate := s.packets[id].fate;
            && (fate == Queued(i) <==> i < |s.sessions| && id in s.sessions[i].queue)
            && (fate == InFlight(i) <==> i < |s.sessions| && s.sessions[i].task == Handling(id))
            && (fate == OnWire(i) <==> i < |s.sessions| && s.sessions[i].task == Counting(id))
            && (fate == OnWire(i) || fate == Sent(i) <==> Datagram(i, id) in s.wire)
  {
    ReachableInv(cfg, events);
    var s := Run(cfg, events);
    assert Located(s, id);
    if i < |s.sessions| { assert SessionOk(s, i); }
    if Datagram(i, id) in s.wire {
      var a: nat :| a < |s.wire| && s.wire[a] == Datagram(i, id);
      assert DatagramOk(s, s.wire[a]);
    }
  }

  /** No packet is sent twice, and the datagrams of one session keep the order of the packets. */
  lemma SentOnceInOrder(cfg: Config, events: seq<Event>, a: nat, b: nat)
    requires a < b < |Run(cfg, events).wire|
    ensures var wire := Run(cfg, events).wire;
            && wire[a].id != wire[b].id
            && (wire[a].session == wire[b].session ==> wire[a].id < wire[b].id)
  {
    ReachableInv(cfg, events);
    var s := Run(cfg, events);
    assert DatagramOk(s, s.wire[a]) && DatagramOk(s, s.wire[b]);
  }

  // ---------------------------------------------------------------------
  // The counter against the datagrams themselves.
  // ---------------------------------------------------------------------

  predicate Out(fate: Fate) {
    fate.Sent? || fate.OnWire?
  }

  /** Total size of the packets sent, counted or not. */
  function OutBytes(packets: seq<Packet>): nat {
    if packets == [] then 0
    else OutBytes(packets[..|packets| - 1])
         + if Out(packets[|packets| - 1].fate) then packets[|packets| - 1].size else 0
  }

  function OnWireBytes(packets: seq<Packet>): nat {
    if packets == [] then 0
    else OnWireBytes(packets[..|packets| - 1])
         + if packets[|packets| - 1].fate.OnWire? then packets[|packets| - 1].size else 0
  }

  /** Total size of the datagrams, one by one. */
  function WireBytes(packets: seq<Packet>, wire: seq<Datagram>): nat {
    if wire == [] then 0
    else
      var id := wire[|wire| - 1].id;
      WireBytes(packets, wire[..|wire| - 1]) + if id < |packets| then packets[id].size else 0
  }

  lemma {:induction false} OutSplit(packets: seq<Packet>)
    ensures OutBytes(packets) == SentBytes(packets) + OnWireBytes(packets)
  {
    if packets != [] { OutSplit(packets[..|packets| - 1]); }
  }

  lemma {:induction false} OutBytesSame(p: seq<Packet>, q: seq<Packet>)
    requires |p| == |q|
    requires forall k: nat :: k < |p| ==> p[k].size == q[k].size && Out(p[k].fate) == Out(q[k].fate)
    ensures OutBytes(p) == OutBytes(q)
  {
    if p != [] { OutBytesSame(p[..|p| - 1], q[..|q| - 1]); }
  }

  lemma {:induction false} OutBytesAdd(p: seq<Packet>, id: nat, i: nat)
    requires id < |p| && !Out(p[id].fate)
    ensures OutBytes(SetFate(p, id, OnWire(i))) == OutBytes(p) + p[id].size
  {
    var q := SetFate(p, id, OnWire(i));
    var n := |p| - 1;
    if id == n {
      OutBytesSame(p[..n], q[..n]);
    } else {
      assert q[..n] == SetFate(p[..n], id, OnWire(i));
      OutBytesAdd(p[..n], id, i);
    }
  }

  lemma {:induction false} WireBytesSame(p: seq<Packet>, q: seq<Packet>, wire: seq<Datagram>)
    requires |p| <= |q| && forall k: nat :: k < |p| ==> p[k].size == q[k].size
    requires forall a: nat :: a < |wire| ==> wire[a].id < |p|
    ensures WireBytes(p, wire) == WireBytes(q, wire)
  {
    if wire != [] { WireBytesSame(p, q, wire[..|wire| - 1]); }
  }

  ghost predicate BytesMatch(s: State) {
    WireBytes(s.packets, s.wire) == OutBytes(s.packets)
  }

  /** The step sends nothing: what is out stays out, and nothing else goes out. */
  ghost predicate SendsNothing(s: State, n: State) {
    && n.wire == s.wire && |n.packets| == |s.packets|
    && forall k: nat :: k < |s.packets| ==>
         n.packets[k].size == s.packets[k].size && Out(n.packets[k].fate) == Out(s.packets[k].fate)
  }

  lemma WireKnown(s: State)
    requires WireOk(s)
    ensures forall a: nat :: a < |s.wire| ==> s.wire[a].id < |s.packets|
  {
    assert forall a: nat :: a < |s.wire| ==> DatagramOk(s, s.wire[a]);
  }

  lemma NothingSentMatches(s: State, n: State)
    requires WireOk(s) && BytesMatch(s) && SendsNothing(s, n)
    ensures BytesMatch(n)
  {
    WireKnown(s);
    OutBytesSame(s.packets, n.packets);
    WireBytesSame(s.packets, n.packets, s.wire);
  }

  lemma EndSendsNothing(s: State, i: nat)
    requires i < |s.sessions| && SessionOk(s, i) && CallsOk(s)
    ensures SendsNothing(s, EndTask(s, i))
  {
    Discarded(s, i);
  }

  lemma ResolveSendsNothing(s: State, i: nat, fate: Fate)
    requires i < |s.sessions| && SessionOk(s, i) && s.sessions[i].task.Handling? && !Out(fate)
    ensures SendsNothing(s, Resolve(s, i, fate, Waiting))
  {
  }

  lemma WireBytesAppend(p: seq<Packet>, wire: seq<Datagram>, d: Datagram)
    ensures WireBytes(p, wire + [d]) == WireBytes(p, wire) + if d.id < |p| then p[d.id].size else 0
  {
    assert (wire + [d])[..|wire|] == wire;
  }

  lemma OutBytesAppend(p: seq<Packet>, q: Packet)
    ensures OutBytes(p + [q]) == OutBytes(p) + if Out(q.fate) then q.size else 0
  {
    assert (p + [q])[..|p|] == p;
  }

  /** A packet is added that is not out. */
  lemma AddedMatches(s: State, n: State, p: Packet)
    requires WireOk(s) && BytesMatch(s) && !Out(p.fate)
    requires n.packets == s.packets + [p] && n.wire == s.wire
    ensures BytesMatch(n)
  {
    WireKnown(s);
    hide WireBytes, OutBytes, WireOk;
    WireBytesSame(s.packets, n.packets, s.wire);
    OutBytesAppend(s.packets, p);
  }

  lemma OfferMatches(cfg: Config, s: State, size: nat)
    requires WireOk(s) && BytesMatch(s)
    ensures BytesMatch(OfferPacket(cfg, s, size))
  {
    hide WireBytes, OutBytes, WireOk;
    if s.current.None? && size > 0 && (cfg.overlap || s.calls == []) {
      AddedMatches(s, OfferPacket(cfg, s, size), Packet(s.offered, size, Rejected));
    }
  }

  lemma TrySendMatches(s: State, c: nat)
    requires WireOk(s) && BytesMatch(s) && CallsOk(s)
    ensures BytesMatch(TrySendPacket(s, c))
  {
    hide WireBytes, OutBytes, WireOk;
    if c < |s.calls| {
      AddedMatches(s, TrySendPacket(s, c), Packet(s.calls[c].number, s.calls[c].size, Tried(s, s.calls[c].session)));
    }
  }

  /** A successful send: one packet goes out, one datagram is added. */
  lemma SendParts(s: State, i: nat)
    requires AllSessionsOk(s) && i < |s.sessions| && s.sessions[i].task.Handling?
    ensures var n, id := HandlePacket(s, i, SendOk), s.sessions[i].task.id;
            && id < |s.packets| && s.packets[id].fate == InFlight(i)
            && n.packets == SetFate(s.packets, id, OnWire(i)) && n.wire == s.wire + [Datagram(i, id)]
  {
    assert SessionOk(s, i);
  }

  lemma SendMatches(s: State, i: nat)
    requires Inv(s) && BytesMatch(s) && i < |s.sessions| && s.sessions[i].task.Handling?
    ensures BytesMatch(HandlePacket(s, i, SendOk))
  {
    SendParts(s, i);
    WireKnown(s);
    hide Inv, HandlePacket, WireBytes, OutBytes;
    var n, id := HandlePacket(s, i, SendOk), s.sessions[i].task.id;
    OutBytesAdd(s.packets, id, i);
    WireBytesSame(s.packets, n.packets, s.wire);
    WireBytesAppend(n.packets, s.wire, Datagram(i, id));
  }

  lemma HandleMatches(s: State, i: nat, outcome: Outcome)
    requires Inv(s) && BytesMatch(s)
    ensures BytesMatch(HandlePacket(s, i, outcome))
  {
    if i < |s.sessions| && s.sessions[i].task.Handling? {
      if outcome.SendOk? {
        SendMatches(s, i);
      } else {
        var fate := if outcome.Intercept? then Intercepted else if outcome.CryptoError? then Unencryptable else Failed;
        ResolveMatches(s, i, fate);
        if outcome.SendError? { EndMatches(Resolve(s, i, fate, Waiting), i); }
      }
    }
  }

  lemma ResolveMatches(s: State, i: nat, fate: Fate)
    requires Inv(s) && BytesMatch(s) && i < |s.sessions| && s.sessions[i].task.Handling?
    requires fate.Intercepted? || fate.Unencryptable? || fate.Failed? || fate.Lost?
    ensures BytesMatch(Resolve(s, i, fate, Waiting)) && Inv(Resolve(s, i, fate, Waiting))
  {
    hide BytesMatch;
    assert SessionOk(s, i);
    ResolveSendsNothing(s, i, fate);
    NothingSentMatches(s, Resolve(s, i, fate, Waiting));
    ResolveInv(s, i, fate);
  }

  lemma EndMatches(s: State, i: nat)
    requires Inv(s) && BytesMatch(s) && i < |s.sessions|
    ensures BytesMatch(EndTask(s, i))
  {
    hide BytesMatch;
    assert SessionOk(s, i);
    EndSendsNothing(s, i);
    NothingSentMatches(s, EndTask(s, i));
  }

  lemma CancelMatches(s: State, i: nat)
    requires Inv(s) && BytesMatch(s)
    ensures BytesMatch(CancelTask(s, i))
  {
    hide BytesMatch;
    if i < |s.sessions| && s.sessions[i].aborted {
      if s.sessions[i].task.Waiting? {
        EndMatches(s, i);
      } else if s.sessions[i].task.Handling? {
        ResolveMatches(s, i, Lost);
        EndMatches(Resolve(s, i, Lost, Waiting), i);
      }
    }
  }

  lemma QuietSteps(cfg: Config, s: State, e: Event)
    requires Inv(s)
    requires e.Start? || e.Stop? || e.Receive? || e.CountBytes? || e.Close?
    ensures SendsNothing(s, Step(cfg, s, e))
  {
    if (e.Receive? || e.CountBytes?) && e.i < |s.sessions| { assert SessionOk(s, e.i); }
    if e.Receive? && e.i < |s.sessions| && s.sessions[e.i].queue != [] {
      assert s.sessions[e.i].queue[0] in s.sessions[e.i].queue;
    }
  }

  lemma {:induction false} StepMatches(cfg: Config, s: State, e: Event)
    requires Inv(s) && BytesMatch(s)
    ensures BytesMatch(Step(cfg, s, e))
  {
    hide BytesMatch, SendsNothing, HandlePacket, CancelTask, OfferPacket, TrySendPacket;
    match e
    case Offer(size) => OfferMatches(cfg, s, size);
    case TrySend(c) => TrySendMatches(s, c);
    case Handle(i, outcome) => HandleMatches(s, i, outcome);
    case Cancel(i) => CancelMatches(s, i);
    case _ =>
      QuietSteps(cfg, s, e);
      NothingSentMatches(s, Step(cfg, s, e));
  }

  lemma {:induction false} RunMatches(cfg: Config, s: State, events: seq<Event>)
    requires Inv(s) && BytesMatch(s)
    ensures BytesMatch(RunFrom(cfg, s, events))
    decreases |events|
  {
    hide Inv, BytesMatch, Step;
    if events != [] {
      StepInv(cfg, s, events[0]);
      StepMatches(cfg, s, events[0]);
      RunMatches(cfg, Step(cfg, s, events[0]), events[1..]);
    }
  }

  /** Across restarts the counter, with the sizes of the packets sent but not counted yet, is the
      total size of the datagrams that left; each task has at most one such packet (`FateExact`). */
  lemma UpBytesExact(cfg: Config, events: seq<Event>)
    ensures var s := Run(cfg, events);
            && s.upBytes + OnWireBytes(s.packets) == WireBytes(s.packets, s.wire)
            && s.upBytes == SentBytes(s.packets)
  {
    ReachableInv(cfg, events);
    assert Inv(INITIAL) && BytesMatch(INITIAL);
    RunMatches(cfg, INITIAL, events);
    OutSplit(Run(cfg, events).packets);
  }

  // ---------------------------------------------------------------------
  // What decides the final fates.
  // ---------------------------------------------------------------------

  predicate Final(fate: Fate) {
    !fate.Queued? && !fate.InFlight? && !fate.OnWire?
  }

  predicate Holds(s: State, i: nat, id: nat) {
    i < |s.sessions| && s.sessions[i].task == Handling(id)
  }

  predicate Waits(s: State, i: nat, id: nat) {
    i < |s.sessions| && id in s.sessions[i].queue
  }

  /** The call is tried now, and its packet becomes packet `id`. */
  predicate Tries(s: State, e: Event, id: nat) {
    e.TrySend? && e.c < |s.calls| && s.calls[e.c].session < |s.sessions| && id == |s.packets|
  }

  /** The event, in this state, gives packet `id` that final fate. */
  predicate Decides(cfg: Config, s: State, e: Event, id: nat, fate: Fate) {
    match fate
    case Rejected =>
      || (e.Offer? && e.size > 0 && (cfg.overlap || s.calls == []) && s.current.None? && id == |s.packets|)
      || (Tries(s, e, id) && s.sessions[s.calls[e.c].session].task.Gone?)
    case DroppedFull =>
      && Tries(s, e, id) && !s.sessions[s.calls[e.c].session].task.Gone?
      && |s.sessions[s.calls[e.c].session].queue| == 1024
    case Intercepted => e.Handle? && e.outcome == Intercept && Holds(s, e.i, id)
    case Unencryptable => e.Handle? && e.outcome == CryptoError && Holds(s, e.i, id)
    case Failed => e.Handle? && e.outcome == SendError && Holds(s, e.i, id)
    case Sent(i) => e == CountBytes(i) && i < |s.sessions| && s.sessions[i].task == Counting(id)
    case Lost =>
      || (e.Cancel? && e.i < |s.sessions| && s.sessions[e.i].aborted && (Holds(s, e.i, id) || Waits(s, e.i, id))
          && !s.sessions[e.i].task.Counting?)
      || (e.Handle? && e.outcome == SendError && Waits(s, e.i, id) && s.sessions[e.i].task.Handling?)
    case _ => false
  }

  /** One step: a final fate stays, and is given exactly by the event that decides it. */
  ghost predicate Decided(cfg: Config, s: State, n: State, e: Event) {
    && |s.packets| <= |n.packets|
    && (forall id: nat, fate: Fate :: Final(fate) ==>
          (Known(n, id, fate) <==> Known(s, id, fate) || Decides(cfg, s, e, id, fate)))
  }

  lemma DecidedQuietly(cfg: Config, s: State, e: Event)
    requires Inv(s) && (e.Start? || e.Stop? || e.Receive? || e.Close?)
    ensures Decided(cfg, s, Step(cfg, s, e), e)
  {
    if e.Receive? && e.i < |s.sessions| && s.sessions[e.i].queue != [] {
      assert SessionOk(s, e.i) && s.sessions[e.i].queue[0] in s.sessions[e.i].queue;
    }
  }

  lemma DecidedOffer(cfg: Config, s: State, size: nat)
    requires Inv(s)
    ensures Decided(cfg, s, OfferPacket(cfg, s, size), Offer(size))
  {
  }

  lemma DecidedTrySend(cfg: Config, s: State, c: nat)
    requires Inv(s)
    ensures Decided(cfg, s, TrySendPacket(s, c), TrySend(c))
  {
    if c < |s.calls| { assert SessionOk(s, s.calls[c].session); }
  }

  lemma DecidedCount(cfg: Config, s: State, i: nat)
    requires Inv(s)
    ensures Decided(cfg, s, CountPacket(s, i), CountBytes(i))
  {
    if i < |s.sessions| { assert SessionOk(s, i); }
  }

  /** Resolving the packet in hand, and then discarding the queue of session `i`. */
  lemma ResolvedFates(s: State, i: nat, fate: Fate)
    requires Inv(s) && i < |s.sessions| && s.sessions[i].task.Handling?
    ensures var n, h := Resolve(s, i, fate, Waiting), s.sessions[i].task.id;
            && |n.packets| == |s.packets| && n.sessions[i].queue == s.sessions[i].queue
            && Known(s, h, InFlight(i)) && Known(n, h, fate)
            && (forall id: nat, f: Fate :: id != h ==> (Known(n, id, f) <==> Known(s, id, f)))
  {
    assert SessionOk(s, i);
  }

  lemma DiscardedFates(s: State, i: nat)
    requires i < |s.sessions|
    ensures var n := EndTask(s, i);
            && |n.packets| == |s.packets|
            && (forall id: nat, f: Fate :: id !in s.sessions[i].queue ==> (Known(n, id, f) <==> Known(s, id, f)))
            && (forall id: nat :: id in s.sessions[i].queue && id < |s.packets| ==> Known(n, id, Lost))
  {
    hide Discard;
  }

  lemma QueueKnown(s: State, i: nat)
    requires Inv(s) && i < |s.sessions|
    ensures forall id: nat :: id in s.sessions[i].queue ==> Known(s, id, Queued(i))
  {
    assert SessionOk(s, i);
  }

  lemma DecidedHandle(cfg: Config, s: State, i: nat, outcome: Outcome)
    requires Inv(s)
    ensures Decided(cfg, s, HandlePacket(s, i, outcome), Handle(i, outcome))
  {
    if i < |s.sessions| && s.sessions[i].task.Handling? {
      hide Inv, Known, EndTask;
      QueueKnown(s, i);
      KnownOnce();
      if outcome.SendOk? {
        SentFates(s, i);
      } else {
        var fate := if outcome.Intercept? then Intercepted else if outcome.CryptoError? then Unencryptable else Failed;
        ResolvedFates(s, i, fate);
        if outcome.SendError? { DiscardedFates(Resolve(s, i, fate, Waiting), i); }
      }
    }
  }

  lemma KnownOnce()
    ensures forall s: State, id: nat, f: Fate, g: Fate :: Known(s, id, f) && Known(s, id, g) ==> f == g
    ensures forall s: State, id: nat, f: Fate :: Known(s, id, f) ==> id < |s.packets|
  {
  }

  lemma SentFates(s: State, i: nat)
    requires Inv(s) && i < |s.sessions| && s.sessions[i].task.Handling?
    ensures var n, h := HandlePacket(s, i, SendOk), s.sessions[i].task.id;
            && |n.packets| == |s.packets| && Known(s, h, InFlight(i)) && Known(n, h, OnWire(i))
            && (forall id: nat, f: Fate :: id != h ==> (Known(n, id, f) <==> Known(s, id, f)))
  {
    assert SessionOk(s, i);
  }

  lemma DecidedCancel(cfg: Config, s: State, i: nat)
    requires Inv(s)
    ensures Decided(cfg, s, CancelTask(s, i), Cancel(i))
  {
    if i < |s.sessions| && s.sessions[i].aborted {
      assert SessionOk(s, i);
      hide Inv, Known, EndTask;
      QueueKnown(s, i);
      KnownOnce();
      if s.sessions[i].task.Waiting? {
        DiscardedFates(s, i);
      } else if s.sessions[i].task.Handling? {
        ResolvedFates(s, i, Lost);
        DiscardedFates(Resolve(s, i, Lost, Waiting), i);
      }
    }
  }

  lemma {:induction false} StepDecided(cfg: Config, s: State, e: Event)
    requires Inv(s)
    ensures Decided(cfg, s, Step(cfg, s, e), e)
  {
    hide Inv, Decided, OfferPacket, TrySendPacket, HandlePacket, CountPacket, CancelTask;
    match e
    case Offer(size) => DecidedOffer(cfg, s, size);
    case TrySend(c) => DecidedTrySend(cfg, s, c);
    case Handle(i, outcome) => DecidedHandle(cfg, s, i, outcome);
    case CountBytes(i) => DecidedCount(cfg, s, i);
    case Cancel(i) => DecidedCancel(cfg, s, i);
    case _ => DecidedQuietly(cfg, s, e);
  }

  ghost predicate DecidedAt(cfg: Config, events: seq<Event>, n: nat, id: nat, fate: Fate) {
    n < |events| && Decides(cfg, Run(cfg, events[..n]), events[n], id, fate)
  }

  /** Over all runs a packet ends as rejected, dropped, intercepted, unencryptable, failed, lost or
      sent exactly when some event of the run decided that: dropped only on a full queue, rejected
      only without a session or after its task ended, lost only by an abort or by the failed send
      of an earlier packet. */
  lemma {:induction false} FinalFateIff(cfg: Config, events: seq<Event>, id: nat, fate: Fate)
    requires Final(fate)
    ensures Known(Run(cfg, events), id, fate) <==> exists n: nat :: DecidedAt(cfg, events, n, id, fate)
    decreases |events|
  {
    hide Inv, Step, Decides, Known, Fold;
    if events == [] {
      NothingKnown(cfg, id, fate);
    } else {
      var last := |events| - 1;
      var before, e := events[..last], events[last];
      assert events == before + [e];
      FinalFateIff(cfg, before, id, fate);
      ReachableInv(cfg, before);
      FoldSnoc(Stepper(cfg), INITIAL, before, e);
      StepDecided(cfg, Run(cfg, before), e);
      forall n: nat | n < last
        ensures DecidedAt(cfg, events, n, id, fate) <==> DecidedAt(cfg, before, n, id, fate)
      {
        assert before[..n] == events[..n];
      }
      assert DecidedAt(cfg, events, last, id, fate) <==> Decides(cfg, Run(cfg, before), e, id, fate);
    }
  }

  lemma NothingKnown(cfg: Config, id: nat, fate: Fate)
    ensures !Known(Run(cfg, []), id, fate)
  {
  }

  // ---------------------------------------------------------------------
  // What ends a task.
  // ---------------------------------------------------------------------

  predicate Ended(s: State, i: nat) {
    i < |s.sessions| && s.sessions[i].task.Gone?
  }

  /** The event, in this state, ends the ingress task of session `i`: a send fails; an abort is taken where the
      task awaits; or at the receive nothing is queued and no sender is left. */
  predicate Ends(s: State, e: Event, i: nat) {
    && i < |s.sessions|
    && match s.sessions[i].task
       case Waiting =>
         || (e == Cancel(i) && s.sessions[i].aborted)
         || (e == Close(i) && s.sessions[i].queue == [] && s.current != Some(i)
             && forall c: nat :: c < |s.calls| ==> s.calls[c].session != i)
       case Handling(_) => e == Handle(i, SendError) || (e == Cancel(i) && s.sessions[i].aborted)
       case _ => false
  }

  lemma QuietEnds(cfg: Config, s: State, e: Event, i: nat)
    requires !e.Handle? && !e.Cancel? && !e.Close?
    ensures Ended(Step(cfg, s, e), i) <==> Ended(s, i)
  {
    hide SetFate, HandlePacket, CancelTask, CloseTask;
  }

  lemma TaskEnds(cfg: Config, s: State, e: Event, i: nat)
    requires e.Handle? || e.Cancel? || e.Close?
    ensures Ended(Step(cfg, s, e), i) <==> Ended(s, i) || Ends(s, e, i)
  {
    hide Discard, SetFate, TrySendPacket, ReceivePacket, CountPacket, OfferPacket, StartSession, StopSession;
  }

  lemma StepEnds(cfg: Config, s: State, e: Event, i: nat)
    ensures Ended(Step(cfg, s, e), i) <==> Ended(s, i) || Ends(s, e, i)
  {
    if e.Handle? || e.Cancel? || e.Close? {
      hide Step, Ends, Ended;
      TaskEnds(cfg, s, e, i);
    } else {
      hide Step;
      QuietEnds(cfg, s, e, i);
    }
  }

  /** Only a stop aborts, and it empties the slot. */
  predicate SlotKept(s: State) {
    s.current.Some? ==> s.current.value < |s.sessions| && !s.sessions[s.current.value].aborted
  }

  lemma StepSlot(cfg: Config, s: State, e: Event)
    requires SlotKept(s)
    ensures SlotKept(Step(cfg, s, e))
    ensures forall i: nat :: Step(cfg, s, e).current == Some(i) ==> s.current == Some(i) || !Ended(Step(cfg, s, e), i)
  {
    hide Discard, SetFate;
  }

  ghost predicate EndsAt(cfg: Config, events: seq<Event>, n: nat, i: nat) {
    n < |events| && Ends(Run(cfg, events[..n]), events[n], i)
  }

  ghost predicate FailsAt(cfg: Config, events: seq<Event>, n: nat, i: nat) {
    && n < |events| && events[n] == Handle(i, SendError)
    && var s := Run(cfg, events[..n]); i < |s.sessions| && s.sessions[i].task.Handling?
  }

  /** Over all runs the ingress task of a session has ended exactly when some event of the run ended
      it; for the session in the slot that can only have been a failed send. */
  lemma {:induction false} EndedIff(cfg: Config, events: seq<Event>, i: nat)
    ensures Ended(Run(cfg, events), i) <==> exists n: nat :: EndsAt(cfg, events, n, i)
    ensures SlotKept(Run(cfg, events))
    ensures Run(cfg, events).current == Some(i) && Ended(Run(cfg, events), i) ==>
              exists n: nat :: FailsAt(cfg, events, n, i)
    decreases |events|
  {
    hide Step, Ends, Fold, SlotKept, Ended;
    if events == [] {
      NothingEnded(cfg, i);
    } else {
      var last := |events| - 1;
      var before, e := events[..last], events[last];
      assert events == before + [e];
      EndedIff(cfg, before, i);
      FoldSnoc(Stepper(cfg), INITIAL, before, e);
      StepEnds(cfg, Run(cfg, before), e, i);
      StepSlot(cfg, Run(cfg, before), e);
      forall n: nat | n < last
        ensures EndsAt(cfg, events, n, i) <==> EndsAt(cfg, before, n, i)
        ensures FailsAt(cfg, events, n, i) <==> FailsAt(cfg, before, n, i)
      {
        assert before[..n] == events[..n];
      }
      assert EndsAt(cfg, events, last, i) <==> Ends(Run(cfg, before), e, i);
      if Ends(Run(cfg, before), e, i) && Run(cfg, before).current == Some(i) {
        EndsInSlot(Run(cfg, before), e, i);
        assert FailsAt(cfg, events, last, i);
      }
    }
  }

  lemma NothingEnded(cfg: Config, i: nat)
    ensures !Ended(Run(cfg, []), i) && SlotKept(Run(cfg, []))
  {
  }

  lemma EndsInSlot(s: State, e: Event, i: nat)
    requires SlotKept(s) && s.current == Some(i) && Ends(s, e, i)
    ensures e == Handle(i, SendError) && i < |s.sessions| && s.sessions[i].task.Handling?
  {
  }

  // ---------------------------------------------------------------------
  // Order across sessions.
  // ---------------------------------------------------------------------

  ghost predicate GlobalOrder(wire: seq<Datagram>) {
    forall a: nat, b: nat :: a < b < |wire| ==> wire[a].id < wire[b].id
  }

  /** Packet `x` is older than everything still held. */
  ghost predicate Ahead(s: State, x: nat, i: nat)
    requires i < |s.sessions|
  {
    && (forall id: nat :: id in s.sessions[i].queue ==> x < id)
    && (s.sessions[i].task.Handling? ==> x < s.sessions[i].task.id)
  }

  ghost predicate OneAlive(s: State) {
    forall i: nat :: i + 1 < |s.sessions| ==> s.sessions[i].task.Gone?
  }

  ghost predicate WireAhead(s: State) {
    forall a: nat, i: nat :: a < |s.wire| && i < |s.sessions| ==> Ahead(s, s.wire[a].id, i)
  }

  ghost predicate OrderInv(s: State) {
    OneAlive(s) && WireAhead(s) && GlobalOrder(s.wire)
  }

  /** Nothing new is held, nobody comes back, nothing is sent. */
  ghost predicate Quiet(s: State, n: State) {
    && n.wire == s.wire && |n.sessions| == |s.sessions|
    && forall i: nat :: i < |s.sessions| ==>
         && (s.sessions[i].task.Gone? ==> n.sessions[i].task.Gone?)
         && (forall id: nat :: id in n.sessions[i].queue ==> id in s.sessions[i].queue)
         && (n.sessions[i].task.Handling? ==>
               n.sessions[i].task == s.sessions[i].task || n.sessions[i].task.id in s.sessions[i].queue)
  }

  lemma QuietOrder(s: State, n: State)
    requires OrderInv(s) && Quiet(s, n)
    ensures OrderInv(n)
  {
    forall a: nat, i: nat | a < |n.wire| && i < |n.sessions|
      ensures Ahead(n, n.wire[a].id, i)
    {
      assert Ahead(s, s.wire[a].id, i);
    }
  }

  lemma StartOrder(cfg: Config, s: State, ok: bool)
    requires cfg.joinsIngress && OrderInv(s)
    ensures OrderInv(StartSession(cfg, s, ok))
  {
    var n := StartSession(cfg, s, ok);
    forall a: nat, i: nat | a < |n.wire| && i < |n.sessions|
      ensures Ahead(n, n.wire[a].id, i)
    {
      if i < |s.sessions| { assert Ahead(s, s.wire[a].id, i); }
    }
  }

  lemma TrySendOrder(s: State, c: nat)
    requires Inv(s) && OrderInv(s)
    ensures OrderInv(TrySendPacket(s, c))
  {
    var n := TrySendPacket(s, c);
    forall a: nat, i: nat | a < |n.wire| && i < |n.sessions|
      ensures Ahead(n, n.wire[a].id, i)
    {
      assert Ahead(s, s.wire[a].id, i);
      assert DatagramOk(s, s.wire[a]);
      MemberAdd(s.sessions[i].queue, |s.packets|);
    }
  }

  lemma SendOrder(s: State, i: nat)
    requires Inv(s) && OrderInv(s)
    ensures OrderInv(HandlePacket(s, i, SendOk))
  {
    var n := HandlePacket(s, i, SendOk);
    if n != s {
      var h := s.sessions[i].task.id;
      forall a: nat, j: nat | a < |n.wire| && j < |n.sessions|
        ensures Ahead(n, n.wire[a].id, j)
      {
        assert SessionOk(s, j);
        if a < |s.wire| { assert Ahead(s, s.wire[a].id, j); }
      }
      assert forall a: nat :: a < |s.wire| ==> Ahead(s, s.wire[a].id, i);
    }
  }

  lemma EndQuiet(s: State, i: nat)
    requires i < |s.sessions|
    ensures Quiet(s, EndTask(s, i))
  {
  }

  lemma HandleOrder(s: State, i: nat, outcome: Outcome)
    requires Inv(s) && OrderInv(s)
    ensures OrderInv(HandlePacket(s, i, outcome))
  {
    if outcome.SendOk? {
      SendOrder(s, i);
    } else if i < |s.sessions| && s.sessions[i].task.Handling? {
      var fate := if outcome.Intercept? then Intercepted else if outcome.CryptoError? then Unencryptable else Failed;
      var n := Resolve(s, i, fate, Waiting);
      QuietOrder(s, n);
      if outcome.SendError? {
        EndQuiet(n, i);
        QuietOrder(n, EndTask(n, i));
      }
    }
  }

  lemma CancelOrder(s: State, i: nat)
    requires OrderInv(s)
    ensures OrderInv(CancelTask(s, i))
  {
    if i < |s.sessions| && s.sessions[i].aborted {
      var n := if s.sessions[i].task.Handling? then Resolve(s, i, Lost, Waiting) else s;
      QuietOrder(s, n);
      EndQuiet(n, i);
      QuietOrder(n, EndTask(n, i));
    }
  }

  lemma RestQuiet(cfg: Config, s: State, size: nat)
    ensures Quiet(s, StopSession(s)) && Quiet(s, OfferPacket(cfg, s, size))
  {
  }

  lemma TaskQuiet(s: State, i: nat)
    ensures Quiet(s, CountPacket(s, i)) && Quiet(s, CloseTask(s, i))
  {
  }

  lemma ReceiveQuiet(s: State, i: nat)
    ensures Quiet(s, ReceivePacket(s, i))
  {
  }

  lemma {:induction false} StepOrder(cfg: Config, s: State, e: Event)
    requires cfg.joinsIngress && Inv(s) && OrderInv(s)
    ensures OrderInv(Step(cfg, s, e))
  {
    hide Inv, OrderInv, Quiet, StartSession, StopSession, OfferPacket, TrySendPacket;
    hide ReceivePacket, HandlePacket, CountPacket, CancelTask, CloseTask;
    match e
    case Start(ok) => StartOrder(cfg, s, ok);
    case Stop => RestQuiet(cfg, s, 0); QuietOrder(s, StopSession(s));
    case Offer(size) => RestQuiet(cfg, s, size); QuietOrder(s, OfferPacket(cfg, s, size));
    case TrySend(c) => TrySendOrder(s, c);
    case Receive(i) => ReceiveQuiet(s, i); QuietOrder(s, ReceivePacket(s, i));
    case Handle(i, outcome) => HandleOrder(s, i, outcome);
    case CountBytes(i) => TaskQuiet(s, i); QuietOrder(s, CountPacket(s, i));
    case Cancel(i) => CancelOrder(s, i);
    case Close(i) => TaskQuiet(s, i); QuietOrder(s, CloseTask(s, i));
  }

  lemma {:induction false} RunOrder(cfg: Config, s: State, events: seq<Event>)
    requires cfg.joinsIngress && Inv(s) && OrderInv(s)
    ensures OrderInv(RunFrom(cfg, s, events))
    decreases |events|
  {
    hide Inv, OrderInv, Step;
    if events != [] {
      StepInv(cfg, s, events[0]);
      StepOrder(cfg, s, events[0]);
      RunOrder(cfg, Step(cfg, s, events[0]), events[1..]);
    }
  }

  /** The ingress task has a packet in hand; the engine is stopped and started again. */
  const ONE_IN_HAND: seq<Event> := [Start(true), Offer(1), TrySend(0), Receive(0)]
  const NEXT_IN_HAND: seq<Event> := [Start(true), Offer(1), TrySend(0), Receive(1)]
  const OVERTAKEN: seq<Event> := ONE_IN_HAND + [Stop] + NEXT_IN_HAND + [Handle(1, SendOk)] + [Handle(0, SendOk)]

  const FIRST_HELD: State :=
    State([Packet(0, 1, InFlight(0))], [Session([], Handling(0), false)], Some(0), true, [], 1, [], 0)

  /** The new session sends its packet first, then the old task sends the one it still holds. */
  lemma OldTaskSendsLate(cfg: Config)
    requires !cfg.joinsIngress
    ensures !GlobalOrder(Run(cfg, OVERTAKEN).wire)
  {
    hide Fold, Step;
    FirstInHand(cfg);
    FoldSnoc(Stepper(cfg), INITIAL, ONE_IN_HAND, Stop);
    SecondInHand(cfg, Run(cfg, ONE_IN_HAND));
    FoldConcat(Stepper(cfg), INITIAL, ONE_IN_HAND + [Stop], NEXT_IN_HAND);
    FoldSnoc(Stepper(cfg), INITIAL, ONE_IN_HAND + [Stop] + NEXT_IN_HAND, Handle(1, SendOk));
    FoldSnoc(Stepper(cfg), INITIAL, ONE_IN_HAND + [Stop] + NEXT_IN_HAND + [Handle(1, SendOk)], Handle(0, SendOk));
    BothSend(cfg, Run(cfg, ONE_IN_HAND + [Stop] + NEXT_IN_HAND));
  }

  lemma BothSend(cfg: Config, s: State)
    requires |s.sessions| == 2 && s.sessions[0].task == Handling(0) && s.sessions[1].task == Handling(1) && s.wire == []
    ensures !GlobalOrder(Step(cfg, Step(cfg, s, Handle(1, SendOk)), Handle(0, SendOk)).wire)
  {
    var wire := Step(cfg, Step(cfg, s, Handle(1, SendOk)), Handle(0, SendOk)).wire;
    assert wire == [Datagram(1, 1), Datagram(0, 0)];
    assert wire[0].id > wire[1].id;
  }

  lemma FirstInHand(cfg: Config)
    requires !cfg.joinsIngress
    ensures Run(cfg, ONE_IN_HAND) == FIRST_HELD
  {
    Fold4(Stepper(cfg), INITIAL, Start(true), Offer(1), TrySend(0), Receive(0));
    var up := State([], [Session([], Waiting, false)], Some(0), true, [], 0, [], 0);
    assert Step(cfg, INITIAL, Start(true)) == up;
    OneThrough(cfg, up, 0);
  }

  /** A call to an idle, empty current session puts its packet in the hands of its ingress task. */
  lemma OneThrough(cfg: Config, s: State, i: nat)
    requires s.calls == [] && s.current == Some(i) && i < |s.sessions| && s.sessions[i] == Session([], Waiting, false)
    ensures Step(cfg, Step(cfg, Step(cfg, s, Offer(1)), TrySend(0)), Receive(i)) ==
            s.(packets := s.packets + [Packet(s.offered, 1, InFlight(i))], offered := s.offered + 1,
               sessions := s.sessions[i := Session([], Handling(|s.packets|), false)])
  {
    var n := |s.packets|;
    var s1 := Step(cfg, s, Offer(1));
    var s2 := Step(cfg, s1, TrySend(0));
    assert s1.sessions[i].queue + [n] == [n];
    assert s2.packets == s.packets + [Packet(s.offered, 1, Queued(i))] && s2.calls == [];
    assert s2.sessions == s.sessions[i := Session([n], Waiting, false)];
    var s3 := Step(cfg, s2, Receive(i));
    assert s3.packets == s.packets + [Packet(s.offered, 1, InFlight(i))];
    assert s2.sessions[i].queue[1..] == [];
    assert s3.sessions == s.sessions[i := Session([], Handling(n), false)];
  }

  lemma SecondInHand(cfg: Config, s: State)
    requires !cfg.joinsIngress
    requires s == FIRST_HELD
    ensures RunFrom(cfg, Step(cfg, s, Stop), NEXT_IN_HAND) ==
            State([Packet(0, 1, InFlight(0)), Packet(1, 1, InFlight(1))],
                  [Session([], Handling(0), true), Session([], Handling(1), false)], Some(1), true, [], 2, [], 0)
  {
    var down := State([Packet(0, 1, InFlight(0))], [Session([], Handling(0), true)], None, false, [], 1, [], 0);
    assert Step(cfg, s, Stop) == down;
    Fold4(Stepper(cfg), down, Start(true), Offer(1), TrySend(0), Receive(1));
    OneThrough(cfg, Step(cfg, down, Start(true)), 1);
  }

  /** Datagrams leave in the order of the packets, over all runs, exactly when a new session waits
      for the ingress task of the old one; calls that overlap make no difference to that. */
  lemma GlobalOrderIff(cfg: Config)
    ensures (forall events: seq<Event> :: GlobalOrder(Run(cfg, events).wire)) <==> cfg.joinsIngress
  {
    hide Fold, Step, Inv;
    if cfg.joinsIngress {
      forall events: seq<Event>
        ensures GlobalOrder(Run(cfg, events).wire)
      {
        InitialInv();
        RunOrder(cfg, INITIAL, events);
      }
    } else {
      OldTaskSendsLate(cfg);
    }
  }

  lemma InitialInv()
    ensures Inv(INITIAL)
  {
  }

  // ---------------------------------------------------------------------
  // Calls, and their order.
  // ---------------------------------------------------------------------

  predicate DecidedCall(s: State, k: nat) {
    exists id: nat :: id < |s.packets| && s.packets[id].call == k
  }

  predicate PendingCall(s: State, k: nat) {
    exists c: nat :: c < |s.calls| && s.calls[c].number == k
  }

  predicate PacketCallsApart(s: State) {
    forall a: nat, b: nat :: a < b < |s.packets| ==> s.packets[a].call != s.packets[b].call
  }

  predicate CallsIncrease(s: State) {
    forall c: nat, d: nat :: c < d < |s.calls| ==> s.calls[c].number < s.calls[d].number
  }

  predicate BothApart(s: State) {
    forall a: nat, c: nat :: a < |s.packets| && c < |s.calls| ==> s.packets[a].call != s.calls[c].number
  }

  ghost predicate Accounted(s: State) {
    && PacketCallsApart(s) && CallsIncrease(s) && BothApart(s)
    && (forall a: nat :: a < |s.packets| ==> s.packets[a].call < s.offered)
    && (forall c: nat :: c < |s.calls| ==> s.calls[c].number < s.offered)
    && (forall k: nat :: k < s.offered ==> DecidedCall(s, k) || PendingCall(s, k))
  }

  /** Calls and the packets' calls are as they were. */
  ghost predicate SameCalls(s: State, n: State) {
    && n.calls == s.calls && n.offered == s.offered && |n.packets| == |s.packets|
    && forall a: nat :: a < |s.packets| ==> n.packets[a].call == s.packets[a].call
  }

  lemma PacketStepSameCalls(s: State, i: nat, outcome: Outcome)
    ensures SameCalls(s, HandlePacket(s, i, outcome))
    ensures SameCalls(s, CancelTask(s, i)) && SameCalls(s, ReceivePacket(s, i))
  {
  }

  lemma StepSameCalls(cfg: Config, s: State, e: Event)
    requires !e.Offer? && !e.TrySend?
    ensures SameCalls(s, Step(cfg, s, e))
  {
    if e.Handle? || e.Cancel? || e.Receive? {
      hide HandlePacket, CancelTask, ReceivePacket, SameCalls;
      PacketStepSameCalls(s, e.i, if e.Handle? then e.outcome else SendOk);
    }
  }

  lemma SameAccounted(s: State, n: State)
    requires Accounted(s) && SameCalls(s, n)
    ensures Accounted(n)
  {
    forall k: nat | k < n.offered
      ensures DecidedCall(n, k) || PendingCall(n, k)
    {
      if DecidedCall(s, k) {
        var id: nat :| id < |s.packets| && s.packets[id].call == k;
        assert n.packets[id].call == k;
      } else {
        var c: nat :| c < |s.calls| && s.calls[c].number == k;
        assert n.calls[c].number == k;
      }
    }
  }

  /** A call begins, and is decided at once or pending. */
  ghost predicate Begun(s: State, n: State) {
    && n.offered == s.offered + 1
    && ((exists p: Packet :: p.call == s.offered && n.packets == s.packets + [p] && n.calls == s.calls)
        || (exists c: Call :: c.number == s.offered && n.calls == s.calls + [c] && n.packets == s.packets))
  }

  lemma BegunAccounted(s: State, n: State)
    requires Accounted(s) && Begun(s, n)
    ensures Accounted(n)
  {
    hide Begun;
    BegunParts(s, n);
    forall k: nat | k < n.offered
      ensures DecidedCall(n, k) || PendingCall(n, k)
    {
      if k < s.offered {
        if DecidedCall(s, k) {
          var id: nat :| id < |s.packets| && s.packets[id].call == k;
          assert n.packets[id].call == k;
        } else {
          var c: nat :| c < |s.calls| && s.calls[c].number == k;
          assert n.calls[c].number == k;
        }
      } else if |n.packets| > |s.packets| {
        assert n.packets[|s.packets|].call == k;
      } else {
        assert n.calls[|s.calls|].number == k;
      }
    }
  }

  lemma BegunParts(s: State, n: State)
    requires Begun(s, n)
    ensures n.offered == s.offered + 1
    ensures |s.packets| <= |n.packets| && |s.calls| <= |n.calls|
    ensures |n.packets| + |n.calls| == |s.packets| + |s.calls| + 1
    ensures forall a: nat :: a < |s.packets| ==> n.packets[a] == s.packets[a]
    ensures forall c: nat :: c < |s.calls| ==> n.calls[c] == s.calls[c]
    ensures |n.packets| > |s.packets| ==> n.packets[|s.packets|].call == s.offered
    ensures |n.calls| > |s.calls| ==> n.calls[|s.calls|].number == s.offered
  {
  }

  lemma OfferBegins(cfg: Config, s: State, size: nat)
    ensures OfferPacket(cfg, s, size) == s || Begun(s, OfferPacket(cfg, s, size))
  {
    var n := OfferPacket(cfg, s, size);
    if size > 0 && (cfg.overlap || s.calls == []) {
      if s.current.None? {
        var p := Packet(s.offered, size, Rejected);
        assert p.call == s.offered && n.packets == s.packets + [p];
      } else {
        var c := Call(s.offered, size, s.current.value);
        assert c.number == s.offered && n.calls == s.calls + [c];
      }
    }
  }

  /** Call `c` is decided. */
  ghost predicate Settled(s: State, n: State, c: nat) {
    && c < |s.calls| && n.offered == s.offered && n.calls == s.calls[..c] + s.calls[c + 1..]
    && |n.packets| == |s.packets| + 1 && n.packets[|s.packets|].call == s.calls[c].number
    && forall a: nat :: a < |s.packets| ==> n.packets[a] == s.packets[a]
  }

  lemma RemovedCalls(s: State, n: State, c: nat)
    requires Settled(s, n, c)
    ensures |n.calls| == |s.calls| - 1
    ensures forall d: nat :: d < |n.calls| ==> n.calls[d] == s.calls[if d < c then d else d + 1]
  {
  }

  lemma SettledApart(s: State, n: State, c: nat)
    requires Accounted(s) && Settled(s, n, c)
    ensures PacketCallsApart(n) && CallsIncrease(n) && BothApart(n)
    ensures forall a: nat :: a < |n.packets| ==> n.packets[a].call < n.offered
    ensures forall d: nat :: d < |n.calls| ==> n.calls[d].number < n.offered
  {
    hide DecidedCall, PendingCall;
    RemovedCalls(s, n, c);
    CallsDiffer(s, c);
    forall a: nat, d: nat | a < |n.packets| && d < |n.calls|
      ensures n.packets[a].call != n.calls[d].number
    {
      var was: nat := if d < c then d else d + 1;
      assert n.calls[d] == s.calls[was];
    }
  }

  lemma CallsDiffer(s: State, c: nat)
    requires CallsIncrease(s) && c < |s.calls|
    ensures forall d: nat :: d < |s.calls| && d != c ==> s.calls[d].number != s.calls[c].number
  {
  }

  lemma SettledAll(s: State, n: State, c: nat, k: nat)
    requires Settled(s, n, c) && (DecidedCall(s, k) || PendingCall(s, k))
    ensures DecidedCall(n, k) || PendingCall(n, k)
  {
    RemovedCalls(s, n, c);
    if DecidedCall(s, k) {
      var id: nat :| id < |s.packets| && s.packets[id].call == k;
      assert n.packets[id].call == k;
    } else {
      var d: nat :| d < |s.calls| && s.calls[d].number == k;
      if d == c {
        assert n.packets[|s.packets|].call == k;
      } else {
        var now: nat := if d < c then d else d - 1;
        assert n.calls[now].number == k;
      }
    }
  }

  lemma SettledAccounted(s: State, n: State, c: nat)
    requires Accounted(s) && Settled(s, n, c)
    ensures Accounted(n)
  {
    SettledApart(s, n, c);
    hide DecidedCall, PendingCall, PacketCallsApart, CallsIncrease, BothApart, Settled;
    assert n.offered == s.offered by { SettledOffered(s, n, c); }
    forall k: nat | k < n.offered
      ensures DecidedCall(n, k) || PendingCall(n, k)
    {
      SettledAll(s, n, c, k);
    }
  }

  lemma SettledOffered(s: State, n: State, c: nat)
    requires Settled(s, n, c)
    ensures n.offered == s.offered
  {
  }

  lemma TrySettles(s: State, c: nat)
    ensures TrySendPacket(s, c) == s || Settled(s, TrySendPacket(s, c), c)
  {
  }

  lemma StepAccounted(cfg: Config, s: State, e: Event)
    requires Accounted(s)
    ensures Accounted(Step(cfg, s, e))
  {
    hide Accounted, Begun, Settled, SameCalls, OfferPacket, TrySendPacket;
    if e.Offer? {
      OfferBegins(cfg, s, e.size);
      if OfferPacket(cfg, s, e.size) != s { BegunAccounted(s, OfferPacket(cfg, s, e.size)); }
    } else if e.TrySend? {
      TrySettles(s, e.c);
      if TrySendPacket(s, e.c) != s { SettledAccounted(s, TrySendPacket(s, e.c), e.c); }
    } else {
      StepSameCalls(cfg, s, e);
      SameAccounted(s, Step(cfg, s, e));
    }
  }

  lemma {:induction false} RunAccounted(cfg: Config, s: State, events: seq<Event>)
    requires Accounted(s)
    ensures Accounted(RunFrom(cfg, s, events))
    decreases |events|
  {
    hide Accounted, Step;
    if events != [] {
      StepAccounted(cfg, s, events[0]);
      RunAccounted(cfg, Step(cfg, s, events[0]), events[1..]);
    }
  }

  lemma CallsAccounted(cfg: Config, events: seq<Event>)
    ensures Accounted(Run(cfg, events))
  {
    hide Fold;
    assert Accounted(INITIAL);
    RunAccounted(cfg, INITIAL, events);
  }

  /** Every call that has begun, overlapping others or not, is pending or has become exactly one
      packet, and no packet is of two calls or of none. */
  lemma EveryCallOnce(cfg: Config, events: seq<Event>, k: nat)
    ensures var s := Run(cfg, events);
            && (k < s.offered <==> DecidedCall(s, k) || PendingCall(s, k))
            && !(DecidedCall(s, k) && PendingCall(s, k))
            && (forall a: nat, b: nat ::
                  a < |s.packets| && b < |s.packets| && s.packets[a].call == s.packets[b].call ==> a == b)
  {
    hide Fold;
    CallsAccounted(cfg, events);
  }

  /** Calls one at a time: packets come in the order of their calls. */
  ghost predicate InCallOrder(s: State) {
    && |s.calls| <= 1
    && (forall a: nat, b: nat :: a < b < |s.packets| ==> s.packets[a].call < s.packets[b].call)
    && (forall a: nat, c: nat :: a < |s.packets| && c < |s.calls| ==> s.packets[a].call < s.calls[c].number)
    && (forall a: nat :: a < |s.packets| ==> s.packets[a].call < s.offered)
    && (forall c: nat :: c < |s.calls| ==> s.calls[c].number < s.offered)
  }

  lemma SameCallsOrder(s: State, n: State)
    requires InCallOrder(s) && SameCalls(s, n)
    ensures InCallOrder(n)
  {
  }

  lemma StepCallOrder(cfg: Config, s: State, e: Event)
    requires !cfg.overlap && InCallOrder(s)
    ensures InCallOrder(Step(cfg, s, e))
  {
    if !e.Offer? && !e.TrySend? {
      hide InCallOrder, SameCalls;
      StepSameCalls(cfg, s, e);
      SameCallsOrder(s, Step(cfg, s, e));
    }
  }

  lemma {:induction false} RunCallOrder(cfg: Config, s: State, events: seq<Event>)
    requires !cfg.overlap && InCallOrder(s)
    ensures InCallOrder(RunFrom(cfg, s, events))
    decreases |events|
  {
    hide InCallOrder, Step;
    if events != [] {
      StepCallOrder(cfg, s, events[0]);
      RunCallOrder(cfg, Step(cfg, s, events[0]), events[1..]);
    }
  }

  /** The datagrams of each session leave in the order in which the calls began; */
  ghost predicate SessionCallOrder(s: State) {
    forall a: nat, b: nat :: a < b < |s.wire| && s.wire[a].session == s.wire[b].session
                             && s.wire[a].id < |s.packets| && s.wire[b].id < |s.packets| ==>
      s.packets[s.wire[a].id].call < s.packets[s.wire[b].id].call
  }

  /** all datagrams do. */
  ghost predicate GlobalCallOrder(s: State) {
    forall a: nat, b: nat :: a < b < |s.wire| && s.wire[a].id < |s.packets| && s.wire[b].id < |s.packets| ==>
      s.packets[s.wire[a].id].call < s.packets[s.wire[b].id].call
  }

  lemma OrderOfCalls(s: State)
    requires InCallOrder(s)
    ensures SessionOrder(s.wire) ==> SessionCallOrder(s)
    ensures GlobalOrder(s.wire) ==> GlobalCallOrder(s)
  {
  }

  const TWO_OFFERED: seq<Event> := [Start(true), Offer(1), Offer(1), TrySend(1)]
  const LATER_SENT: seq<Event> := [TrySend(0), Receive(0), Handle(0, SendOk), CountBytes(0)]
  const CROSSED: seq<Event> := TWO_OFFERED + LATER_SENT + [Receive(0)] + [Handle(0, SendOk)]

  const LATER_QUEUED: State :=
    State([Packet(1, 1, Queued(0))], [Session([0], Waiting, false)], Some(0), true, [Call(0, 1, 0)], 2, [], 0)
  const LATER_OUT: State :=
    State([Packet(1, 1, Sent(0)), Packet(0, 1, Queued(0))], [Session([1], Waiting, false)], Some(0), true, [], 2,
          [Datagram(0, 0)], 1)

  lemma TwoOffered(cfg: Config)
    requires cfg.overlap
    ensures Run(cfg, TWO_OFFERED) == LATER_QUEUED
  {
    Fold4(Stepper(cfg), INITIAL, Start(true), Offer(1), Offer(1), TrySend(1));
    hide Fold;
    var up := State([], [Session([], Waiting, false)], Some(0), true, [], 0, [], 0);
    assert Step(cfg, INITIAL, Start(true)) == up;
    var both := up.(calls := [Call(0, 1, 0), Call(1, 1, 0)], offered := 2);
    assert Step(cfg, Step(cfg, up, Offer(1)), Offer(1)) == both;
    assert both.calls[..1] + both.calls[2..] == [Call(0, 1, 0)];
    assert both.sessions[0].queue + [0] == [0];
    assert Step(cfg, both, TrySend(1)).sessions == [Session([0], Waiting, false)];
  }

  const BOTH_QUEUED: State :=
    State([Packet(1, 1, Queued(0)), Packet(0, 1, Queued(0))], [Session([0, 1], Waiting, false)],
          Some(0), true, [], 2, [], 0)
  const LATER_HELD: State :=
    State([Packet(1, 1, InFlight(0)), Packet(0, 1, Queued(0))], [Session([1], Handling(0), false)],
          Some(0), true, [], 2, [], 0)
  const LATER_SENDING: State :=
    State([Packet(1, 1, OnWire(0)), Packet(0, 1, Queued(0))], [Session([1], Counting(0), false)], Some(0), true, [], 2,
          [Datagram(0, 0)], 0)

  lemma BothQueued(cfg: Config)
    ensures Step(cfg, LATER_QUEUED, TrySend(0)) == BOTH_QUEUED
  {
    var n := Step(cfg, LATER_QUEUED, TrySend(0));
    assert LATER_QUEUED.calls[..0] + LATER_QUEUED.calls[1..] == [];
    assert LATER_QUEUED.sessions[0].queue + [1] == [0, 1];
    assert n.packets == BOTH_QUEUED.packets && n.sessions == BOTH_QUEUED.sessions;
  }

  lemma LaterHeld(cfg: Config)
    ensures Step(cfg, BOTH_QUEUED, Receive(0)) == LATER_HELD
  {
    var n := Step(cfg, BOTH_QUEUED, Receive(0));
    assert BOTH_QUEUED.sessions[0].queue[1..] == [1];
    assert n.packets == LATER_HELD.packets && n.sessions == LATER_HELD.sessions;
  }

  lemma LaterOut(cfg: Config)
    ensures Step(cfg, LATER_HELD, Handle(0, SendOk)) == LATER_SENDING
  {
    var n := Step(cfg, LATER_HELD, Handle(0, SendOk));
    assert n.packets == LATER_SENDING.packets && n.sessions == LATER_SENDING.sessions;
    assert n.wire == LATER_SENDING.wire;
  }

  lemma LaterCounted(cfg: Config)
    ensures Step(cfg, LATER_SENDING, CountBytes(0)) == LATER_OUT
  {
    var n := Step(cfg, LATER_SENDING, CountBytes(0));
    assert n.packets == LATER_OUT.packets && n.sessions == LATER_OUT.sessions;
  }

  lemma LaterSent(cfg: Config)
    ensures RunFrom(cfg, LATER_QUEUED, LATER_SENT) == LATER_OUT
  {
    hide Fold, Step;
    Fold4(Stepper(cfg), LATER_QUEUED, TrySend(0), Receive(0), Handle(0, SendOk), CountBytes(0));
    BothQueued(cfg);
    LaterHeld(cfg);
    LaterOut(cfg);
    LaterCounted(cfg);
  }

  /** Two calls overlap, and the later one reaches the queue first. */
  lemma CallsCross(cfg: Config)
    requires cfg.overlap
    ensures !SessionCallOrder(Run(cfg, CROSSED))
  {
    var f := Stepper(cfg);
    TwoOffered(cfg);
    LaterSent(cfg);
    FoldConcat(f, INITIAL, TWO_OFFERED, LATER_SENT);
    FoldSnoc(f, INITIAL, TWO_OFFERED + LATER_SENT, Receive(0));
    FoldSnoc(f, INITIAL, TWO_OFFERED + LATER_SENT + [Receive(0)], Handle(0, SendOk));
    hide Fold;
    SecondOut(cfg);
  }

  lemma SecondOut(cfg: Config)
    ensures !SessionCallOrder(Step(cfg, Step(cfg, LATER_OUT, Receive(0)), Handle(0, SendOk)))
  {
    var held := Step(cfg, LATER_OUT, Receive(0));
    var end := Step(cfg, held, Handle(0, SendOk));
    assert end.wire == [Datagram(0, 0), Datagram(0, 1)];
    assert end.packets[0].call == 1 && end.packets[1].call == 0;
    assert end.wire[0].session == end.wire[1].session && end.wire[0].id == 0 && end.wire[1].id == 1;
  }

  lemma OldTaskCallsLate(cfg: Config)
    requires !cfg.joinsIngress
    ensures !GlobalCallOrder(Run(cfg, OVERTAKEN))
  {
    hide Fold, Step;
    FirstInHand(cfg);
    FoldSnoc(Stepper(cfg), INITIAL, ONE_IN_HAND, Stop);
    SecondInHand(cfg, Run(cfg, ONE_IN_HAND));
    FoldConcat(Stepper(cfg), INITIAL, ONE_IN_HAND + [Stop], NEXT_IN_HAND);
    FoldSnoc(Stepper(cfg), INITIAL, ONE_IN_HAND + [Stop] + NEXT_IN_HAND, Handle(1, SendOk));
    FoldSnoc(Stepper(cfg), INITIAL, ONE_IN_HAND + [Stop] + NEXT_IN_HAND + [Handle(1, SendOk)], Handle(0, SendOk));
    BothCalls(cfg, Run(cfg, ONE_IN_HAND + [Stop] + NEXT_IN_HAND));
  }

  lemma BothCalls(cfg: Config, s: State)
    requires |s.sessions| == 2 && s.sessions[0].task == Handling(0) && s.sessions[1].task == Handling(1) && s.wire == []
    requires |s.packets| == 2 && s.packets[0].call == 0 && s.packets[1].call == 1
    ensures !GlobalCallOrder(Step(cfg, Step(cfg, s, Handle(1, SendOk)), Handle(0, SendOk)))
  {
    var end := Step(cfg, Step(cfg, s, Handle(1, SendOk)), Handle(0, SendOk));
    assert end.wire == [Datagram(1, 1), Datagram(0, 0)];
    assert end.packets[end.wire[0].id].call == 1 && end.packets[end.wire[1].id].call == 0;
  }

  lemma InOrderReached(cfg: Config, events: seq<Event>)
    requires !cfg.overlap
    ensures SessionCallOrder(Run(cfg, events))
    ensures cfg.joinsIngress ==> GlobalCallOrder(Run(cfg, events))
  {
    hide Fold, Step, SessionOrder, GlobalOrder, SessionCallOrder, GlobalCallOrder;
    ReachableInv(cfg, events);
    assert InCallOrder(INITIAL);
    RunCallOrder(cfg, INITIAL, events);
    OrderOfCalls(Run(cfg, events));
    GlobalOrderIff(cfg);
  }

  lemma AllIsEach(s: State)
    ensures GlobalCallOrder(s) ==> SessionCallOrder(s)
  {
  }

  /** Over all runs the datagrams of each session leave in the order of the calls exactly when
      calls do not overlap; and all datagrams do exactly when, besides, a new session waits for the
      ingress task of the old one. */
  lemma CallOrderIff(cfg: Config)
    ensures (forall events: seq<Event> :: SessionCallOrder(Run(cfg, events))) <==> !cfg.overlap
    ensures (forall events: seq<Event> :: GlobalCallOrder(Run(cfg, events))) <==> cfg.joinsIngress && !cfg.overlap
  {
    hide Fold, Step, Inv, SessionCallOrder, GlobalCallOrder;
    if cfg.overlap {
      CallsCross(cfg);
      AllIsEach(Run(cfg, CROSSED));
    } else {
      forall events: seq<Event>
        ensures SessionCallOrder(Run(cfg, events)) && (cfg.joinsIngress ==> GlobalCallOrder(Run(cfg, events)))
      {
        InOrderReached(cfg, events);
      }
      if !cfg.joinsIngress { OldTaskCallsLate(cfg); }
    }
  }
}
