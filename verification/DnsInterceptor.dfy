/** The split-DNS interceptor: queries waiting for a clean answer, keyed by transaction id and
    shared between the ingress task, which adds and clears them, and the egress task, which
    consumes them. Every interleaving of the two is a list of events. */
module DnsInterception {
  import opened Bits
  import opened Common
  import opened Runs
  import opened InternetChecksum
  import opened DnsPacket
  import opened PacketFields

  /** Addressing of the client that waits. */
  datatype Pending = Pending(clientIp: Ip4, clientPort: u16, serverIp: Ip4, serverPort: u16)

  function TxidOf(dns: seq<byte>): Option<u16> {
    if |dns| < 2 then None else Some(Word(dns[0], dns[1]))
  }

  function PendingOf(q: Query): Pending {
    Pending(q.clientIp, q.clientPort, q.serverIp, q.serverPort)
  }

  /** The answer packet sent back to the waiting client. */
  function AnswerPacket(p: Pending, dns: seq<byte>): seq<byte> {
    Packet(p.serverIp, p.serverPort, p.clientIp, p.clientPort, dns)
  }

  /** The key is the first two bytes, both of them. */
  lemma TxidIsTwoBytes(a: seq<byte>, b: seq<byte>)
    ensures TxidOf(a).Some? <==> |a| >= 2
    ensures |a| >= 2 && |b| >= 2 ==> (TxidOf(a) == TxidOf(b) <==> a[..2] == b[..2])
  {
    if |a| >= 2 && |b| >= 2 {
      assert a[..2] == [a[0], a[1]] && b[..2] == [b[0], b[1]];
      assert a[..2] == b[..2] <==> a[0] == b[0] && a[1] == b[1];
    }
  }

  /** An answer to a query goes from where the query was sent to where it came from. */
  ghost predicate AnswersQuery(pkt: seq<byte>, q: Query, dns: seq<byte>) {
    IsDatagram(pkt, q.serverIp, q.serverPort, q.clientIp, q.clientPort, dns)
  }

  lemma AnswerIsAddressed(p: Pending, dns: seq<byte>)
    ensures IsDatagram(AnswerPacket(p, dns), p.serverIp, p.serverPort, p.clientIp, p.clientPort, dns)
  {
    hide Packet, IsDatagram;
    BuiltDatagram(p.serverIp, p.serverPort, p.clientIp, p.clientPort, dns);
  }

  lemma QueryIsAnswered(q: Query, dns: seq<byte>)
    ensures AnswersQuery(AnswerPacket(PendingOf(q), dns), q, dns)
  {
    hide AnswerPacket, IsDatagram;
    AnswerIsAddressed(PendingOf(q), dns);
  }

  // ---------------------------------------------------------------------
  // Recognizing a reply.
  // ---------------------------------------------------------------------

  /** As written: the query parser is reused, so the *destination* must be the resolver. */
  function ReplyAsWritten(remote: Ip4, pkt: seq<byte>): Option<seq<byte>> {
    match ParseUdpDnsQuery(pkt)
    case None => None
    case Some(q) =>
      if q.serverPort != DNS_PORT || q.serverIp != remote || |q.dns| < 2 then None else Some(q.dns)
  }

  /** What the comment beside it describes: the *source* is the resolver. */
  function ReplyIntended(remote: Ip4, pkt: seq<byte>): Option<seq<byte>> {
    match UdpStart(pkt)
    case None => None
    case Some(ihl) =>
      var udp := pkt[ihl..];
      var udpLen := Word(udp[4], udp[5]);
      if Word(udp[0], udp[1]) != DNS_PORT || pkt[12..16] != remote then None
      else if udpLen < UDP_HEADER || ihl + udpLen > |pkt| then None
      else
        var dns := udp[UDP_HEADER..udpLen];
        if |dns| < 2 then None else Some(dns)
  }

  /** As written, a reply the resolver sends to a client is recognized only when that client is
      the resolver's own address on port 53; keyed on the source, every reply would be. */
  lemma {:induction false} RepliesRecognized(remote: Ip4, client: Ip4, port: u16, dns: seq<byte>)
    requires |dns| <= MAX_PAYLOAD
    ensures var reply := Packet(remote, DNS_PORT, client, port, dns);
            && (ReplyAsWritten(remote, reply) == Some(dns)
                <==> port == DNS_PORT && client == remote && |dns| >= 2)
            && (ReplyAsWritten(remote, reply).Some? ==> ReplyAsWritten(remote, reply) == Some(dns))
            && (ReplyIntended(remote, reply) == Some(dns) <==> |dns| >= 2)
  {
    hide Packet, ParseUdpDnsQuery, Word;
    var reply := Packet(remote, DNS_PORT, client, port, dns);
    var length := Truncate16(UDP_HEADER + |dns|);
    assert length == UDP_HEADER + |dns|;
    ParseBuilt(remote, DNS_PORT, client, port, dns);
    assert dns[..length - UDP_HEADER] == dns;
    IntendedRecognized(remote, client, port, dns);
  }

  lemma {:induction false} IntendedRecognized(remote: Ip4, client: Ip4, port: u16, dns: seq<byte>)
    requires |dns| <= MAX_PAYLOAD
    ensures ReplyIntended(remote, Packet(remote, DNS_PORT, client, port, dns))
            == if |dns| >= 2 then Some(dns) else None
  {
    hide Packet, Word;
    PacketBytes(remote, DNS_PORT, client, port, dns);
    var pkt := Packet(remote, DNS_PORT, client, port, dns);
    DontFragment(pkt[6], pkt[7]);
    var udp := pkt[IPV4_MIN_HEADER..];
    assert udp[UDP_HEADER..UDP_HEADER + |dns|] == udp[UDP_HEADER..];
  }

  // ---------------------------------------------------------------------
  // Every interleaving.
  // ---------------------------------------------------------------------

  /** Where the ingress task is with its current A/IN query, by number. */
  datatype IngressAt =
    | Idle
    | Registered(query: nat, q: Query, txid: u16)
    | AwaitingLocal(query: nat, q: Query)

  /** An entry and the number of the query that inserted it. */
  datatype Tagged = Tagged(entry: Pending, query: nat)

  datatype Insert = Insert(txid: u16, tagged: Tagged)

  datatype Emission =
    | LocalAnswer(query: nat, packet: seq<byte>)
    | CleanAnswer(query: nat, packet: seq<byte>)

  /** The pending map with the history needed to state what became of each entry. An answer is
      decided when its entry is taken or cleared, and held by its task until it is sent: both
      tasks call back after they have given up the lock of the map. */
  datatype State = State(
    pending: map<u16, Tagged>,
    ingress: IngressAt,
    queries: nat,
    inserts: seq<Insert>,
    overwrites: nat,
    clears: nat,
    failures: nat,
    answers: seq<Emission>,
    egressHolds: Option<Emission>,
    ingressHolds: Option<Emission>,
    sent: seq<Emission>)

  /** `Tunneled` carries what the reply recognizer returned, so the results below hold for the
      recognizer as written and as intended. */
  datatype Event =
    | Intercept(q: Query)
    | EncryptDone(ok: bool)
    | LocalDone(answer: Option<seq<byte>>, domestic: bool)
    | EmitLocal
    | Tunneled(reply: Option<seq<byte>>)
    | EmitClean

  const INITIAL: State := State(map[], Idle, 0, [], 0, 0, 0, [], None, None, [])

  /** A new A/IN query: without a transaction id nothing is registered. */
  function BeginQuery(s: State, q: Query): State {
    match TxidOf(q.dns)
    case None => s.(ingress := AwaitingLocal(s.queries, q), queries := s.queries + 1)
    case Some(t) =>
      var tagged := Tagged(PendingOf(q), s.queries);
      s.(pending := s.pending[t := tagged],
         ingress := Registered(s.queries, q, t),
         queries := s.queries + 1,
         inserts := s.inserts + [Insert(t, tagged)],
         overwrites := s.overwrites + if t in s.pending then 1 else 0)
  }

  /** A failed encryption takes its transaction id out again, whoever holds it by then. */
  function FinishEncrypt(s: State, ok: bool): State
    requires s.ingress.Registered?
  {
    var t := s.ingress.txid;
    var next := s.(ingress := AwaitingLocal(s.ingress.query, s.ingress.q));
    if ok || t !in s.pending then next
    else next.(pending := s.pending - {t}, failures := s.failures + 1)
  }

  /** A domestic local answer clears the id and goes to the client. */
  function FinishLocal(s: State, answer: Option<seq<byte>>, domestic: bool): State
    requires s.ingress.AwaitingLocal?
  {
    var next := s.(ingress := Idle);
    if answer.None? || !domestic then next
    else
      var q, t := s.ingress.q, TxidOf(s.ingress.q.dns);
      var a := LocalAnswer(s.ingress.query, AnswerPacket(PendingOf(q), answer.value));
      var decided := next.(answers := s.answers + [a], ingressHolds := Some(a));
      if t.None? || t.value !in s.pending then decided
      else decided.(pending := s.pending - {t.value}, clears := s.clears + 1)
  }

  function Consume(s: State, dns: seq<byte>): State {
    var t := TxidOf(dns);
    if t.None? || t.value !in s.pending then s
    else
      var p := s.pending[t.value];
      var a := CleanAnswer(p.query, AnswerPacket(p.entry, dns));
      s.(pending := s.pending - {t.value}, answers := s.answers + [a], egressHolds := Some(a))
  }

  /** One atomic step; an event that does not apply where the ingress task is changes nothing. */
  function Step(s: State, e: Event): State {
    match e
    case Intercept(q) => if s.ingress.Idle? && s.ingressHolds.None? then BeginQuery(s, q) else s
    case EncryptDone(ok) => if s.ingress.Registered? then FinishEncrypt(s, ok) else s
    case LocalDone(answer, domestic) => if s.ingress.AwaitingLocal? then FinishLocal(s, answer, domestic) else s
    case EmitLocal =>
      if s.ingressHolds.Some? then s.(sent := s.sent + [s.ingressHolds.value], ingressHolds := None) else s
    case Tunneled(reply) => if reply.Some? && s.egressHolds.None? then Consume(s, reply.value) else s
    case EmitClean =>
      if s.egressHolds.Some? then s.(sent := s.sent + [s.egressHolds.value], egressHolds := None) else s
  }

  function Run(events: seq<Event>): State {
    Fold(Step, INITIAL, events)
  }

  lemma RunStep(events: seq<Event>, e: Event)
    ensures Run(events + [e]) == Step(Run(events), e)
  {
    FoldSnoc(Step, INITIAL, events, e);
  }

  lemma RunLast(events: seq<Event>)
    requires events != []
    ensures Run(events) == Step(Run(events[..|events| - 1]), events[|events| - 1])
  {
    assert events == events[..|events| - 1] + [events[|events| - 1]];
    RunStep(events[..|events| - 1], events[|events| - 1]);
  }

  function Consumed(es: seq<Emission>): nat {
    if es == [] then 0
    else Consumed(es[..|es| - 1]) + if es[|es| - 1].CleanAnswer? then 1 else 0
  }

  /** The last entry inserted under an id. */
  function Latest(inserts: seq<Insert>, t: u16): Option<Tagged> {
    if inserts == [] then None
    else if inserts[|inserts| - 1].txid == t then Some(inserts[|inserts| - 1].tagged)
    else Latest(inserts[..|inserts| - 1], t)
  }

  ghost predicate HoldsLatest(s: State) {
    forall t :: t in s.pending ==> Latest(s.inserts, t) == Some(s.pending[t])
  }

  /** Every query number handed out so far is below `queries`, one entry per query. */
  ghost predicate Numbered(s: State) {
    && (forall t :: t in s.pending ==> s.pending[t].query < s.queries)
    && (forall t, u :: t in s.pending && u in s.pending && t != u ==> s.pending[t].query != s.pending[u].query)
    && (!s.ingress.Idle? ==> s.ingress.query < s.queries)
    && (forall k :: 0 <= k < |s.answers| ==> s.answers[k].query < s.queries)
  }

  ghost predicate NoLocalFor(es: seq<Emission>, query: nat) {
    forall k :: 0 <= k < |es| && es[k].LocalAnswer? ==> es[k].query != query
  }

  ghost predicate NoCleanFor(es: seq<Emission>, query: nat) {
    forall k :: 0 <= k < |es| && es[k].CleanAnswer? ==> es[k].query != query
  }

  /** The query in progress has had no local answer, and no pending entry a clean one. */
  ghost predicate StillOwed(s: State) {
    && (!s.ingress.Idle? ==> NoLocalFor(s.answers, s.ingress.query))
    && (forall t :: t in s.pending ==> NoCleanFor(s.answers, s.pending[t].query))
  }

  /** At most one local and at most one clean answer per query. */
  ghost predicate AnsweredOnce(es: seq<Emission>) {
    forall j, k :: 0 <= j < k < |es| && es[j].query == es[k].query ==> es[j].LocalAnswer? != es[k].LocalAnswer?
  }

  ghost predicate Balanced(s: State) {
    |s.inserts| == s.overwrites + s.clears + s.failures + Consumed(s.answers) + |s.pending|
  }

  lemma DropSize(m: map<u16, Tagged>, t: u16)
    requires t in m
    ensures |m - {t}| == |m| - 1
  {
    assert (m - {t}).Keys == m.Keys - {t};
  }

  lemma StoreSize(m: map<u16, Tagged>, t: u16, p: Tagged)
    ensures |m[t := p]| == |m| + if t in m then 0 else 1
  {
    assert m[t := p].Keys == m.Keys + {t};
  }

  lemma ConsumedAppend(es: seq<Emission>, e: Emission)
    ensures Consumed(es + [e]) == Consumed(es) + if e.CleanAnswer? then 1 else 0
  {
    assert (es + [e])[..|es|] == es;
  }

  lemma BeginBalanced(s: State, q: Query)
    requires Balanced(s)
    ensures Balanced(BeginQuery(s, q))
  {
    hide Consumed, TxidOf, PendingOf;
    if TxidOf(q.dns).Some? {
      StoreSize(s.pending, TxidOf(q.dns).value, Tagged(PendingOf(q), s.queries));
    }
  }

  lemma EncryptBalanced(s: State, ok: bool)
    requires Balanced(s) && s.ingress.Registered?
    ensures Balanced(FinishEncrypt(s, ok))
  {
    hide Consumed;
    if s.ingress.txid in s.pending {
      DropSize(s.pending, s.ingress.txid);
    }
  }

  lemma LocalBalanced(s: State, answer: Option<seq<byte>>, domestic: bool)
    requires Balanced(s) && s.ingress.AwaitingLocal?
    ensures Balanced(FinishLocal(s, answer, domestic))
  {
    hide Consumed, TxidOf, PendingOf, AnswerPacket;
    if answer.Some? && domestic {
      var t := TxidOf(s.ingress.q.dns);
      if t.Some? && t.value in s.pending {
        DropSize(s.pending, t.value);
      }
      ConsumedAppend(s.answers, LocalAnswer(s.ingress.query, AnswerPacket(PendingOf(s.ingress.q), answer.value)));
    }
  }

  lemma ConsumeBalanced(s: State, dns: seq<byte>)
    requires Balanced(s)
    ensures Balanced(Consume(s, dns))
  {
    hide Consumed, TxidOf, AnswerPacket;
    var t := TxidOf(dns);
    if t.Some? && t.value in s.pending {
      var p := s.pending[t.value];
      DropSize(s.pending, t.value);
      ConsumedAppend(s.answers, CleanAnswer(p.query, AnswerPacket(p.entry, dns)));
    }
  }

  lemma SendBalanced(s: State)
    requires Balanced(s)
    ensures Balanced(Step(s, EmitLocal)) && Balanced(Step(s, EmitClean))
  {
  }

  lemma {:induction false} BalanceKept(s: State, e: Event)
    requires Balanced(s)
    ensures Balanced(Step(s, e))
  {
    hide Balanced, BeginQuery, FinishEncrypt, FinishLocal, Consume;
    match e
    case Intercept(q) =>
      if s.ingress.Idle? { BeginBalanced(s, q); }
    case EmitLocal => SendBalanced(s);
    case EmitClean => SendBalanced(s);
    case EncryptDone(ok) =>
      if s.ingress.Registered? { EncryptBalanced(s, ok); }
    case LocalDone(answer, domestic) =>
      if s.ingress.AwaitingLocal? { LocalBalanced(s, answer, domestic); }
    case Tunneled(reply) =>
      if reply.Some? { ConsumeBalanced(s, reply.value); }
  }

  lemma LatestAppend(inserts: seq<Insert>, i: Insert, t: u16)
    ensures Latest(inserts + [i], t) == if i.txid == t then Some(i.tagged) else Latest(inserts, t)
  {
    assert (inserts + [i])[..|inserts|] == inserts;
  }

  lemma {:induction false} LatestKept(s: State, e: Event)
    requires HoldsLatest(s)
    ensures HoldsLatest(Step(s, e))
  {
    hide AnswerPacket, Latest;
    if e.Intercept? && s.ingress.Idle? && s.ingressHolds.None? && TxidOf(e.q.dns).Some? {
      var i := Insert(TxidOf(e.q.dns).value, Tagged(PendingOf(e.q), s.queries));
      forall t | t in Step(s, e).pending
        ensures Latest(Step(s, e).inserts, t) == Some(Step(s, e).pending[t])
      {
        LatestAppend(s.inserts, i, t);
      }
    }
  }

  lemma {:induction false} NumberingKept(s: State, e: Event)
    requires Numbered(s)
    ensures Numbered(Step(s, e))
  {
    hide AnswerPacket, TxidOf, PendingOf;
  }

  lemma {:induction false} AnswersKept(s: State, e: Event)
    requires Numbered(s) && StillOwed(s) && AnsweredOnce(s.answers)
    ensures StillOwed(Step(s, e)) && AnsweredOnce(Step(s, e).answers)
  {
    hide AnswerPacket, TxidOf, PendingOf;
  }

  /** Conservation over every interleaving: each insertion was overwritten, cleared, withdrawn
      after a failed encryption, consumed by a reply, or is still pending. */
  lemma {:induction false} EveryInsertAccountedFor(events: seq<Event>)
    ensures var s := Run(events);
            |s.inserts| == s.overwrites + s.clears + s.failures + Consumed(s.answers) + |s.pending|
  {
    if events != [] {
      RunLast(events);
      EveryInsertAccountedFor(events[..|events| - 1]);
      BalanceKept(Run(events[..|events| - 1]), events[|events| - 1]);
    }
  }

  /** Each query gets at most one local and at most one clean answer. */
  lemma {:induction false} EachQueryAnsweredOnce(events: seq<Event>)
    ensures Numbered(Run(events)) && StillOwed(Run(events)) && AnsweredOnce(Run(events).answers)
  {
    hide Step, StillOwed, AnsweredOnce, Numbered;
    if events == [] {
      NothingAnswered();
    } else {
      RunLast(events);
      EachQueryAnsweredOnce(events[..|events| - 1]);
      NumberingKept(Run(events[..|events| - 1]), events[|events| - 1]);
      AnswersKept(Run(events[..|events| - 1]), events[|events| - 1]);
    }
  }

  lemma NothingAnswered()
    ensures Numbered(INITIAL) && StillOwed(INITIAL) && AnsweredOnce(INITIAL.answers) && HoldsLatest(INITIAL)
  {
  }

  lemma {:induction false} PendingIsLatest(events: seq<Event>)
    ensures HoldsLatest(Run(events))
  {
    hide Step, HoldsLatest;
    if events == [] {
      NothingAnswered();
    } else {
      RunLast(events);
      PendingIsLatest(events[..|events| - 1]);
      LatestKept(Run(events[..|events| - 1]), events[|events| - 1]);
    }
  }

  /** A reply that is consumed decides exactly one answer, addressed to the client that last
      inserted its transaction id, and a second copy of the reply is not consumed. */
  lemma {:induction false} ReplyGoesToLatest(events: seq<Event>, dns: seq<byte>)
    requires TxidOf(dns).Some? && TxidOf(dns).value in Run(events).pending && Run(events).egressHolds.None?
    ensures var s, after := Run(events), Run(events + [Tunneled(Some(dns))] + [EmitClean]);
            var latest := Latest(s.inserts, TxidOf(dns).value);
            && latest.Some?
            && after.answers == s.answers + [CleanAnswer(latest.value.query, AnswerPacket(latest.value.entry, dns))]
            && after.sent == s.sent + [CleanAnswer(latest.value.query, AnswerPacket(latest.value.entry, dns))]
            && Run(events + [Tunneled(Some(dns))] + [EmitClean] + [Tunneled(Some(dns))]) == after
  {
    hide AnswerPacket, Latest, Run;
    PendingIsLatest(events);
    RunStep(events, Tunneled(Some(dns)));
    RunStep(events + [Tunneled(Some(dns))], EmitClean);
    RunStep(events + [Tunneled(Some(dns))] + [EmitClean], Tunneled(Some(dns)));
  }

  function Held(s: State): multiset<Emission> {
    (if s.egressHolds.Some? then multiset{s.egressHolds.value} else multiset{})
    + (if s.ingressHolds.Some? then multiset{s.ingressHolds.value} else multiset{})
  }

  /** Every answer decided is sent once, unless a task still holds it. */
  lemma {:induction false} AnswersSent(events: seq<Event>)
    ensures multiset(Run(events).sent) + Held(Run(events)) == multiset(Run(events).answers)
  {
    SendingAccounted(events);
  }

  lemma {:induction false} SendingAccounted(events: seq<Event>)
    ensures Accounted(Run(events))
  {
    hide Step, Accounted;
    if events == [] {
      NothingHeld();
    } else {
      RunLast(events);
      SendingAccounted(events[..|events| - 1]);
      SendingKept(Run(events[..|events| - 1]), events[|events| - 1]);
    }
  }

  ghost predicate Accounted(s: State) {
    multiset(s.sent) + Held(s) == multiset(s.answers) && (s.ingressHolds.Some? ==> s.ingress.Idle?)
  }

  lemma NothingHeld()
    ensures Accounted(INITIAL)
  {
  }

  lemma SendingKept(s: State, e: Event)
    requires Accounted(s)
    ensures Accounted(Step(s, e))
  {
    hide Accounted, Consume, FinishLocal, BeginQuery, FinishEncrypt;
    match e
    case Intercept(q) => if s.ingress.Idle? && s.ingressHolds.None? { QueryHoldsNothing(s, q); }
    case EncryptDone(ok) => if s.ingress.Registered? { EncryptHoldsNothing(s, ok); }
    case LocalDone(answer, domestic) => if s.ingress.AwaitingLocal? { LocalHeld(s, answer, domestic); }
    case Tunneled(reply) => if reply.Some? && s.egressHolds.None? { CleanHeld(s, reply.value); }
    case EmitLocal => LocalSent(s);
    case EmitClean => CleanSent(s);
  }

  lemma QueryHoldsNothing(s: State, q: Query)
    requires Accounted(s) && s.ingressHolds.None?
    ensures Accounted(BeginQuery(s, q))
  {
    hide PendingOf, TxidOf;
  }

  lemma EncryptHoldsNothing(s: State, ok: bool)
    requires Accounted(s) && s.ingress.Registered?
    ensures Accounted(FinishEncrypt(s, ok))
  {
  }

  lemma LocalHeld(s: State, answer: Option<seq<byte>>, domestic: bool)
    requires Accounted(s) && s.ingress.AwaitingLocal?
    ensures Accounted(FinishLocal(s, answer, domestic))
  {
    hide AnswerPacket, TxidOf, PendingOf;
  }

  lemma CleanHeld(s: State, dns: seq<byte>)
    requires Accounted(s) && s.egressHolds.None?
    ensures Accounted(Consume(s, dns))
  {
    hide AnswerPacket, TxidOf, PendingOf;
  }

  lemma OneMore(es: seq<Emission>, x: Emission)
    ensures multiset(es + [x]) == multiset(es) + multiset{x}
  {
  }

  lemma LocalSent(s: State)
    requires Accounted(s)
    ensures Accounted(Step(s, EmitLocal))
  {
    if s.ingressHolds.Some? { OneMore(s.sent, s.ingressHolds.value); }
  }

  lemma CleanSent(s: State)
    requires Accounted(s)
    ensures Accounted(Step(s, EmitClean))
  {
    if s.egressHolds.Some? { OneMore(s.sent, s.egressHolds.value); }
  }

  lemma TwoPositions(es: seq<Emission>, x: Emission) returns (a: nat, b: nat)
    requires multiset(es)[x] >= 2
    ensures a < b < |es| && es[a] == es[b] == x
  {
    var i: nat :| i < |es| && es[i] == x;
    var rest := es[..i] + es[i + 1..];
    assert es == es[..i] + [es[i]] + es[i + 1..];
    assert multiset(rest)[x] >= 1;
    var j: nat :| j < |rest| && rest[j] == x;
    a, b := if j < i then j else i, if j < i then i else j + 1;
  }

  lemma TwiceSent(es: seq<Emission>, a: nat, b: nat)
    requires a < b < |es| && es[a] == es[b]
    ensures multiset(es)[es[a]] >= 2
  {
    assert es == es[..a] + [es[a]] + es[a + 1..b] + [es[b]] + es[b + 1..];
  }

  /** No client is sent two local or two clean answers to one query. */
  lemma {:induction false} SentAtMostOnce(events: seq<Event>, a: nat, b: nat)
    requires a < b < |Run(events).sent| && Run(events).sent[a].query == Run(events).sent[b].query
    ensures Run(events).sent[a].LocalAnswer? != Run(events).sent[b].LocalAnswer?
  {
    hide Run;
    var s := Run(events);
    var x, y := s.sent[a], s.sent[b];
    AnswersSent(events);
    EachQueryAnsweredOnce(events);
    assert multiset(s.sent) <= multiset(s.answers);
    if x == y {
      TwiceSent(s.sent, a, b);
      assert multiset(s.answers)[x] >= 2;
      var i, j := TwoPositions(s.answers, x);
      assert false;
    } else {
      assert x in multiset(s.sent) && y in multiset(s.sent);
      assert x in multiset(s.answers) && y in multiset(s.answers);
      var i: nat :| i < |s.answers| && s.answers[i] == x;
      var j: nat :| j < |s.answers| && s.answers[j] == y;
      assert i < j || j < i;
    }
  }

  // ---------------------------------------------------------------------
  // Two answers to one query.
  // ---------------------------------------------------------------------

  ghost predicate HasClean(es: seq<Emission>, query: nat) {
    !NoCleanFor(es, query)
  }

  ghost predicate HasLocal(es: seq<Emission>, query: nat) {
    !NoLocalFor(es, query)
  }

  /** Event `i` is a reply that consumes the entry of the query. */
  ghost predicate ConsumesAt(events: seq<Event>, i: nat, query: nat) {
    i < |events| && Consuming(Run(events[..i]), events[i], query)
  }

  predicate Consuming(s: State, e: Event, query: nat) {
    e.Tunneled? && e.reply.Some? && s.egressHolds.None? &&
    var t := TxidOf(e.reply.value);
    t.Some? && t.value in s.pending && s.pending[t.value].query == query
  }

  /** Event `j` is the domestic local answer to the query. */
  ghost predicate AnswersAt(events: seq<Event>, j: nat, query: nat) {
    j < |events| && Answering(Run(events[..j]), events[j], query)
  }

  predicate Answering(s: State, e: Event, query: nat) {
    e.LocalDone? && e.answer.Some? && e.domestic && s.ingress.AwaitingLocal? && s.ingress.query == query
  }

  /** The answer a step decides, if any. */
  function Decision(s: State, e: Event): seq<Emission> {
    match e
    case LocalDone(Some(answer), true) =>
      if s.ingress.AwaitingLocal?
      then [LocalAnswer(s.ingress.query, AnswerPacket(PendingOf(s.ingress.q), answer))] else []
    case Tunneled(Some(dns)) =>
      var t := TxidOf(dns);
      if s.egressHolds.None? && t.Some? && t.value in s.pending
      then [CleanAnswer(s.pending[t.value].query, AnswerPacket(s.pending[t.value].entry, dns))] else []
    case _ => []
  }

  lemma DecisionAppended(s: State, e: Event)
    ensures Step(s, e).answers == s.answers + Decision(s, e)
  {
    hide AnswerPacket, TxidOf, PendingOf;
    assert s.answers + [] == s.answers;
  }

  lemma OneDecision(s: State, e: Event)
    ensures |Decision(s, e)| <= 1
  {
    hide AnswerPacket, TxidOf, PendingOf;
  }

  lemma CleanDecision(s: State, e: Event, query: nat)
    ensures HasClean(Decision(s, e), query) <==> Consuming(s, e, query)
  {
    hide AnswerPacket, TxidOf, PendingOf;
    if Decision(s, e) != [] {
      assert Decision(s, e)[0].query == query <==> Consuming(s, e, query) || Answering(s, e, query);
    }
  }

  lemma LocalDecision(s: State, e: Event, query: nat)
    ensures HasLocal(Decision(s, e), query) <==> Answering(s, e, query)
  {
    hide AnswerPacket, TxidOf, PendingOf;
    if Decision(s, e) != [] {
      assert Decision(s, e)[0].query == query <==> Consuming(s, e, query) || Answering(s, e, query);
    }
  }

  lemma AnswerAppended(es: seq<Emission>, ds: seq<Emission>, query: nat)
    requires |ds| <= 1
    ensures HasClean(es + ds, query) <==> HasClean(es, query) || HasClean(ds, query)
    ensures HasLocal(es + ds, query) <==> HasLocal(es, query) || HasLocal(ds, query)
  {
    assert forall k :: 0 <= k < |es| ==> (es + ds)[k] == es[k];
    assert ds != [] ==> (es + ds)[|es|] == ds[0];
  }

  lemma PrefixesKept(events: seq<Event>, e: Event, i: nat, query: nat)
    requires i < |events|
    ensures ConsumesAt(events + [e], i, query) <==> ConsumesAt(events, i, query)
    ensures AnswersAt(events + [e], i, query) <==> AnswersAt(events, i, query)
  {
    hide Run;
    assert (events + [e])[..i] == events[..i] && (events + [e])[i] == events[i];
  }

  /** A query has a clean answer exactly when some reply consumed its entry, and a local one
      exactly when a domestic local answer to it came. */
  lemma {:induction false} AnswersFromEvents(events: seq<Event>, query: nat)
    ensures HasClean(Run(events).answers, query) <==> exists i: nat :: ConsumesAt(events, i, query)
    ensures HasLocal(Run(events).answers, query) <==> exists j: nat :: AnswersAt(events, j, query)
    decreases |events|
  {
    hide Step, HasClean, HasLocal, Consuming, Answering;
    if events == [] {
      NoneYet(query);
    } else {
      var n := |events| - 1;
      var before, e := events[..n], events[n];
      assert events == before + [e];
      AnswersFromEvents(before, query);
      RunStep(before, e);
      DecisionAppended(Run(before), e);
      OneDecision(Run(before), e);
      CleanDecision(Run(before), e, query);
      LocalDecision(Run(before), e, query);
      AnswerAppended(Run(before).answers, Decision(Run(before), e), query);
      forall i: nat | i < n
        ensures ConsumesAt(events, i, query) <==> ConsumesAt(before, i, query)
        ensures AnswersAt(events, i, query) <==> AnswersAt(before, i, query)
      {
        PrefixesKept(before, e, i, query);
      }
      assert ConsumesAt(events, n, query) <==> Consuming(Run(before), e, query);
      assert AnswersAt(events, n, query) <==> Answering(Run(before), e, query);
    }
  }

  lemma NoneYet(query: nat)
    ensures !HasClean(Run([]).answers, query) && !HasLocal(Run([]).answers, query)
  {
  }

  /** An entry of the query in progress is under its own transaction id, and a query that has
      had its local answer has no entry. */
  ghost predicate Cleared(s: State) {
    && (!s.ingress.Idle? ==> forall t :: t in s.pending && s.pending[t].query == s.ingress.query ==>
          TxidOf(s.ingress.q.dns) == Some(t))
    && (forall t :: t in s.pending ==> NoLocalFor(s.answers, s.pending[t].query))
  }

  /** The clean answer of a query is decided before its local one. */
  ghost predicate CleanFirst(es: seq<Emission>) {
    forall a, b :: 0 <= a < b < |es| && es[a].LocalAnswer? && es[b].CleanAnswer? ==> es[a].query != es[b].query
  }

  lemma ClearedKept(s: State, e: Event)
    requires Numbered(s) && Cleared(s)
    ensures Cleared(Step(s, e))
  {
    hide AnswerPacket, TxidOf, PendingOf;
  }

  lemma CleanFirstKept(s: State, e: Event)
    requires Cleared(s) && CleanFirst(s.answers)
    ensures CleanFirst(Step(s, e).answers)
  {
    hide AnswerPacket, TxidOf, PendingOf;
  }

  lemma {:induction false} RunCleared(events: seq<Event>)
    ensures Cleared(Run(events)) && CleanFirst(Run(events).answers)
  {
    hide Step, Cleared, CleanFirst;
    if events == [] {
      assert Cleared(INITIAL) && CleanFirst(INITIAL.answers) by { NothingCleared(); }
    } else {
      var before, e := events[..|events| - 1], events[|events| - 1];
      RunLast(events);
      RunCleared(before);
      EachQueryAnsweredOnce(before);
      ClearedKept(Run(before), e);
      CleanFirstKept(Run(before), e);
    }
  }

  lemma NothingCleared()
    ensures Cleared(INITIAL) && CleanFirst(INITIAL.answers)
  {
  }

  /** Emissions are never taken back. */
  lemma {:induction false} EmissionsKept(events: seq<Event>, i: nat, query: nat)
    requires i <= |events| && HasLocal(Run(events[..i]).answers, query)
    ensures HasLocal(Run(events).answers, query)
    decreases |events|
  {
    hide Step, HasLocal;
    if i < |events| {
      var before := events[..|events| - 1];
      assert before[..i] == events[..i];
      RunLast(events);
      EmissionsKept(before, i, query);
      DecisionAppended(Run(before), events[|events| - 1]);
      OneDecision(Run(before), events[|events| - 1]);
      CleanDecision(Run(before), events[|events| - 1], query);
      LocalDecision(Run(before), events[|events| - 1], query);
      AnswerAppended(Run(before).answers, Decision(Run(before), events[|events| - 1]), query);
    } else {
      assert events[..i] == events;
    }
  }

  /** No reply consumes the entry of a query after its local answer. */
  lemma {:induction false} NoCleanAfterLocal(events: seq<Event>, i: nat, j: nat, query: nat)
    requires ConsumesAt(events, i, query) && AnswersAt(events, j, query)
    ensures i < j
  {
    hide Step, Run, NoLocalFor;
    if j < i {
      assert events[..j + 1] == events[..j] + [events[j]];
      RunStep(events[..j], events[j]);
      DecisionAppended(Run(events[..j]), events[j]);
      OneDecision(Run(events[..j]), events[j]);
      CleanDecision(Run(events[..j]), events[j], query);
      LocalDecision(Run(events[..j]), events[j], query);
      AnswerAppended(Run(events[..j]).answers, Decision(Run(events[..j]), events[j]), query);
      assert events[..i][..j + 1] == events[..j + 1];
      EmissionsKept(events[..i], j + 1, query);
      RunCleared(events[..i]);
      assert false;
    }
  }

  /** Over all runs: two answers to one query are decided, and so sent, exactly when a reply
      consumes the entry of the query before its domestic local answer; the clean one is then
      decided first. */
  lemma {:induction false} BothAnswersIff(events: seq<Event>, query: nat)
    ensures HasClean(Run(events).answers, query) && HasLocal(Run(events).answers, query)
            <==> exists i: nat, j: nat :: i < j && ConsumesAt(events, i, query) && AnswersAt(events, j, query)
    ensures CleanFirst(Run(events).answers)
  {
    hide Run, HasClean, HasLocal, ConsumesAt, AnswersAt, CleanFirst;
    RunCleared(events);
    AnswersFromEvents(events, query);
    if (exists i: nat :: ConsumesAt(events, i, query)) && (exists j: nat :: AnswersAt(events, j, query)) {
      var i: nat :| ConsumesAt(events, i, query);
      var j: nat :| AnswersAt(events, j, query);
      NoCleanAfterLocal(events, i, j, query);
    }
  }

  // ---------------------------------------------------------------------
  // What resolver replies do.
  // ---------------------------------------------------------------------

  /** The recognizer of a deployment: as written, or keyed on the source as intended. */
  function Recognized(intended: bool, remote: Ip4, pkt: seq<byte>): Option<seq<byte>> {
    if intended then ReplyIntended(remote, pkt) else ReplyAsWritten(remote, pkt)
  }

  /** The tunneled packet of the event is a reply of the resolver to an ordinary client port. */
  ghost predicate ClientReply(intended: bool, remote: Ip4, e: Event) {
    e.Tunneled? ==> exists client: Ip4, port: u16, dns: seq<byte> ::
      && port != DNS_PORT && |dns| <= MAX_PAYLOAD
      && e.reply == Recognized(intended, remote, Packet(remote, DNS_PORT, client, port, dns))
  }

  ghost predicate ClientReplies(intended: bool, remote: Ip4, events: seq<Event>) {
    forall i :: 0 <= i < |events| ==> ClientReply(intended, remote, events[i])
  }

  lemma ReplyIgnored(remote: Ip4, e: Event)
    requires e.Tunneled? && ClientReply(false, remote, e)
    ensures e.reply.None?
  {
    hide Packet, ReplyAsWritten, ReplyIntended;
    var client: Ip4, port: u16, dns: seq<byte> :|
      port != DNS_PORT && |dns| <= MAX_PAYLOAD
      && e.reply == Recognized(false, remote, Packet(remote, DNS_PORT, client, port, dns));
    RepliesRecognized(remote, client, port, dns);
  }

  /** As written, no run in which the tunnel carries resolver replies to ordinary client ports
      ever consumes an entry: no client gets a clean answer. */
  lemma {:induction false} AsWrittenNeverConsumes(remote: Ip4, events: seq<Event>, query: nat)
    requires ClientReplies(false, remote, events)
    ensures !HasClean(Run(events).answers, query)
  {
    hide Run, HasClean, ClientReply;
    AnswersFromEvents(events, query);
    if i: nat :| ConsumesAt(events, i, query) {
      ReplyIgnored(remote, events[i]);
      assert false;
    }
  }

  /** A packet the recognizer as written does take: one addressed to the resolver, such as a
      query that comes back. */
  lemma {:induction false} EchoRecognized(remote: Ip4, src: Ip4, sport: u16, dns: seq<byte>)
    requires 2 <= |dns| <= MAX_PAYLOAD
    ensures ReplyAsWritten(remote, Packet(src, sport, remote, DNS_PORT, dns)) == Some(dns)
  {
    hide Packet, ParseUdpDnsQuery;
    ParseBuilt(src, sport, remote, DNS_PORT, dns);
    assert dns[..|dns|] == dns;
  }

  const CLIENT: Ip4 := [10, 9, 0, 2]
  const CLIENT_PORT: u16 := 50000
  const SOME_DNS: seq<byte> := [0, 1]
  const SOME_QUERY: Query := Query(CLIENT, CLIENT_PORT, CLIENT, DNS_PORT, SOME_DNS)

  /** The clean reply comes while the local answer is still awaited. */
  function TwoAnswers(reply: Option<seq<byte>>): seq<Event> {
    [Intercept(SOME_QUERY), EncryptDone(true), Tunneled(reply), LocalDone(Some(SOME_DNS), true)]
  }

  lemma {:induction false} TwoAnswersHeld()
    ensures var s := Run(TwoAnswers(Some(SOME_DNS)));
            && |s.answers| == 2 && s.answers[0].CleanAnswer? && s.answers[1].LocalAnswer?
            && s.answers[0].query == 0 == s.answers[1].query && s.sent == []
            && s.egressHolds == Some(s.answers[0]) && s.ingressHolds == Some(s.answers[1])
  {
    hide AnswerPacket, PendingOf;
    var es := TwoAnswers(Some(SOME_DNS));
    assert es[..0] == [] && es[..1] == es[..0] + [es[0]] && es[..2] == es[..1] + [es[1]];
    assert es[..3] == es[..2] + [es[2]] && es == es[..3] + [es[3]];
    RunStep(es[..0], es[0]);
    RunStep(es[..1], es[1]);
    RunStep(es[..2], es[2]);
    RunStep(es[..3], es[3]);
  }

  lemma {:induction false} BothAnswersRun()
    ensures HasClean(Run(TwoAnswers(Some(SOME_DNS))).answers, 0) && HasLocal(Run(TwoAnswers(Some(SOME_DNS))).answers, 0)
  {
    hide Run;
    TwoAnswersHeld();
  }

  /** The order of sending may still be the other one: the local answer overtakes a clean answer
      that was decided first. */
  lemma {:induction false} LocalSentFirst()
    ensures var s := Run(TwoAnswers(Some(SOME_DNS)) + [EmitLocal] + [EmitClean]);
            |s.sent| == 2 && s.sent[0].LocalAnswer? && s.sent[1].CleanAnswer? && s.sent[0].query == s.sent[1].query
  {
    hide AnswerPacket, PendingOf;
    var es := TwoAnswers(Some(SOME_DNS));
    TwoAnswersHeld();
    RunStep(es, EmitLocal);
    RunStep(es + [EmitLocal], EmitClean);
  }

  /** When the tunnel carries only resolver replies to ordinary client ports, a client can get two
      answers exactly in the deployment whose recognizer is keyed on the source. */
  lemma {:induction false} BothAnswersByRecognizer(intended: bool, remote: Ip4)
    ensures (exists events: seq<Event>, query: nat ::
              && ClientReplies(intended, remote, events)
              && HasClean(Run(events).answers, query) && HasLocal(Run(events).answers, query))
            <==> intended
  {
    hide Run, HasClean, HasLocal;
    if intended {
      BothAnswersRun();
      IntendedRecognized(remote, CLIENT, CLIENT_PORT, SOME_DNS);
      var es := TwoAnswers(Some(SOME_DNS));
      assert es[2].reply == Recognized(true, remote, Packet(remote, DNS_PORT, CLIENT, CLIENT_PORT, SOME_DNS));
      assert ClientReplies(true, remote, es);
    } else {
      forall events: seq<Event>, query: nat | ClientReplies(false, remote, events)
        ensures !HasClean(Run(events).answers, query)
      {
        AsWrittenNeverConsumes(remote, events, query);
      }
    }
  }

  // ---------------------------------------------------------------------
  // Whose answers, and to whom.
  // ---------------------------------------------------------------------

  /** Event `i` takes up query `n`, which is `q`. */
  ghost predicate AskedAt(events: seq<Event>, i: nat, n: nat, q: Query) {
    && i < |events| && events[i] == Intercept(q)
    && Run(events[..i]).queries == n && Run(events[..i + 1]).queries == n + 1
  }

  /** Event `j` brings the message `dns` that the answer carries. */
  ghost predicate BroughtBy(events: seq<Event>, j: nat, a: Emission, dns: seq<byte>) {
    j < |events| && events[j] == if a.LocalAnswer? then LocalDone(Some(dns), true) else Tunneled(Some(dns))
  }

  /** No query with that transaction id is taken up after event `i`. */
  ghost predicate LastFor(events: seq<Event>, i: nat, t: u16) {
    forall j: nat, n: nat, q: Query :: i < j && AskedAt(events, j, n, q) ==> TxidOf(q.dns) != Some(t)
  }

  /** The entry is of the last query with its transaction id. */
  ghost predicate EntryAt(events: seq<Event>, i: nat, q: Query, t: u16, tagged: Tagged) {
    && AskedAt(events, i, tagged.query, q) && LastFor(events, i, t)
    && tagged.entry == PendingOf(q) && TxidOf(q.dns) == Some(t)
  }

  ghost predicate EntryAsked(events: seq<Event>, t: u16, tagged: Tagged) {
    exists i: nat, q: Query :: EntryAt(events, i, q, t, tagged)
  }

  ghost predicate IngressAsked(events: seq<Event>, s: State) {
    !s.ingress.Idle? ==> exists i: nat :: AskedAt(events, i, s.ingress.query, s.ingress.q)
  }

  ghost predicate AllAsked(events: seq<Event>) {
    && IngressAsked(events, Run(events))
    && forall t :: t in Run(events).pending ==> EntryAsked(events, t, Run(events).pending[t])
  }

  lemma AskedBefore(events: seq<Event>, e: Event, i: nat, n: nat, q: Query)
    requires i < |events|
    ensures AskedAt(events + [e], i, n, q) <==> AskedAt(events, i, n, q)
  {
    hide Run;
    assert (events + [e])[..i] == events[..i] && (events + [e])[..i + 1] == events[..i + 1];
  }

  lemma AskedNow(events: seq<Event>, e: Event, n: nat, q: Query)
    ensures AskedAt(events + [e], |events|, n, q) <==>
              e == Intercept(q) && Run(events).queries == n && Step(Run(events), e).queries == n + 1
  {
    hide Run, Step;
    RunStep(events, e);
    assert (events + [e])[..|events|] == events && (events + [e])[..|events| + 1] == events + [e];
  }

  /** A step takes up a query, which enters its own id, or leaves the entries it keeps alone. */
  lemma StepTakesUp(s: State, e: Event)
    ensures var n := Step(s, e);
            && (n.queries == s.queries || (n.queries == s.queries + 1 && e.Intercept?))
            && (n.queries == s.queries ==>
                  && (forall t :: t in n.pending ==> t in s.pending && n.pending[t] == s.pending[t])
                  && (!n.ingress.Idle? ==>
                        !s.ingress.Idle? && n.ingress.query == s.ingress.query && n.ingress.q == s.ingress.q))
            && (n.queries == s.queries + 1 ==>
                  && !n.ingress.Idle? && n.ingress.query == s.queries && n.ingress.q == e.q
                  && forall t :: t in n.pending ==>
                       if TxidOf(e.q.dns) == Some(t) then n.pending[t] == Tagged(PendingOf(e.q), s.queries)
                       else t in s.pending && n.pending[t] == s.pending[t])
  {
    hide AnswerPacket, PendingOf, TxidOf;
  }

  /** The last query with an id stays the last if the next event takes up none with it. */
  lemma EntryKept(events: seq<Event>, e: Event, t: u16, tagged: Tagged)
    requires EntryAsked(events, t, tagged)
    requires Step(Run(events), e).queries == Run(events).queries || (e.Intercept? && TxidOf(e.q.dns) != Some(t))
    ensures EntryAsked(events + [e], t, tagged)
  {
    hide Run, Step, AskedAt, TxidOf, PendingOf;
    var i: nat, q: Query :| EntryAt(events, i, q, t, tagged);
    AskedInside(events, i, tagged.query, q);
    AskedBefore(events, e, i, tagged.query, q);
    forall j: nat, n: nat, r: Query | i < j && AskedAt(events + [e], j, n, r)
      ensures TxidOf(r.dns) != Some(t)
    {
      AskedInside(events + [e], j, n, r);
      if j < |events| { AskedBefore(events, e, j, n, r); } else { AskedNow(events, e, n, r); }
    }
    assert EntryAt(events + [e], i, q, t, tagged);
  }

  lemma AskedInside(events: seq<Event>, i: nat, n: nat, q: Query)
    requires AskedAt(events, i, n, q)
    ensures i < |events|
  {
  }

  lemma EntryMade(events: seq<Event>, e: Event, t: u16)
    requires e.Intercept? && Step(Run(events), e).queries == Run(events).queries + 1 && TxidOf(e.q.dns) == Some(t)
    ensures EntryAsked(events + [e], t, Tagged(PendingOf(e.q), Run(events).queries))
  {
    hide Run, Step, TxidOf, PendingOf;
    AskedNow(events, e, Run(events).queries, e.q);
    assert EntryAt(events + [e], |events|, e.q, t, Tagged(PendingOf(e.q), Run(events).queries));
  }

  lemma IngressKept(events: seq<Event>, e: Event)
    requires IngressAsked(events, Run(events))
    ensures IngressAsked(events + [e], Step(Run(events), e))
  {
    var s := Run(events);
    StepTakesUp(s, e);
    hide Run, Step, TxidOf, PendingOf, AskedAt;
    if Step(s, e).queries == s.queries {
      if !Step(s, e).ingress.Idle? {
        var i: nat :| AskedAt(events, i, s.ingress.query, s.ingress.q);
        AskedInside(events, i, s.ingress.query, s.ingress.q);
        AskedBefore(events, e, i, s.ingress.query, s.ingress.q);
      }
    } else {
      AskedNow(events, e, s.queries, e.q);
    }
  }

  lemma {:induction false} EverythingAsked(events: seq<Event>)
    ensures AllAsked(events)
    decreases |events|
  {
    hide Step, TxidOf, PendingOf, EntryAsked, IngressAsked;
    if events == [] {
      NothingAsked();
    } else {
      var before, e := events[..|events| - 1], events[|events| - 1];
      assert events == before + [e];
      EverythingAsked(before);
      RunStep(before, e);
      StepTakesUp(Run(before), e);
      IngressKept(before, e);
      hide Run;
      forall t | t in Run(events).pending
        ensures EntryAsked(events, t, Run(events).pending[t])
      {
        if Run(events).queries == Run(before).queries || TxidOf(e.q.dns) != Some(t) {
          EntryKept(before, e, t, Run(before).pending[t]);
        } else {
          EntryMade(before, e, t);
        }
      }
    }
  }

  lemma NothingAsked()
    ensures IngressAsked([], Run([])) && Run([]).pending == map[]
  {
  }

  /** The answer is to a query taken up before, carries the message an event brought since, and is
      addressed from where that query was sent to where it came from. A clean one has its id. */
  ghost predicate Addressed(events: seq<Event>, a: Emission, i: nat, j: nat, q: Query, dns: seq<byte>) {
    && i < j && AskedAt(events, i, a.query, q) && BroughtBy(events, j, a, dns)
    && AnswersQuery(a.packet, q, dns)
    && (a.CleanAnswer? ==> |dns| >= 2 && |q.dns| >= 2 && dns[..2] == q.dns[..2])
  }

  ghost predicate SomeAddress(events: seq<Event>, a: Emission) {
    exists i: nat, j: nat, q: Query, dns: seq<byte> :: Addressed(events, a, i, j, q, dns)
  }

  lemma AddressKept(events: seq<Event>, e: Event, a: Emission)
    requires SomeAddress(events, a)
    ensures SomeAddress(events + [e], a)
  {
    hide AskedAt, AnswersQuery;
    var i: nat, j: nat, q: Query, dns: seq<byte> :| Addressed(events, a, i, j, q, dns);
    AskedInside(events, i, a.query, q);
    AskedBefore(events, e, i, a.query, q);
    assert Addressed(events + [e], a, i, j, q, dns);
  }

  lemma DecidedAddress(events: seq<Event>, e: Event)
    requires AllAsked(events) && Decision(Run(events), e) != []
    ensures SomeAddress(events + [e], Decision(Run(events), e)[0])
  {
    var s := Run(events);
    var a := Decision(s, e)[0];
    hide Run, AskedAt, AnswersQuery, AnswerPacket, PendingOf, TxidOf, LastFor;
    if e.LocalDone? {
      var dns := e.answer.value;
      var i: nat :| AskedAt(events, i, s.ingress.query, s.ingress.q);
      QueryIsAnswered(s.ingress.q, dns);
      AddressNow(events, e, a, i, s.ingress.q, dns);
    } else {
      var dns := e.reply.value;
      var t := TxidOf(dns).value;
      assert EntryAsked(events, t, s.pending[t]);
      var i: nat, q: Query :| EntryAt(events, i, q, t, s.pending[t]);
      QueryIsAnswered(q, dns);
      TxidIsTwoBytes(dns, q.dns);
      TxidIsTwoBytes(q.dns, dns);
      AddressNow(events, e, a, i, q, dns);
    }
  }

  lemma AddressNow(events: seq<Event>, e: Event, a: Emission, i: nat, q: Query, dns: seq<byte>)
    requires AskedAt(events, i, a.query, q) && AnswersQuery(a.packet, q, dns)
    requires e == if a.LocalAnswer? then LocalDone(Some(dns), true) else Tunneled(Some(dns))
    requires a.CleanAnswer? ==> |dns| >= 2 && |q.dns| >= 2 && dns[..2] == q.dns[..2]
    ensures SomeAddress(events + [e], a)
  {
    hide AskedAt, AnswersQuery;
    AskedInside(events, i, a.query, q);
    AskedBefore(events, e, i, a.query, q);
    assert Addressed(events + [e], a, i, |events|, q, dns);
  }

  /** In every interleaving every answer, local or clean, is addressed from where its own query was
      sent to where that query came from, and carries the message that decided it. */
  lemma {:induction false} AnswersAddressed(events: seq<Event>, k: nat)
    requires k < |Run(events).answers|
    ensures SomeAddress(events, Run(events).answers[k])
    decreases |events|
  {
    hide Step, Decision, SomeAddress, AllAsked;
    if events == [] {
      NoAnswers();
    } else {
      var before, e := events[..|events| - 1], events[|events| - 1];
      assert events == before + [e];
      RunStep(before, e);
      DecisionAppended(Run(before), e);
      OneDecision(Run(before), e);
      hide Run;
      if k < |Run(before).answers| {
        AnswersAddressed(before, k);
        AddressKept(before, e, Run(before).answers[k]);
      } else {
        EverythingAsked(before);
        DecidedAddress(before, e);
      }
    }
  }

  lemma NoAnswers()
    ensures Run([]).answers == []
  {
  }

  /** The answer of a consumed reply, for the query taken up last with the two bytes it begins with. */
  ghost predicate ToLatest(events: seq<Event>, i: nat, q: Query, a: Emission, dns: seq<byte>) {
    && AskedAt(events, i, a.query, q) && |dns| >= 2 && |q.dns| >= 2 && q.dns[..2] == dns[..2]
    && (forall j: nat, n: nat, r: Query ::
          i < j && AskedAt(events, j, n, r) && |r.dns| >= 2 ==> r.dns[..2] != dns[..2])
    && a.CleanAnswer? && AnswersQuery(a.packet, q, dns)
  }

  /** A reply is consumed in favour of the query taken up last with its transaction id, and the one
      packet sent is addressed from where that query was sent to where it came from. */
  lemma {:induction false} ReplyToLatestQuery(events: seq<Event>, dns: seq<byte>)
    requires TxidOf(dns).Some? && TxidOf(dns).value in Run(events).pending && Run(events).egressHolds.None?
    ensures |dns| >= 2 && exists i: nat, q: Query, a: Emission ::
              && ToLatest(events, i, q, a, dns)
              && Run(events + [Tunneled(Some(dns))] + [EmitClean]).sent == Run(events).sent + [a]
  {
    hide AnswerPacket, PendingOf, TxidOf, AskedAt, AnswersQuery, Run, Latest;
    TxidIsTwoBytes(dns, dns);
    var s, t := Run(events), TxidOf(dns).value;
    EverythingAsked(events);
    RunStep(events, Tunneled(Some(dns)));
    RunStep(events + [Tunneled(Some(dns))], EmitClean);
    assert EntryAsked(events, t, s.pending[t]);
    var i: nat, q: Query :| EntryAt(events, i, q, t, s.pending[t]);
    QueryIsAnswered(q, dns);
    forall r: Query
      ensures TxidOf(r.dns).Some? <==> |r.dns| >= 2
      ensures |r.dns| >= 2 ==> (TxidOf(r.dns) == TxidOf(dns) <==> r.dns[..2] == dns[..2])
    {
      TxidIsTwoBytes(r.dns, dns);
    }
    var a := CleanAnswer(s.pending[t].query, AnswerPacket(s.pending[t].entry, dns));
    assert ToLatest(events, i, q, a, dns);
  }

  // ---------------------------------------------------------------------
  // The interceptor object.
  // ---------------------------------------------------------------------

  /** The object's own map, without the history. */
  function Untag(m: map<u16, Tagged>): map<u16, Pending> {
    map t | t in m :: m[t].entry
  }

  lemma UntagStore(m: map<u16, Tagged>, t: u16, p: Tagged)
    ensures Untag(m[t := p]) == Untag(m)[t := p.entry]
    ensures Untag(m - {t}) == Untag(m) - {t}
    ensures t !in m ==> m - {t} == m
  {
  }

  /** The pending map, with each call run as a whole. `history` is the run of steps the calls
      amount to, so that what is proved of all runs holds of the object. */
  class DnsInterceptor {
    const dnsRemote: Ip4
    const dnsRemotePort: u16
    var pending: map<u16, Pending>
    ghost var history: seq<Event>

    ghost predicate Valid()
      reads this
    {
      && pending == Untag(Run(history).pending)
      && Run(history).egressHolds.None? && Run(history).ingressHolds.None?
    }

    /** The ingress task is between two queries. */
    ghost predicate Ready()
      reads this
    {
      Valid() && Run(history).ingress.Idle?
    }

    constructor (dnsRemote: Ip4, dnsRemotePort: u16)
      ensures this.dnsRemote == dnsRemote && this.dnsRemotePort == dnsRemotePort
      ensures Ready() && pending == map[] && history == []
    {
      this.dnsRemote := dnsRemote;
      this.dnsRemotePort := dnsRemotePort;
      pending := map[];
      history := [];
    }

    /** `clear_pending`, also the removal after a failed encryption. */
    method ClearPending(dns: seq<byte>)
      modifies this`pending
      ensures pending == match TxidOf(dns)
                         case None => old(pending)
                         case Some(t) => old(pending) - {t}
    {
      match TxidOf(dns) {
        case None =>
        case Some(t) => pending := pending - {t};
      }
    }

    /** `send_clean_tunneled`: register the client, build the packet to the resolver, and take the
        entry out again if it does not encrypt. */
    method SendCleanTunneled(q: Query, encrypts: bool) returns (sent: Option<seq<byte>>)
      requires Ready()
      modifies this
      ensures Valid() && history == old(history) + [Intercept(q)] + [EncryptDone(encrypts)]
      ensures Run(history).ingress == AwaitingLocal(Run(old(history)).queries, q)
      ensures sent == if TxidOf(q.dns).None? || !encrypts then None
                      else Some(Packet(q.clientIp, q.clientPort, dnsRemote, dnsRemotePort, q.dns))
      ensures sent.Some? ==> IsDatagram(sent.value, q.clientIp, q.clientPort, dnsRemote, dnsRemotePort, q.dns)
      ensures pending == match TxidOf(q.dns)
                         case None => old(pending)
                         case Some(t) => if encrypts then old(pending)[t := PendingOf(q)] else old(pending) - {t}
    {
      hide Run, Packet, TxidOf, PendingOf, Untag, IsDatagram;
      ghost var before := Run(history);
      RunStep(history, Intercept(q));
      RunStep(history + [Intercept(q)], EncryptDone(encrypts));
      history := history + [Intercept(q)] + [EncryptDone(encrypts)];
      var txid := TxidOf(q.dns);
      if txid.None? { return None; }
      ghost var tagged := Tagged(PendingOf(q), before.queries);
      UntagStore(before.pending, txid.value, tagged);
      UntagStore(before.pending[txid.value := tagged], txid.value, tagged);
      pending := pending[txid.value := PendingOf(q)];
      var pkt := BuildUdpIpv4(q.clientIp, q.clientPort, dnsRemote, dnsRemotePort, q.dns);
      if !encrypts {
        pending := pending - {txid.value};
        return None;
      }
      BuiltDatagram(q.clientIp, q.clientPort, dnsRemote, dnsRemotePort, q.dns);
      sent := Some(pkt[..]);
    }

    /** The rest of `try_intercept` for an A query: the answer of the local server, if any, and
        whether it is domestic. */
    method FinishQuery(q: Query, answer: Option<seq<byte>>, domestic: bool) returns (emitted: Option<seq<byte>>)
      requires Valid() && Run(history).ingress.AwaitingLocal? && Run(history).ingress.q == q
      modifies this
      ensures Ready() && history == old(history) + [LocalDone(answer, domestic)] + [EmitLocal]
      ensures emitted == if answer.None? || !domestic then None else Some(AnswerPacket(PendingOf(q), answer.value))
      ensures emitted.Some? <==> answer.Some? && domestic
      ensures emitted.Some? ==> AnswersQuery(emitted.value, q, answer.value)
      ensures pending ==
              if emitted.None? || TxidOf(q.dns).None? then old(pending) else old(pending) - {TxidOf(q.dns).value}
    {
      hide Run, AnswerPacket, TxidOf, PendingOf, Untag, AnswersQuery;
      ghost var before := Run(history);
      RunStep(history, LocalDone(answer, domestic));
      RunStep(history + [LocalDone(answer, domestic)], EmitLocal);
      history := history + [LocalDone(answer, domestic)] + [EmitLocal];
      if answer.None? || !domestic { return None; }
      if TxidOf(q.dns).Some? {
        ghost var t := TxidOf(q.dns).value;
        UntagStore(before.pending, t, Tagged(PendingOf(q), 0));
      }
      ClearPending(q.dns);
      var p := PendingOf(q);
      emitted := EmitAnswer(p, answer.value);
      QueryIsAnswered(q, answer.value);
    }

    method EmitAnswer(p: Pending, dns: seq<byte>) returns (packet: Option<seq<byte>>)
      ensures packet == Some(AnswerPacket(p, dns))
    {
      hide Packet;
      var resp := BuildUdpIpv4(p.serverIp, p.serverPort, p.clientIp, p.clientPort, dns);
      packet := Some(resp[..]);
    }

    /** `try_handle_tunneled_reply`: the packet emitted when the reply is consumed. */
    method TryHandleTunneledReply(plaintext: seq<byte>) returns (emitted: Option<seq<byte>>)
      requires Valid()
      modifies this
      ensures Valid() && history == old(history) + [Tunneled(ReplyAsWritten(dnsRemote, plaintext))] + [EmitClean]
      ensures match ReplyAsWritten(dnsRemote, plaintext)
              case None => emitted.None? && pending == old(pending)
              case Some(dns) =>
                var t := TxidOf(dns).value;
                if t in old(pending)
                then pending == old(pending) - {t} && emitted == Some(AnswerPacket(old(pending)[t], dns))
                     && var p := old(pending)[t];
                        IsDatagram(emitted.value, p.serverIp, p.serverPort, p.clientIp, p.clientPort, dns)
                else emitted.None? && pending == old(pending)
    {
      hide Run, Packet, ParseUdpDnsQuery, AnswerPacket, IsDatagram;
      ghost var before := Run(history);
      RunStep(history, Tunneled(ReplyAsWritten(dnsRemote, plaintext)));
      RunStep(history + [Tunneled(ReplyAsWritten(dnsRemote, plaintext))], EmitClean);
      history := history + [Tunneled(ReplyAsWritten(dnsRemote, plaintext))] + [EmitClean];
      var parsed := ParseUdpDnsQuery(plaintext);
      if parsed.None? {
        return None;
      }
      var q := parsed.value;
      if q.serverPort != DNS_PORT || q.serverIp != dnsRemote {
        return None;
      }
      var txid := TxidOf(q.dns);
      if txid.None? || txid.value !in pending {
        return None;
      }
      UntagStore(before.pending, txid.value, before.pending[txid.value]);
      var p := pending[txid.value];
      pending := pending - {txid.value};
      emitted := EmitAnswer(p, q.dns);
      AnswerIsAddressed(p, q.dns);
    }
  }
}
