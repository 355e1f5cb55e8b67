/** The socket for domestic queries: one for all queries of an interceptor, read without looking at
    who a datagram answers. When an answer belongs to the query it is taken for. */
module DirectSocket {
  import opened Runs

  /** `givesUp`: a query may end without a datagram, at its timeout or on an error. `repeats`: the
      network may deliver a reply more than once. In the code as written both may happen. */
  datatype Config = Config(givesUp: bool, repeats: bool)

  /** A datagram taken as the answer to a query. Both are named by the number of the query. */
  datatype Taken = Taken(query: nat, reply: nat)

  /** Queries follow one another; the one waiting is the last one asked. `outstanding` are the
      queries whose reply may still arrive, and `inbox` the replies that have. */
  datatype State = State(asked: nat, waiting: bool, outstanding: set<nat>, inbox: seq<nat>, taken: seq<Taken>)

  datatype Event = Ask(ok: bool) | Arrive(k: nat) | Receive | GiveUp

  const INITIAL: State := State(0, false, {}, [], [])

  /** The send may fail, and then the query ends. */
  function AskNext(s: State, ok: bool): State {
    if s.waiting then s
    else if !ok then s.(asked := s.asked + 1)
    else s.(asked := s.asked + 1, waiting := true, outstanding := s.outstanding + {s.asked})
  }

  function ArriveReply(cfg: Config, s: State, k: nat): State {
    if k !in s.outstanding then s
    else s.(inbox := s.inbox + [k], outstanding := if cfg.repeats then s.outstanding else s.outstanding - {k})
  }

  function ReceiveReply(s: State): State {
    if !s.waiting || s.inbox == [] || s.asked == 0 then s
    else s.(waiting := false, inbox := s.inbox[1..], taken := s.taken + [Taken(s.asked - 1, s.inbox[0])])
  }

  /** One atomic step; an event that is not enabled changes nothing. */
  function Step(cfg: Config, s: State, e: Event): State {
    match e
    case Ask(ok) => AskNext(s, ok)
    case Arrive(k) => ArriveReply(cfg, s, k)
    case Receive => ReceiveReply(s)
    case GiveUp => if cfg.givesUp then s.(waiting := false) else s
  }

  function Stepper(cfg: Config): (State, Event) -> State {
    (s, e) => Step(cfg, s, e)
  }

  function RunFrom(cfg: Config, s: State, events: seq<Event>): State {
    Fold(Stepper(cfg), s, events)
  }

  function Run(cfg: Config, events: seq<Event>): State {
    RunFrom(cfg, INITIAL, events)
  }

  /** Every answer taken is the query's own. */
  ghost predicate Own(s: State) {
    forall a: nat :: a < |s.taken| ==> s.taken[a].reply == s.taken[a].query
  }

  /** Those taken for query `n` are. */
  ghost predicate OwnOf(s: State, n: nat) {
    forall a: nat :: a < |s.taken| && s.taken[a].query == n ==> s.taken[a].reply == n
  }

  /** Replies are to queries asked, and answers of queries asked. */
  ghost predicate Inv(s: State) {
    && (forall k: nat :: k in s.outstanding || k in s.inbox ==> k < s.asked)
    && (forall a: nat :: a < |s.taken| ==> s.taken[a].query < s.asked)
  }

  lemma StepInv(cfg: Config, s: State, e: Event)
    requires Inv(s)
    ensures Inv(Step(cfg, s, e))
  {
  }

  lemma {:induction false} RunInv(cfg: Config, s: State, events: seq<Event>)
    requires Inv(s)
    ensures Inv(RunFrom(cfg, s, events))
    decreases |events|
  {
    hide Inv, Step;
    if events != [] {
      StepInv(cfg, s, events[0]);
      RunInv(cfg, Step(cfg, s, events[0]), events[1..]);
    }
  }

  // ---------------------------------------------------------------------
  // One query.
  // ---------------------------------------------------------------------

  /** Nothing but the reply to query `n` can be taken for it. */
  ghost predicate Fresh(s: State, n: nat) {
    && s.asked > n && OwnOf(s, n)
    && (s.asked == n + 1 && s.waiting ==> forall k: nat :: k in s.outstanding || k in s.inbox ==> k == n)
  }

  lemma FreshKept(cfg: Config, s: State, e: Event, n: nat)
    requires Fresh(s, n)
    ensures Fresh(Step(cfg, s, e), n)
  {
    assert s.inbox != [] ==> s.inbox[0] in s.inbox;
  }

  lemma {:induction false} RunFresh(cfg: Config, s: State, more: seq<Event>, n: nat)
    requires Fresh(s, n)
    ensures Fresh(RunFrom(cfg, s, more), n)
    decreases |more|
  {
    hide Fresh, Step;
    if more != [] {
      FreshKept(cfg, s, more[0], n);
      RunFresh(cfg, Step(cfg, s, more[0]), more[1..], n);
    }
  }

  lemma Steps(cfg: Config, s: State, a: Event, b: Event)
    ensures RunFrom(cfg, s, [a]) == Step(cfg, s, a)
    ensures RunFrom(cfg, s, [a, b]) == Step(cfg, Step(cfg, s, a), b)
  {
    FoldSnoc(Stepper(cfg), s, [], a);
    FoldSnoc(Stepper(cfg), s, [a], b);
    assert [] + [a] == [a] && [a] + [b] == [a, b];
  }

  lemma StaleTaken(cfg: Config, s: State, n: nat)
    requires s.waiting && s.asked == n + 1 && s.inbox != [] && s.inbox[0] != n
    ensures !OwnOf(Step(cfg, s, Receive), n)
  {
    var end := Step(cfg, s, Receive);
    assert end.taken[|s.taken|] == Taken(n, s.inbox[0]);
  }

  /** A query that is sent gets its own answer or none, whatever happens next, exactly when no reply
      to an earlier query is in the inbox or may still arrive. */
  lemma {:induction false} QueryOwnIff(cfg: Config, events: seq<Event>)
    requires !Run(cfg, events).waiting
    ensures var s := Run(cfg, events);
            (forall more: seq<Event> :: OwnOf(RunFrom(cfg, Step(cfg, s, Ask(true)), more), s.asked))
            <==> s.inbox == [] && s.outstanding == {}
  {
    var s := Run(cfg, events);
    var n, up := s.asked, Step(cfg, s, Ask(true));
    assert Inv(INITIAL);
    RunInv(cfg, INITIAL, events);
    hide Fold;
    if s.inbox == [] && s.outstanding == {} {
      forall more: seq<Event>
        ensures OwnOf(RunFrom(cfg, up, more), n)
      {
        RunFresh(cfg, up, more, n);
      }
    } else if s.inbox != [] {
      assert s.inbox[0] in s.inbox;
      Steps(cfg, up, Receive, Receive);
      StaleTaken(cfg, up, n);
    } else {
      var k :| k in s.outstanding;
      Steps(cfg, up, Arrive(k), Receive);
      StaleTaken(cfg, Step(cfg, up, Arrive(k)), n);
    }
  }

  // ---------------------------------------------------------------------
  // All queries.
  // ---------------------------------------------------------------------

  /** Without giving up or repeats there is nothing about between queries. */
  ghost predicate Orderly(s: State) {
    && Own(s)
    && (!s.waiting ==> s.inbox == [] && s.outstanding == {})
    && (forall k: nat :: k in s.outstanding || k in s.inbox ==> k + 1 == s.asked)
    && (s.inbox != [] ==> s.outstanding == {} && |s.inbox| == 1)
  }

  lemma OrderlyKept(cfg: Config, s: State, e: Event)
    requires !cfg.givesUp && !cfg.repeats && Orderly(s)
    ensures Orderly(Step(cfg, s, e))
  {
    if e.Receive? && s.inbox != [] {
      assert s.inbox[0] in s.inbox;
    }
    if e.Arrive? && e.k in s.outstanding {
      assert forall k: nat :: k in s.outstanding ==> k == e.k;
    }
  }

  lemma {:induction false} RunOrderly(cfg: Config, s: State, events: seq<Event>)
    requires !cfg.givesUp && !cfg.repeats && Orderly(s)
    ensures Orderly(RunFrom(cfg, s, events))
    decreases |events|
  {
    hide Orderly, Step;
    if events != [] {
      OrderlyKept(cfg, s, events[0]);
      RunOrderly(cfg, Step(cfg, s, events[0]), events[1..]);
    }
  }

  /** A query is given up and its reply arrives during the next; or a reply arrives twice. */
  const GIVEN_UP: seq<Event> := [Ask(true), GiveUp, Ask(true), Arrive(0)]
  const REPEATED: seq<Event> := [Ask(true), Arrive(0), Arrive(0), Receive]

  lemma LateReplyTaken(cfg: Config)
    requires cfg.givesUp
    ensures !Own(Run(cfg, GIVEN_UP + [Receive]))
  {
    FoldSnoc(Stepper(cfg), INITIAL, GIVEN_UP, Receive);
    Fold4(Stepper(cfg), INITIAL, Ask(true), GiveUp, Ask(true), Arrive(0));
    hide Fold;
    var s := Run(cfg, GIVEN_UP);
    assert s.inbox == [0] && s.waiting && s.asked == 2;
    StaleTaken(cfg, s, 1);
  }

  lemma RepeatTaken(cfg: Config)
    requires cfg.repeats
    ensures !Own(Run(cfg, REPEATED + [Ask(true)] + [Receive]))
  {
    FoldSnoc(Stepper(cfg), INITIAL, REPEATED + [Ask(true)], Receive);
    FoldSnoc(Stepper(cfg), INITIAL, REPEATED, Ask(true));
    Fold4(Stepper(cfg), INITIAL, Ask(true), Arrive(0), Arrive(0), Receive);
    hide Fold;
    var s := Run(cfg, REPEATED + [Ask(true)]);
    assert [0, 0][1..] == [0];
    assert s.inbox == [0] && s.waiting && s.asked == 2;
    StaleTaken(cfg, s, 1);
  }

  /** Every query gets its own answer or none, over all runs, exactly when no query is ever given up
      and no reply is repeated. */
  lemma OwnAnswersIff(cfg: Config)
    ensures (forall events: seq<Event> :: Own(Run(cfg, events))) <==> !cfg.givesUp && !cfg.repeats
  {
    hide Fold, Step, Own;
    if cfg.givesUp {
      LateReplyTaken(cfg);
    } else if cfg.repeats {
      RepeatTaken(cfg);
    } else {
      forall events: seq<Event>
        ensures Own(Run(cfg, events))
      {
        InitialOrderly();
        RunOrderly(cfg, INITIAL, events);
      }
    }
  }

  lemma InitialOrderly()
    ensures Orderly(INITIAL)
  {
  }

  // ---------------------------------------------------------------------
  // One late reply puts every later answer off by one.
  // ---------------------------------------------------------------------

  /** `m` further queries, each with a reply of its own in time. */
  function Rounds(first: nat, m: nat): seq<Event> {
    if m == 0 then [] else Rounds(first, m - 1) + [Ask(true), Receive, Arrive(first + m - 1)]
  }

  /** Each answered with the reply to the query before it. */
  function OffByOne(first: nat, m: nat): seq<Taken>
    requires first > 0
  {
    if m == 0 then [] else OffByOne(first, m - 1) + [Taken(first + m - 1, first + m - 2)]
  }

  lemma OneRound(cfg: Config, s: State, n: nat)
    requires !cfg.repeats && n > 0
    requires !s.waiting && s.asked == n && s.inbox == [n - 1] && s.outstanding == {}
    ensures RunFrom(cfg, s, [Ask(true), Receive, Arrive(n)])
            == s.(asked := n + 1, inbox := [n], taken := s.taken + [Taken(n, n - 1)])
  {
    Steps(cfg, s, Ask(true), Receive);
    FoldSnoc(Stepper(cfg), s, [Ask(true), Receive], Arrive(n));
    hide Fold;
    assert [Ask(true), Receive] + [Arrive(n)] == [Ask(true), Receive, Arrive(n)];
    assert {} + {n} - {n} == {};
    assert s.inbox[1..] + [n] == [n];
  }

  /** The reply to the last query, given up, is in the inbox: from then on every query of any number
      is answered with the reply to the one before it, although every reply comes in time. */
  lemma {:induction false} ShiftPersists(cfg: Config, s: State, m: nat)
    requires !cfg.repeats && !s.waiting && s.asked > 0 && s.inbox == [s.asked - 1] && s.outstanding == {}
    ensures RunFrom(cfg, s, Rounds(s.asked, m))
            == s.(asked := s.asked + m, inbox := [s.asked + m - 1], taken := s.taken + OffByOne(s.asked, m))
  {
    if m == 0 {
      assert s.taken + [] == s.taken;
    } else {
      var n := s.asked + m - 1;
      ShiftPersists(cfg, s, m - 1);
      FoldConcat(Stepper(cfg), s, Rounds(s.asked, m - 1), [Ask(true), Receive, Arrive(n)]);
      OneRound(cfg, RunFrom(cfg, s, Rounds(s.asked, m - 1)), n);
      hide Fold;
    }
  }
}
