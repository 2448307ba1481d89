/** The metrics engine's three consumers, one per topic, each with its own offsets, and the ingestor's
    reconciler, over one Redis: what crashes leave behind, and whose last activity is stored. */
module ThreeConsumers {
  import opened Prelude
  import opened RedisStore
  import opened MetricsEngine
  import opened Redelivery
  import opened SharedRedis
  import opened FreshnessAlarm
  import K = KafkaConsumer

  /** Each topic's partition. */
  datatype Logs = Logs(trades: seq<Message>, positions: seq<Message>, balances: seq<Message>)

  datatype System = System(
    trade: K.State, position: K.State, balance: K.State,
    store: Store,             // the Redis they all write
    acts: seq<Act>)           // history: everything done to it, in order

  /** One consumer's next step, or a write of the reconciler's. */
  datatype Event = Consume(topic: Dim, step: K.Event) | Reconcile(x: Act)

  function LogOf(logs: Logs, topic: Dim): seq<Message> {
    match topic
    case TradeDim => logs.trades
    case PositionDim => logs.positions
    case BalanceDim => logs.balances
  }

  function Of(s: System, topic: Dim): K.State {
    match topic
    case TradeDim => s.trade
    case PositionDim => s.position
    case BalanceDim => s.balance
  }

  function With(s: System, topic: Dim, k: K.State): System {
    match topic
    case TradeDim => s.(trade := k)
    case PositionDim => s.(position := k)
    case BalanceDim => s.(balance := k)
  }

  /** A topic only carries messages of its own kind. */
  ghost predicate Typed(logs: Logs) {
    forall topic, i | 0 <= i < |LogOf(logs, topic)| :: DimOf(LogOf(logs, topic)[i]) == topic
  }

  function Init(clock: int): System {
    System(K.Init(clock), K.Init(clock), K.Init(clock), K.Empty(), [])
  }

  /** A consumer's own step; a handler call also acts on the common Redis. Each consumer's clock
      readings do not go back; those of two writers need not be in order. */
  function Step(s: System, logs: Logs, window: int, e: Event): Option<System> {
    match e
    case Reconcile(x) => if x.Call? then None else Some(s.(store := Do(s.store, x, window), acts := s.acts + [x]))
    case Consume(topic, step) =>
      var k := Of(s, topic);
      (match K.Step(k, LogOf(logs, topic), window, step)
       case None => None
       case Some(k') =>
         if !step.Handle? then Some(With(s, topic, k'))
         else
           var a := Attempt(LogOf(logs, topic)[k.pc.offset], step.now, step.done);
           Some(With(s, topic, k').(store := Handle(s.store, a, window), acts := s.acts + [Call(a)])))
  }

  function Exec(s: System, logs: Logs, window: int, es: seq<Event>): Option<System>
    decreases |es|
  {
    if es == [] then Some(s)
    else match Step(s, logs, window, es[0])
      case None => None
      case Some(s1) => Exec(s1, logs, window, es[1..])
  }

  /** One consumer's part of a run. */
  function Steps(es: seq<Event>, topic: Dim): seq<K.Event> {
    if es == [] then []
    else (if es[0].Consume? && es[0].topic == topic then [es[0].step] else []) + Steps(es[1..], topic)
  }

  // ---------------------------------------------------------------- each consumer on its own

  lemma {:induction false} RunProjects(s: System, logs: Logs, window: int, es: seq<Event>, topic: Dim)
    requires Exec(s, logs, window, es).Some?
    ensures K.Exec(Of(s, topic), LogOf(logs, topic), window, Steps(es, topic))
            == Some(Of(Exec(s, logs, window, es).value, topic))
    decreases |es|
  {
    if es != [] {
      var s1 := Step(s, logs, window, es[0]).value;
      RunProjects(s1, logs, window, es[1..], topic);
      if es[0].Consume? && es[0].topic == topic {
        assert ([es[0].step] + Steps(es[1..], topic))[1..] == Steps(es[1..], topic);
      } else {
        assert [] + Steps(es[1..], topic) == Steps(es[1..], topic);
      }
    }
  }

  /** The common store is every act's doing; a consumer's own view is its own calls' doing. */
  ghost predicate Explained(s: System, window: int) {
    && ActsOk(s.acts)
    && s.store == RunActs(K.Empty(), s.acts, window)
    && forall topic :: OwnView(s, window, topic)
  }

  ghost predicate OwnView(s: System, window: int, topic: Dim) {
    AllValid(Only(s.acts, topic)) && Of(s, topic).store == Run(K.Empty(), Only(s.acts, topic), window)
  }

  /** What the step does to the common store, if anything. */
  function ActOf(s: System, logs: Logs, e: Event): Option<Act> {
    match e
    case Reconcile(x) => Some(x)
    case Consume(topic, step) =>
      var k := Of(s, topic);
      if step.Handle? && k.pc.Fetched? && k.pc.offset < |LogOf(logs, topic)|
      then Some(Call(Attempt(LogOf(logs, topic)[k.pc.offset], step.now, step.done))) else None
  }

  /** A handler call acts on the common store and on its consumer's own view alike. */
  lemma StepActs(s: System, logs: Logs, window: int, e: Event)
    requires Typed(logs) && Step(s, logs, window, e).Some?
    ensures var s' := Step(s, logs, window, e).value;
            match ActOf(s, logs, e)
            case Some(x) =>
              && ActOk(x) && s'.acts == s.acts + [x] && s'.store == Do(s.store, x, window)
              && (x.Call? ==> e.Consume? && DimOf(x.a.m) == e.topic
                              && Of(s', e.topic).store == Handle(Of(s, e.topic).store, x.a, window))
            case None =>
              && s'.acts == s.acts && s'.store == s.store
              && (e.Consume? ==> Of(s', e.topic).store == Of(s, e.topic).store)
  {
  }

  lemma StepOfOthers(s: System, logs: Logs, window: int, e: Event, topic: Dim)
    requires Step(s, logs, window, e).Some? && !(e.Consume? && e.topic == topic)
    ensures Of(Step(s, logs, window, e).value, topic) == Of(s, topic)
  {
  }

  lemma OwnViewGrows(view: Store, acts: seq<Act>, x: Act, window: int, topic: Dim)
    requires AllValid(Only(acts, topic)) && view == Run(K.Empty(), Only(acts, topic), window) && ActOk(x)
    ensures AllValid(Only(acts + [x], topic))
    ensures Run(K.Empty(), Only(acts + [x], topic), window)
            == if x.Call? && DimOf(x.a.m) == topic then Handle(view, x.a, window) else view
  {
    assert (acts + [x])[..|acts|] == acts;
    if x.Call? && DimOf(x.a.m) == topic {
      RunSnoc(K.Empty(), Only(acts, topic), x.a, window);
    } else {
      assert Only(acts, topic) + [] == Only(acts, topic);
    }
  }

  lemma OwnViewStep(s: System, logs: Logs, window: int, e: Event, topic: Dim)
    requires Typed(logs) && OwnView(s, window, topic) && Step(s, logs, window, e).Some?
    ensures OwnView(Step(s, logs, window, e).value, window, topic)
  {
    StepActs(s, logs, window, e);
    if !(e.Consume? && e.topic == topic) {
      StepOfOthers(s, logs, window, e, topic);
    }
    if ActOf(s, logs, e).Some? {
      OwnViewGrows(Of(s, topic).store, s.acts, ActOf(s, logs, e).value, window, topic);
    }
  }

  lemma ExplainedStep(s: System, logs: Logs, window: int, e: Event)
    requires Typed(logs) && Explained(s, window) && Step(s, logs, window, e).Some?
    ensures Explained(Step(s, logs, window, e).value, window)
    ensures s.acts <= Step(s, logs, window, e).value.acts
  {
    var s' := Step(s, logs, window, e).value;
    forall topic
      ensures OwnView(s', window, topic)
    {
      OwnViewStep(s, logs, window, e, topic);
    }
    StepActs(s, logs, window, e);
    if ActOf(s, logs, e).Some? {
      RunActsSnoc(K.Empty(), s.acts, ActOf(s, logs, e).value, window);
    }
  }

  lemma {:induction false} ExplainedRun(s: System, logs: Logs, window: int, es: seq<Event>)
    requires Typed(logs) && Explained(s, window) && Exec(s, logs, window, es).Some?
    ensures Explained(Exec(s, logs, window, es).value, window)
    ensures s.acts <= Exec(s, logs, window, es).value.acts
    decreases |es|
  {
    if es != [] {
      ExplainedStep(s, logs, window, es[0]);
      ExplainedRun(Step(s, logs, window, es[0]).value, logs, window, es[1..]);
    }
  }

  /** Caught up: this session succeeded on everything it fetched, and nothing beyond was attempted. */
  predicate CaughtUp(k: K.State) {
    k.good == k.position && k.high <= k.position
  }

  /** Exactly-once effect, three consumers and the reconciler over one store. Take any interleaving of
      the four, with crashes and restarts of each consumer anywhere, partially applied handlers and
      failed commits. If one consumer never commits over a message its session failed on and has
      caught up, then every key its handler alone writes holds what handling its messages once each,
      in order and without a failure, would have left: the trade windows, its freshness, and the
      hashes outside those the reconciler writes. */
  lemma CrashesDoNotShow(clock: int, logs: Logs, window: int, es: seq<Event>, topic: Dim, rest: set<HashKey>)
    requires Typed(logs) && Exec(Init(clock), logs, window, es).Some?
    requires RestWithin(Exec(Init(clock), logs, window, es).value.acts, rest)
    requires K.GapFree(K.Init(clock), LogOf(logs, topic), window, Steps(es, topic))
    requires CaughtUp(Of(Exec(Init(clock), logs, window, es).value, topic))
    ensures var s := Exec(Init(clock), logs, window, es).value;
            var k := Of(s, topic);
            && |k.clean| == k.position <= |LogOf(logs, topic)| && AllComplete(k.clean)
            && (forall i | 0 <= i < |k.clean| :: k.clean[i].m == LogOf(logs, topic)[i])
            && AgreeOn(s.store, Run(K.Empty(), k.clean, window), topic, rest)
  {
    var s := Exec(Init(clock), logs, window, es).value;
    RunProjects(Init(clock), logs, window, es, topic);
    K.CrashesDoNotShowAlone(clock, LogOf(logs, topic), window, Steps(es, topic));
    ExplainedRun(Init(clock), logs, window, es);
    assert OwnView(s, window, topic);
    ForeignIsInvisible(K.Empty(), K.Empty(), s.acts, topic, rest, window);
  }

  /** A hash the reconciler writes too, in any run: it holds what its last complete handling would
      have left exactly if the reconciler has not written it since and none of the reconciler's fields
      was alive in it then. */
  lemma HashOfRunIff(clock: int, logs: Logs, window: int, es: seq<Event>, n: nat)
    requires Typed(logs) && Exec(Init(clock), logs, window, es).Some?
    requires var acts := Exec(Init(clock), logs, window, es).value.acts;
             n < |acts| && acts[n].Call? && Complete(acts[n].a) && !acts[n].a.m.Trade?
             && NoCallAt(acts[n + 1..], HashOf(acts[n].a.m))
    ensures var s := Exec(Init(clock), logs, window, es).value;
            var a := s.acts[n].a;
            var h := HashOf(a.m);
            && ActsOk(s.acts[..n])
            && (CellOf(s.store, HashCell(h)) == CellWritten(a, HashCell(h))
                <==> NoRestAt(s.acts[n + 1..], h)
                     && LiveFields(RunActs(K.Empty(), s.acts[..n], window), h, a.now).updatedAt.None?)
  {
    ExplainedRun(Init(clock), logs, window, es);
    var acts := Exec(Init(clock), logs, window, es).value.acts;
    assert acts == acts[..n] + [acts[n]] + acts[n + 1..] && acts[n] == Call(acts[n].a);
    HashSurvivesIff(K.Empty(), acts[..n], acts[n].a, acts[n + 1..], window);
  }

  // ---------------------------------------------------------------- whose last activity

  /** From s to s' the account's stored activity: it is the last mark's, of whichever writer; it keeps
      its second exactly when the last mark in between, if there is one, carries the same second, and
      goes back exactly when that mark's second is smaller. */
  ghost predicate ActivityFollows(s: System, s': System, account: string) {
    && s.acts <= s'.acts
    && LastMark(s.acts, account).Some?
    && var l, r := LastMark(s.acts, account).value, LastMark(s'.acts[|s.acts|..], account);
    && Activity(s.store, account) == Some(SecondOf(l))
    && Activity(s'.store, account).Some?
    && (Activity(s'.store, account) == Activity(s.store, account) <==> r.None? || SecondOf(r.value) == SecondOf(l))
    && (Activity(s'.store, account).value < SecondOf(l) <==> r.Some? && SecondOf(r.value) < SecondOf(l))
  }

  lemma ActivityBetween(s: System, s': System, window: int, account: string)
    requires ActsOk(s.acts) && s.store == RunActs(K.Empty(), s.acts, window)
    requires ActsOk(s'.acts) && s'.store == RunActs(K.Empty(), s'.acts, window)
    requires s.acts <= s'.acts && LastMark(s.acts, account).Some?
    ensures ActivityFollows(s, s', account)
  {
    var again := s'.acts[|s.acts|..];
    assert s'.acts == s.acts + again;
    RunActsAppend(K.Empty(), s.acts, again, window);
    ActivitySurvivesIff(K.Empty(), s.acts, again, account, window);
  }

  /** Exactly when a continuation of a run, crashes, redeliveries and reconciler ticks included,
      preserves the stored last activity. */
  lemma ActivityOfRun(clock: int, logs: Logs, window: int, es: seq<Event>, more: seq<Event>, account: string)
    requires Typed(logs) && Exec(Init(clock), logs, window, es).Some?
    requires Exec(Exec(Init(clock), logs, window, es).value, logs, window, more).Some?
    requires LastMark(Exec(Init(clock), logs, window, es).value.acts, account).Some?
    ensures var s := Exec(Init(clock), logs, window, es).value;
            ActivityFollows(s, Exec(s, logs, window, more).value, account)
  {
    var s := Exec(Init(clock), logs, window, es).value;
    ExplainedRun(Init(clock), logs, window, es);
    ExplainedRun(s, logs, window, more);
    ActivityBetween(s, Exec(s, logs, window, more).value, window, account);
  }

  const TRADE: Message := Trade("a", "X", "1", 100000)
  const TICK: Event := Reconcile(RestActivity("a", 200000))

  lemma ExecOne(s: System, logs: Logs, window: int, e: Event, rest: seq<Event>)
    requires Step(s, logs, window, e).Some?
    ensures Exec(s, logs, window, [e] + rest) == Exec(Step(s, logs, window, e).value, logs, window, rest)
  {
    assert ([e] + rest)[1..] == rest;
  }

  /** A fetch and a successful handling of it, by one consumer. */
  lemma FetchAndHandle(s: System, logs: Logs, window: int, topic: Dim, now: int) returns (s': System)
    requires Of(s, topic).pc.Idle? && Of(s, topic).position < |LogOf(logs, topic)| && Of(s, topic).clock <= now
    ensures var m := LogOf(logs, topic)[Of(s, topic).position];
            var done := |Writes(m, now, 0)|;
            && Exec(s, logs, window, [Consume(topic, K.Fetch), Consume(topic, K.Handle(now, done, true))]) == Some(s')
            && s'.acts == s.acts + [Call(Attempt(m, now, done))] && Of(s', topic).clock == now
            && Of(s', topic).committed == Of(s, topic).committed
  {
    var m := LogOf(logs, topic)[Of(s, topic).position];
    var h := Consume(topic, K.Handle(now, |Writes(m, now, 0)|, true));
    var s1 := Step(s, logs, window, Consume(topic, K.Fetch)).value;
    s' := Step(s1, logs, window, h).value;
    ExecOne(s1, logs, window, h, []);
    ExecOne(s, logs, window, Consume(topic, K.Fetch), [h]);
    assert [Consume(topic, K.Fetch)] + [h] == [Consume(topic, K.Fetch), h] && [h] + [] == [h];
  }

  const LOGS: Logs := Logs([TRADE], [], [])

  lemma HandledAndTicked() returns (es: seq<Event>, s: System)
    ensures Exec(Init(0), LOGS, 60000, es) == Some(s)
    ensures s.acts == [Call(Attempt(TRADE, 199000, 6)), RestActivity("a", 200000)]
    ensures s.trade.committed == 0 && s.trade.clock == 199000
  {
    var s1 := FetchAndHandle(Init(0), LOGS, 60000, TradeDim, 199000);
    var t := [Consume(TradeDim, K.Fetch), Consume(TradeDim, K.Handle(199000, 6, true))];
    s := Step(s1, LOGS, 60000, TICK).value;
    es := t + [TICK];
    ExecAppend(Init(0), LOGS, 60000, t, [TICK]);
    ExecOne(s1, LOGS, 60000, TICK, []);
    assert [TICK] + [] == [TICK];
  }

  lemma TradeRedelivered(s: System) returns (more: seq<Event>, s': System)
    requires s.trade.committed == 0 && s.trade.clock == 199000
    ensures Exec(s, LOGS, 60000, more) == Some(s') && s'.acts == s.acts + [Call(Attempt(TRADE, 201000, 6))]
  {
    var restart := Consume(TradeDim, K.Restart);
    var s1 := Step(s, LOGS, 60000, restart).value;
    s' := FetchAndHandle(s1, LOGS, 60000, TradeDim, 201000);
    var again := [Consume(TradeDim, K.Fetch), Consume(TradeDim, K.Handle(201000, 6, true))];
    more := [restart] + again;
    ExecOne(s, LOGS, 60000, restart, again);
  }

  lemma RedeliveredJudgement()
    ensures var done := [Call(Attempt(TRADE, 199000, 6)), RestActivity("a", 200000)];
            var redone := [Call(Attempt(TRADE, 201000, 6))];
            && ActsOk(done) && ActsOk(redone) && ActsOk(done + redone)
            && Judge(RunActs(K.Empty(), done, 60000), "a", 202000, 30000).Quiet?
            && Judge(RunActs(K.Empty(), done + redone, 60000), "a", 202000, 30000).Alarm?
  {
    var done, redone := [Call(Attempt(TRADE, 199000, 6)), RestActivity("a", 200000)], [Call(Attempt(TRADE, 201000, 6))];
    RunActsAppend(K.Empty(), done, redone, 60000);
    assert LastMark(done, "a") == Some(Mark(200000, 200000)) && LastMark(redone, "a") == Some(Mark(100000, 201000));
    RedeliveryRaisesAlarmIff(K.Empty(), done, redone, "a", 60000, 202000, 30000);
  }

  /** It happens. An old trade is handled, the reconciler ticks, and the trade's consumer restarts
      before its commit and handles the trade again; the activity falls back by 100 s and S-013 raises
      an alarm two seconds after the tick. */
  lemma RedeliveryCanRaiseAlarm() returns (es: seq<Event>, more: seq<Event>, s: System, s': System)
    ensures Typed(LOGS) && Exec(Init(0), LOGS, 60000, es) == Some(s) && Exec(s, LOGS, 60000, more) == Some(s')
    ensures Judge(s.store, "a", 202000, 30000).Quiet? && Judge(s'.store, "a", 202000, 30000).Alarm?
  {
    es, s := HandledAndTicked();
    more, s' := TradeRedelivered(s);
    ExplainedRun(Init(0), LOGS, 60000, es);
    ExplainedRun(s, LOGS, 60000, more);
    RedeliveredJudgement();
  }

  lemma {:induction false} ExecAppend(s: System, logs: Logs, window: int, a: seq<Event>, b: seq<Event>)
    requires Exec(s, logs, window, a).Some?
    ensures Exec(s, logs, window, a + b) == Exec(Exec(s, logs, window, a).value, logs, window, b)
    decreases |a|
  {
    if a == [] {
      assert a + b == b;
    } else {
      assert (a + b)[1..] == a[1..] + b;
      ExecAppend(Step(s, logs, window, a[0]).value, logs, window, a[1..], b);
    }
  }
}
