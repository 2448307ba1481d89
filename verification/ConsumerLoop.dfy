/** The consumer's loop itself, over a reader position and the handlers of the metrics engine, and
    why every theorem about runs of the consumer machine is a theorem about it. */
module ConsumerLoop {
  import opened Prelude
  import opened RedisStore
  import opened MetricsEngine
  import opened Redelivery
  import opened SharedRedis
  import K = KafkaConsumer

  /** How far the process gets in a turn: all the way, or it dies holding the fetched message, or
      with the handler's call behind it, finished or cut short, and nothing committed. */
  datatype Point = Lives | AfterFetch | AfterHandler

  /** What the environment decides in one turn of the loop: what the other writers do to Redis before
      it, whether the fetch returns a message, the handler's clock reading and Redis replies, whether
      a commit gets through, and the end. */
  datatype Turn = Turn(others: seq<Act>, fetched: bool, now: int, net: seq<Reply>, commitOk: bool, dies: Point)

  /** Other topics' handlers, and the reconciler within its hashes. */
  ghost predicate Others(acts: seq<Act>, topic: Dim, rest: set<HashKey>) {
    ActsOk(acts) && forall i | 0 <= i < |acts| :: Foreign(acts[i], topic, rest)
  }

  ghost predicate Timely(turns: seq<Turn>, clock: int) {
    && (forall i | 0 <= i < |turns| :: |turns[i].net| == 5 && turns[i].now >= clock)
    && (forall i, j | 0 <= i < j < |turns| :: turns[i].now <= turns[j].now)
  }

  /** A session is over when the process dies. */
  ghost predicate DiesLast(turns: seq<Turn>) {
    forall i | 0 <= i < |turns| - 1 :: turns[i].dies.Lives?
  }

  /** The replies a message's handler uses. */
  function Replies(turn: Turn, m: Message): (net: seq<Reply>)
    requires |turn.net| == 5
    ensures |net| == |Sizes(m)|
  {
    turn.net[..|Sizes(m)|]
  }

  /** The machine's steps for one turn at a reader position. */
  function TurnEvents(turn: Turn, log: seq<Message>, position: nat, window: int): seq<K.Event>
    requires |turn.net| == 5
  {
    if !turn.fetched || position >= |log| then []
    else if turn.dies.AfterFetch? then [K.Fetch]
    else
      var m := log[position];
      var ok := AllDone(Replies(turn, m));
      [K.Fetch, K.Handle(turn.now, Delivered(m, Replies(turn, m)), ok)]
      + if ok && turn.dies.Lives? then [K.Commit(turn.commitOk)] else []
  }

  function PositionAfter(turns: seq<Turn>, log: seq<Message>, position: nat): nat {
    if turns == [] then position
    else
      var p := PositionAfter(turns[..|turns| - 1], log, position);
      if turns[|turns| - 1].fetched && p < |log| then p + 1 else p
  }

  /** A session's steps: every turn in order, each at the position the earlier ones left. */
  function SessionEvents(turns: seq<Turn>, log: seq<Message>, position: nat, window: int): seq<K.Event>
    requires forall i | 0 <= i < |turns| :: |turns[i].net| == 5
  {
    if turns == [] then []
    else
      var n := |turns| - 1;
      SessionEvents(turns[..n], log, position, window)
      + TurnEvents(turns[n], log, PositionAfter(turns[..n], log, position), window)
  }

  class Consumer {
    const topic: Dim
    ghost const rest: set<HashKey>
    const log: seq<Message>      // the topic's partition
    const engine: Engine
    const start: int
    var committed: nat           // the broker's offset for the group
    var position: nat            // the reader's next offset
    ghost var trace: seq<K.Event>
    ghost var abs: K.State

    /** Object and machine agree, on Redis as far as this topic's own keys go, and the machine got here
        by a run from its initial state. */
    ghost predicate Valid()
      reads this, engine.redis
    {
      && abs.committed == committed && abs.position == position
      && (forall i | 0 <= i < |log| :: DimOf(log[i]) == topic)
      && AgreeOn(engine.redis.st, abs.store, topic, rest)
      && K.Exec(K.Init(start), log, engine.metricsWindow, trace) == Some(abs)
    }

    constructor (topic: Dim, ghost rest: set<HashKey>, log: seq<Message>, engine: Engine, start: int)
      requires engine.redis.st == Store(map[], map[], map[], map[])
      requires forall i | 0 <= i < |log| :: DimOf(log[i]) == topic
      ensures Valid() && abs.pc.Idle? && trace == []
      ensures this.topic == topic && this.rest == rest && this.log == log
      ensures this.engine == engine && this.start == start
    {
      this.topic, this.rest, this.log, this.engine, this.start := topic, rest, log, engine, start;
      committed, position, trace, abs := 0, 0, [], K.Init(start);
    }

    /** One step of the machine, recorded. */
    ghost method Advance(e: K.Event)
      requires K.Exec(K.Init(start), log, engine.metricsWindow, trace) == Some(abs)
      requires K.Step(abs, log, engine.metricsWindow, e).Some?
      modifies this`trace, this`abs
      ensures Some(abs) == K.Step(old(abs), log, engine.metricsWindow, e)
      ensures trace == old(trace) + [e] && K.Exec(K.Init(start), log, engine.metricsWindow, trace) == Some(abs)
    {
      ExecSnoc(K.Init(start), log, engine.metricsWindow, trace, e);
      abs := K.Step(abs, log, engine.metricsWindow, e).value;
      trace := trace + [e];
    }

    method Handle(m: Message, now: int, net: seq<Reply>) returns (ok: bool)
      requires |net| == |Sizes(m)|
      modifies engine.redis
      ensures ok == AllDone(net)
      ensures engine.redis.st
              == Redelivery.Handle(old(engine.redis.st), Attempt(m, now, Delivered(m, net)), engine.metricsWindow)
    {
      if m.Trade? {
        ok := engine.HandleTradeEvent(m, now, net);
      } else {
        ok := engine.HandleSnapshot(m, now, net);
      }
    }

    /** One turn: fetch, handle, commit on success; every failure just ends the turn. */
    method TakeTurn(turn: Turn)
      requires Valid() && abs.pc.Idle? && |turn.net| == 5 && turn.now >= abs.clock
      modifies this, engine.redis
      ensures Valid() && abs.clock <= turn.now && (turn.dies.Lives? ==> abs.pc.Idle?)
      ensures trace == old(trace) + TurnEvents(turn, log, old(position), engine.metricsWindow)
      ensures position == old(position) + if turn.fetched && old(position) < |log| then 1 else 0
      ensures committed == old(committed) || committed == position
    {
      if !turn.fetched || position >= |log| {
        return;
      }
      var m := log[position];
      ghost var t0 := trace;
      Advance(K.Fetch);
      position := position + 1;
      if turn.dies.AfterFetch? {
        return;
      }
      var net := Replies(turn, m);
      ghost var before := engine.redis.st;
      var ok := Handle(m, turn.now, net);
      SuccessIsComplete(m, net);
      OwnCall(before, abs.store, Attempt(m, turn.now, Delivered(m, net)), topic, rest, engine.metricsWindow);
      ghost var handled := K.Handle(turn.now, Delivered(m, net), ok);
      Three(t0, K.Fetch, handled, K.Commit(turn.commitOk));
      Advance(handled);
      if !ok || turn.dies.AfterHandler? {
        return;
      }
      if turn.commitOk {
        committed := position;
      }
      Advance(K.Commit(turn.commitOk));
    }

    /** The other writers of Redis, between this consumer's turns. */
    method Interfere(others: seq<Act>)
      requires Valid() && Others(others, topic, rest)
      modifies engine.redis
      ensures Valid() && engine.redis.st == RunActs(old(engine.redis.st), others, engine.metricsWindow)
    {
      for i := 0 to |others|
        invariant engine.redis.st == RunActs(old(engine.redis.st), others[..i], engine.metricsWindow)
        invariant AgreeOn(engine.redis.st, abs.store, topic, rest)
      {
        assert others[..i + 1][..i] == others[..i];
        ForeignAct(engine.redis.st, others[i], topic, rest, engine.metricsWindow);
        engine.redis.st := Do(engine.redis.st, others[i], engine.metricsWindow);
      }
      assert others[..|others|] == others;
    }

    method TakeTurns(turns: seq<Turn>)
      requires Valid() && abs.pc.Idle? && committed <= position && Timely(turns, abs.clock) && DiesLast(turns)
      requires forall i | 0 <= i < |turns| :: Others(turns[i].others, topic, rest)
      modifies this, engine.redis
      ensures Valid() && old(committed) <= committed <= position
      ensures trace == old(trace) + SessionEvents(turns, log, old(position), engine.metricsWindow)
    {
      ghost var t0, p0, w := trace, position, engine.metricsWindow;
      ghost var done: seq<K.Event> := [];
      assert t0 + done == trace;
      for i := 0 to |turns|
        invariant Valid() && old(committed) <= committed <= position
        invariant i < |turns| ==> abs.pc.Idle? && turns[i].now >= abs.clock
        invariant position == PositionAfter(turns[..i], log, p0)
        invariant done == SessionEvents(turns[..i], log, p0, w) && trace == t0 + done
      {
        SessionNext(turns, i, log, p0, w);
        ghost var step := TurnEvents(turns[i], log, position, w);
        Associates(t0, done, step);
        Interfere(turns[i].others);
        TakeTurn(turns[i]);
        done := done + step;
      }
      assert turns[..|turns|] == turns;
    }

    /** A session of the loop, from the committed offset on, until its context ends or the process
        dies anywhere in a turn. */
    method Start(turns: seq<Turn>)
      requires Valid() && Timely(turns, abs.clock) && DiesLast(turns)
      requires forall i | 0 <= i < |turns| :: Others(turns[i].others, topic, rest)
      modifies this, engine.redis
      ensures Valid() && old(committed) <= committed <= position
      ensures trace == old(trace) + [K.Restart] + SessionEvents(turns, log, old(committed), engine.metricsWindow)
    {
      position := committed;
      Advance(K.Restart);
      TakeTurns(turns);
    }
  }

  lemma Associates(a: seq<K.Event>, b: seq<K.Event>, c: seq<K.Event>)
    ensures a + b + c == a + (b + c)
  {
  }

  lemma Three(t: seq<K.Event>, a: K.Event, b: K.Event, c: K.Event)
    ensures t + [a] + [b] == t + ([a, b] + []) && t + [a] + [b] + [c] == t + ([a, b] + [c])
  {
  }

  lemma SessionNext(turns: seq<Turn>, i: nat, log: seq<Message>, position: nat, window: int)
    requires i < |turns| && forall j | 0 <= j < |turns| :: |turns[j].net| == 5
    ensures var p := PositionAfter(turns[..i], log, position);
            && PositionAfter(turns[..i + 1], log, position) == p + (if turns[i].fetched && p < |log| then 1 else 0)
            && SessionEvents(turns[..i + 1], log, position, window)
               == SessionEvents(turns[..i], log, position, window) + TurnEvents(turns[i], log, p, window)
  {
    assert turns[..i + 1][..i] == turns[..i];
  }

  lemma {:induction false} ExecSnoc(s: K.State, log: seq<Message>, window: int, es: seq<K.Event>, e: K.Event)
    requires K.Exec(s, log, window, es).Some?
    ensures K.Exec(s, log, window, es + [e]) == K.Step(K.Exec(s, log, window, es).value, log, window, e)
    decreases |es|
  {
    if es == [] {
      assert ([] + [e])[1..] == [];
    } else {
      assert (es + [e])[1..] == es[1..] + [e];
      ExecSnoc(K.Step(s, log, window, es[0]).value, log, window, es[1..], e);
    }
  }

  /** A handler that reports success applied all its commands. */
  lemma SuccessIsComplete(m: Message, net: seq<Reply>)
    requires |net| == |Sizes(m)|
    ensures AllDone(net) ==> Delivered(m, net) == |Writes(m, 0, 0)|
  {
    if m.Trade? {
      AppliedToTrade(net, m);
    } else {
      AppliedToSnapshot(net, m);
    }
  }
}
