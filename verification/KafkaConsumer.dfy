/** One topic's consumer loop on its partition: fetch, handle, commit on success, carry on after a
    handler error, start again at the committed offset after a crash or a restart. */
module KafkaConsumer {
  import opened Prelude
  import opened RedisStore
  import opened MetricsEngine
  import opened Redelivery

  /** Where the loop is: about to fetch, holding a fetched message, or about to commit it. */
  datatype Pc = Idle | Fetched(offset: nat) | Handled(offset: nat)

  datatype State = State(
    committed: nat,           // the group's committed offset
    position: nat,            // the next offset this session fetches
    pc: Pc,
    store: Store,             // Redis, as this consumer's handlers alone would leave it
    clock: int,
    passed: set<nat>,         // history: offsets given to the handler
    succeeded: set<nat>,      // history: offsets the handler succeeded on
    high: nat,                // history: one past the largest offset given to the handler
    good: nat,                // history: this session succeeded on everything from its start to here
    clean: seq<Attempt>)      // history: the last successful call for each offset below `good`

  datatype Event =
    | Fetch
    | Handle(now: int, done: nat, ok: bool)   // `done` writes applied; ok only if all were
    | Commit(applied: bool)                   // a failed commit is only logged
    | Restart

  function Empty(): Store {
    Store(map[], map[], map[], map[])
  }

  function Init(clock: int): State {
    State(0, 0, Idle, Empty(), clock, {}, {}, 0, 0, [])
  }

  /** One step over the partition's log; None when the event is not possible. Clocks do not go back. */
  function Step(s: State, log: seq<Message>, window: int, e: Event): Option<State> {
    match e
    case Fetch =>
      if s.pc.Idle? && s.position < |log| then
        Some(s.(pc := Fetched(s.position), position := s.position + 1))
      else None
    case Handle(now, done, ok) =>
      if !s.pc.Fetched? || s.pc.offset >= |log| || now < s.clock then None
      else
        var o := s.pc.offset;
        var a := Attempt(log[o], now, done);
        if !Valid(a) || (ok && !Complete(a)) then None
        else
          var s1 := s.(store := Redelivery.Handle(s.store, a, window), clock := now, passed := s.passed + {o},
                       high := if o + 1 > s.high then o + 1 else s.high);
          Some(if !ok then s1.(pc := Idle)
               else s1.(pc := Handled(o), succeeded := s.succeeded + {o},
                        good := if s.good == o then o + 1 else s.good,
                        clean := if s.good == o then s.clean + [a] else s.clean))
    case Commit(applied) =>
      if s.pc.Handled? then
        Some(s.(pc := Idle, committed := if applied then s.pc.offset + 1 else s.committed))
      else None
    case Restart =>
      Some(s.(pc := Idle, position := s.committed, good := s.committed,
              clean := if s.committed <= |s.clean| then s.clean[..s.committed] else s.clean))
  }

  function Exec(s: State, log: seq<Message>, window: int, es: seq<Event>): Option<State>
    decreases |es|
  {
    if es == [] then Some(s)
    else match Step(s, log, window, es[0])
      case None => None
      case Some(s1) => Exec(s1, log, window, es[1..])
  }

  // ---------------------------------------------------------------- offsets

  /** Given to the handler, or fetched and just about to be. */
  predicate Seen(s: State, o: nat) {
    o in s.passed || s.pc == Fetched(o)
  }

  ghost predicate OffsetsInv(s: State, log: seq<Message>) {
    && s.committed <= s.position <= |log|
    && (!s.pc.Idle? ==> s.position == s.pc.offset + 1 && s.committed <= s.pc.offset)
    && (s.pc.Handled? ==> s.pc.offset in s.succeeded)
    && (forall o: nat | o < s.position :: Seen(s, o))
    && s.succeeded <= s.passed
    && (forall o | o in s.passed :: o < s.high)
    && (s.committed > 0 ==> s.committed - 1 in s.succeeded)
  }

  lemma OffsetsStep(s: State, log: seq<Message>, window: int, e: Event)
    requires OffsetsInv(s, log) && Step(s, log, window, e).Some?
    ensures var s' := Step(s, log, window, e).value;
            && OffsetsInv(s', log) && s.committed <= s'.committed
            && (s'.committed != s.committed ==> s.pc.Handled? && s'.committed == s.pc.offset + 1)
  {
    var s' := Step(s, log, window, e).value;
    forall o: nat | o < s'.position
      ensures Seen(s', o)
    {
      assert o < s.position ==> Seen(s, o);
    }
  }

  lemma {:induction false} OffsetsRun(s: State, log: seq<Message>, window: int, es: seq<Event>)
    requires OffsetsInv(s, log) && Exec(s, log, window, es).Some?
    ensures OffsetsInv(Exec(s, log, window, es).value, log)
    ensures s.committed <= Exec(s, log, window, es).value.committed
    decreases |es|
  {
    if es != [] {
      OffsetsStep(s, log, window, es[0]);
      OffsetsRun(Step(s, log, window, es[0]).value, log, window, es[1..]);
    }
  }

  /** In every run with failures, crashes and restarts: the committed offset never goes back, it
      is always one past a successfully handled message, and every offset below it was passed to
      the handler at least once. */
  lemma CommitsAreAtLeastOnce(clock: int, log: seq<Message>, window: int, es: seq<Event>, more: seq<Event>)
    requires Exec(Init(clock), log, window, es).Some?
    requires Exec(Exec(Init(clock), log, window, es).value, log, window, more).Some?
    ensures var s := Exec(Init(clock), log, window, es).value;
            && (s.committed > 0 ==> s.committed - 1 in s.succeeded)
            && (forall o: nat | o < s.committed :: o in s.passed)
            && s.committed <= Exec(s, log, window, more).value.committed
  {
    OffsetsRun(Init(clock), log, window, es);
    var s := Exec(Init(clock), log, window, es).value;
    OffsetsRun(s, log, window, more);
    forall o: nat | o < s.committed
      ensures o in s.passed
    {
      assert Seen(s, o);
    }
  }

  // ---------------------------------------------------------------- lost messages

  /** Passed to the handler, never with success. */
  function Failed(s: State): set<nat> {
    s.passed - s.succeeded
  }

  /** No message below the committed offset is lost. */
  ghost predicate NothingLost(s: State) {
    forall o: nat | o < s.committed :: o in s.succeeded
  }

  /** The loop does not redeliver after a handler error, as its comment says it would: the next
      success commits past the failed message. A commit loses nothing exactly when nothing was
      lost before and no message from the committed offset up to it has only failed. */
  lemma CommitLosesNothingIff(clock: int, log: seq<Message>, window: int, es: seq<Event>)
    requires Exec(Init(clock), log, window, es).Some?
    requires Exec(Init(clock), log, window, es).value.pc.Handled?
    ensures var s := Exec(Init(clock), log, window, es).value;
            NothingLost(Step(s, log, window, Commit(true)).value) <==>
            NothingLost(s) && forall o | o in Failed(s) :: !(s.committed <= o <= s.pc.offset)
  {
    OffsetsRun(Init(clock), log, window, es);
    var s := Exec(Init(clock), log, window, es).value;
    var s' := Step(s, log, window, Commit(true)).value;
    if NothingLost(s) && forall o | o in Failed(s) :: !(s.committed <= o <= s.pc.offset) {
      forall o: nat | o < s'.committed
        ensures o in s'.succeeded
      {
        if o < s.committed {
          assert o in s.succeeded;
        } else {
          assert Seen(s, o) && o !in Failed(s);
        }
      }
    }
    if NothingLost(s') {
      forall o: nat | o < s.committed
        ensures o in s.succeeded
      {
        assert o < s'.committed;
      }
      forall o | o in Failed(s)
        ensures !(s.committed <= o <= s.pc.offset)
      {
        assert o < s'.committed ==> o in s'.succeeded;
      }
    }
  }

  /** The first message fails, the second is fetched. */
  lemma FirstFails(a: Message, b: Message, clock: int, window: int) returns (s: State)
    ensures Exec(Init(clock), [a, b], window, [Fetch, Handle(clock, 0, false), Fetch]) == Some(s)
    ensures s.pc == Fetched(1) && s.position == 2 && s.clock == clock && s.passed == {0} && s.succeeded == {}
  {
    var log, h := [a, b], Handle(clock, 0, false);
    var s0 := Init(clock);
    var s1 := Step(s0, log, window, Fetch).value;
    var s2 := Step(s1, log, window, h).value;
    s := Step(s2, log, window, Fetch).value;
    ExecOne(s2, log, window, Fetch, []);
    ExecOne(s1, log, window, h, [Fetch]);
    ExecOne(s0, log, window, Fetch, [h, Fetch]);
    assert [Fetch] + [h, Fetch] == [Fetch, h, Fetch] && [h] + [Fetch] == [h, Fetch];
  }

  lemma SecondCommits(s: State, a: Message, b: Message, window: int) returns (s': State)
    requires s.pc == Fetched(1) && s.position == 2 && s.passed == {0} && s.succeeded == {}
    ensures Exec(s, [a, b], window, [Handle(s.clock, |Writes(b, s.clock, 0)|, true), Commit(true), Restart]) == Some(s')
    ensures s'.position == s'.committed == 2 && 0 in s'.passed && 0 !in s'.succeeded
  {
    var log, h := [a, b], Handle(s.clock, |Writes(b, s.clock, 0)|, true);
    var s1 := Step(s, log, window, h).value;
    var s2 := Step(s1, log, window, Commit(true)).value;
    s' := Step(s2, log, window, Restart).value;
    ExecOne(s2, log, window, Restart, []);
    ExecOne(s1, log, window, Commit(true), [Restart]);
    ExecOne(s, log, window, h, [Commit(true), Restart]);
    assert [h] + [Commit(true), Restart] == [h, Commit(true), Restart]
        && [Commit(true)] + [Restart] == [Commit(true), Restart];
  }

  /** A failed message followed by a success is gone for good: even a restart resumes after it. */
  lemma FailedMessageIsSkipped(a: Message, b: Message, clock: int, window: int)
    ensures var es := [Fetch, Handle(clock, 0, false), Fetch]
            + [Handle(clock, |Writes(b, clock, 0)|, true), Commit(true), Restart];
            var r := Exec(Init(clock), [a, b], window, es);
            r.Some? && r.value.position == 2 && 0 in Failed(r.value) && !NothingLost(r.value)
  {
    var s := FirstFails(a, b, clock, window);
    var s' := SecondCommits(s, a, b, window);
    ExecAppend(Init(clock), [a, b], window, [Fetch, Handle(clock, 0, false), Fetch],
               [Handle(clock, |Writes(b, clock, 0)|, true), Commit(true), Restart]);
    assert 0 < s'.committed;
  }

  lemma {:induction false} ExecAppend(s: State, log: seq<Message>, window: int, a: seq<Event>, b: seq<Event>)
    requires Exec(s, log, window, a).Some?
    ensures Exec(s, log, window, a + b) == Exec(Exec(s, log, window, a).value, log, window, b)
    decreases |a|
  {
    if a == [] {
      assert a + b == b;
    } else {
      assert (a + b)[1..] == a[1..] + b;
      ExecAppend(Step(s, log, window, a[0]).value, log, window, a[1..], b);
    }
  }

  lemma ExecOne(s: State, log: seq<Message>, window: int, e: Event, rest: seq<Event>)
    requires Step(s, log, window, e).Some?
    ensures Exec(s, log, window, [e] + rest) == Exec(Step(s, log, window, e).value, log, window, rest)
  {
    assert ([e] + rest)[1..] == rest;
  }

  // ---------------------------------------------------------------- Redis after crashes

  /** The claimed part of Redis: trade windows, stamps and hashes. */
  ghost predicate Agree(x: Store, y: Store) {
    && (forall account :: WindowOf(x, account) == WindowOf(y, account))
    && (forall k :: CellOf(x, k) == CellOf(y, k))
  }

  /** Complete, in-order deliveries of the log from an offset on. */
  ghost predicate Covers(batch: seq<Attempt>, log: seq<Message>, from: nat) {
    && from + |batch| <= |log|
    && AllComplete(batch) && Ordered(batch)
    && (forall i | 0 <= i < |batch| :: batch[i].m == log[from + i])
  }

  ghost predicate After(batch: seq<Attempt>, clock: int) {
    forall i | 0 <= i < |batch| :: clock <= batch[i].now
  }

  /** The log a run has to explain: everything attempted lies below `high` and before `clock`. */
  datatype Bounds = Bounds(log: seq<Message>, window: int, high: nat, clock: int)

  /** From offset c on, redelivering everything ever attempted leads where handling each message
      exactly once would; `prefix` is the one handling of the messages before c. */
  ghost predicate Converges(store: Store, prefix: seq<Attempt>, c: nat, b: Bounds)
    requires AllValid(prefix)
  {
    forall batch: seq<Attempt> | Covers(batch, b.log, c) && c + |batch| >= b.high && After(batch, b.clock) ::
      Agree(Run(store, batch, b.window), Run(Run(Empty(), prefix, b.window), batch, b.window))
  }

  /** The bounds after one more attempt at offset o. */
  function Extend(b: Bounds, o: nat, now: int): Bounds {
    b.(high := if o + 1 > b.high then o + 1 else b.high, clock := now)
  }

  lemma RunOne(st: Store, a: Attempt, window: int)
    requires Valid(a)
    ensures AllValid([a]) && Run(st, [a], window) == Redelivery.Handle(st, a, window)
  {
    assert [a][1..] == [];
    assert Run(Redelivery.Handle(st, a, window), [], window) == Redelivery.Handle(st, a, window);
  }

  /** An attempt at an offset from c on does not disturb convergence from c. */
  lemma AttemptKeepsConvergence(store: Store, prefix: seq<Attempt>, c: nat, b: Bounds, o: nat, a: Attempt)
    requires Plain(store) && AllValid(prefix) && Converges(store, prefix, c, b)
    requires c <= o < |b.log| && Valid(a) && a.m == b.log[o] && b.clock <= a.now
    ensures Converges(Redelivery.Handle(store, a, b.window), prefix, c, Extend(b, o, a.now))
  {
    var b' := Extend(b, o, a.now);
    RunOne(store, a, b.window);
    forall batch: seq<Attempt> | Covers(batch, b.log, c) && c + |batch| >= b'.high && After(batch, b'.clock)
      ensures Agree(Run(Redelivery.Handle(store, a, b.window), batch, b.window),
                    Run(Run(Empty(), prefix, b.window), batch, b.window))
    {
      assert batch[o - c].m == a.m;
      AloneRedeliveryErases(store, [a], batch, b.window);
      assert After(batch, b.clock);
    }
  }

  lemma RunCons(st: Store, a: Attempt, batch: seq<Attempt>, window: int)
    requires Valid(a) && AllValid(batch)
    ensures AllValid([a] + batch)
            && Run(st, [a] + batch, window) == Run(Redelivery.Handle(st, a, window), batch, window)
  {
    assert ([a] + batch)[1..] == batch;
  }

  lemma CoversLonger(a: Attempt, batch: seq<Attempt>, log: seq<Message>, c: nat, clock: int)
    requires Covers(batch, log, c + 1) && After(batch, a.now) && Complete(a)
    requires c < |log| && a.m == log[c] && clock <= a.now
    ensures Covers([a] + batch, log, c) && After([a] + batch, clock)
  {
  }

  /** A success at the next offset extends the prefix. */
  lemma SuccessExtendsPrefix(store: Store, prefix: seq<Attempt>, c: nat, b: Bounds, a: Attempt)
    requires AllValid(prefix) && Converges(store, prefix, c, b)
    requires c < |b.log| && Complete(a) && a.m == b.log[c] && b.clock <= a.now
    ensures AllValid(prefix + [a])
    ensures Converges(Redelivery.Handle(store, a, b.window), prefix + [a], c + 1, Extend(b, c, a.now))
  {
    var b' := Extend(b, c, a.now);
    var x := Run(Empty(), prefix, b.window);
    RunOne(x, a, b.window);
    RunAppend(Empty(), prefix, [a], b.window);
    forall batch: seq<Attempt> | Covers(batch, b.log, c + 1) && c + 1 + |batch| >= b'.high && After(batch, b'.clock)
      ensures Agree(Run(Redelivery.Handle(store, a, b.window), batch, b.window),
                    Run(Run(Empty(), prefix + [a], b.window), batch, b.window))
    {
      SuccessFirst(store, x, prefix, c, b, a, batch);
    }
  }

  lemma SuccessFirst(store: Store, x: Store, prefix: seq<Attempt>, c: nat, b: Bounds, a: Attempt, batch: seq<Attempt>)
    requires AllValid(prefix) && Converges(store, prefix, c, b) && x == Run(Empty(), prefix, b.window)
    requires c < |b.log| && Complete(a) && a.m == b.log[c] && b.clock <= a.now
    requires Covers(batch, b.log, c + 1) && c + 1 + |batch| >= b.high && After(batch, a.now)
    ensures Agree(Run(Redelivery.Handle(store, a, b.window), batch, b.window),
                  Run(Redelivery.Handle(x, a, b.window), batch, b.window))
  {
    CoversLonger(a, batch, b.log, c, b.clock);
    RunCons(store, a, batch, b.window);
    RunCons(x, a, batch, b.window);
    assert Agree(Run(store, [a] + batch, b.window), Run(x, [a] + batch, b.window));
  }

  /** Convergence from every offset between lo and the end of the clean log. */
  ghost predicate ConvergesFrom(store: Store, clean: seq<Attempt>, lo: nat, b: Bounds)
    requires AllComplete(clean)
  {
    forall c: nat | lo <= c <= |clean| :: ConvergesAt(store, clean, c, b)
  }

  ghost predicate ConvergesAt(store: Store, clean: seq<Attempt>, c: nat, b: Bounds)
    requires c <= |clean| && AllComplete(clean)
  {
    Converges(store, clean[..c], c, b)
  }

  lemma AttemptKeepsAll(store: Store, clean: seq<Attempt>, lo: nat, b: Bounds, o: nat, a: Attempt)
    requires Plain(store) && AllComplete(clean) && ConvergesFrom(store, clean, lo, b)
    requires |clean| <= o < |b.log| && Valid(a) && a.m == b.log[o] && b.clock <= a.now
    ensures ConvergesFrom(Redelivery.Handle(store, a, b.window), clean, lo, Extend(b, o, a.now))
  {
    var st := Redelivery.Handle(store, a, b.window);
    var b' := Extend(b, o, a.now);
    forall c: nat | lo <= c <= |clean|
      ensures ConvergesAt(st, clean, c, b')
    {
      assert ConvergesAt(store, clean, c, b);
      AttemptKeepsConvergence(store, clean[..c], c, b, o, a);
    }
  }

  lemma SuccessExtendsAll(store: Store, clean: seq<Attempt>, lo: nat, b: Bounds, a: Attempt)
    requires Plain(store) && AllComplete(clean) && ConvergesFrom(store, clean, lo, b) && lo <= |clean|
    requires |clean| < |b.log| && Complete(a) && a.m == b.log[|clean|] && b.clock <= a.now
    ensures AllComplete(clean + [a])
    ensures ConvergesFrom(Redelivery.Handle(store, a, b.window), clean + [a], lo, Extend(b, |clean|, a.now))
  {
    var o := |clean|;
    var st := Redelivery.Handle(store, a, b.window);
    var b' := Extend(b, o, a.now);
    AttemptKeepsAll(store, clean, lo, b, o, a);
    forall c: nat | lo <= c <= o + 1
      ensures ConvergesAt(st, clean + [a], c, b')
    {
      if c <= o {
        assert ConvergesAt(st, clean, c, b');
        assert (clean + [a])[..c] == clean[..c];
      } else {
        assert ConvergesAt(store, clean, o, b);
        assert clean[..o] == clean && (clean + [a])[..c] == clean + [a];
        SuccessExtendsPrefix(store, clean, o, b, a);
      }
    }
  }

  lemma ShorterConverges(store: Store, clean: seq<Attempt>, lo: nat, b: Bounds, lo': nat, n: nat)
    requires AllComplete(clean) && ConvergesFrom(store, clean, lo, b) && lo <= lo' && n <= |clean|
    ensures AllComplete(clean[..n]) && ConvergesFrom(store, clean[..n], lo', b)
  {
    forall c: nat | lo' <= c <= n
      ensures ConvergesAt(store, clean[..n], c, b)
    {
      assert ConvergesAt(store, clean, c, b);
      assert clean[..n][..c] == clean[..c];
    }
  }

  /** This session has only committed what it handled without a gap. */
  predicate NoGapCommitted(s: State) {
    s.committed <= s.good
  }

  predicate CleanShape(s: State, log: seq<Message>) {
    && s.committed <= s.good <= s.position <= |log|
    && |s.clean| == s.good
    && (s.pc.Fetched? ==> s.good <= s.pc.offset)
  }

  ghost predicate CleanLog(s: State, log: seq<Message>) {
    |s.clean| <= |log| && AllComplete(s.clean) && forall i | 0 <= i < |s.clean| :: s.clean[i].m == log[i]
  }

  ghost predicate Promise(s: State, log: seq<Message>, window: int)
    requires CleanLog(s, log)
  {
    Plain(s.store) && ConvergesFrom(s.store, s.clean, s.committed, Bounds(log, window, s.high, s.clock))
  }

  ghost predicate CleanInv(s: State, log: seq<Message>, window: int) {
    OffsetsInv(s, log) && CleanShape(s, log) && CleanLog(s, log) && Promise(s, log, window)
  }

  lemma ShapeStep(s: State, log: seq<Message>, window: int, e: Event, s': State)
    requires OffsetsInv(s, log) && CleanShape(s, log) && CleanLog(s, log)
    requires Step(s, log, window, e) == Some(s') && NoGapCommitted(s')
    ensures CleanShape(s', log) && CleanLog(s', log)
  {
  }

  lemma PromiseSuccess(s: State, log: seq<Message>, window: int, a: Attempt, s': State)
    requires CleanShape(s, log) && CleanLog(s, log) && Promise(s, log, window) && s.pc == Fetched(s.good)
    requires s.good < |log| && a.m == log[s.good] && s.clock <= a.now && Complete(a) && CleanLog(s', log)
    requires s'.store == Redelivery.Handle(s.store, a, window) && s'.clean == s.clean + [a]
    requires s'.committed == s.committed && s'.clock == a.now
    requires s'.high == if s.good + 1 > s.high then s.good + 1 else s.high
    ensures Promise(s', log, window)
  {
    var b := Bounds(log, window, s.high, s.clock);
    assert Extend(b, s.good, a.now) == Bounds(log, window, s'.high, s'.clock);
    SuccessExtendsAll(s.store, s.clean, s.committed, b, a);
    HandledPlain(s.store, a, window);
  }

  lemma PromiseAttempt(s: State, log: seq<Message>, window: int, o: nat, a: Attempt, s': State)
    requires CleanShape(s, log) && CleanLog(s, log) && Promise(s, log, window) && s.pc == Fetched(o)
    requires o < |log| && a.m == log[o] && s.clock <= a.now && Valid(a) && CleanLog(s', log)
    requires s'.store == Redelivery.Handle(s.store, a, window) && s'.clean == s.clean
    requires s'.committed == s.committed && s'.clock == a.now
    requires s'.high == if o + 1 > s.high then o + 1 else s.high
    ensures Promise(s', log, window)
  {
    var b := Bounds(log, window, s.high, s.clock);
    assert Extend(b, o, a.now) == Bounds(log, window, s'.high, s'.clock);
    assert s.clean == s'.clean;
    AttemptKeepsAll(s.store, s.clean, s.committed, b, o, a);
    HandledPlain(s.store, a, window);
  }

  lemma PromiseOther(s: State, log: seq<Message>, window: int, e: Event, s': State)
    requires CleanShape(s, log) && CleanLog(s, log) && Promise(s, log, window) && !e.Handle?
    requires Step(s, log, window, e) == Some(s') && s.committed <= s'.committed && CleanShape(s', log)
             && CleanLog(s', log)
    ensures Promise(s', log, window)
  {
    ShorterConverges(s.store, s.clean, s.committed, Bounds(log, window, s.high, s.clock), s'.committed, |s'.clean|);
    assert s'.clean == s.clean[..|s'.clean|];
  }

  lemma PromiseStep(s: State, log: seq<Message>, window: int, e: Event, s': State)
    requires CleanInv(s, log, window) && Step(s, log, window, e) == Some(s')
    requires s.committed <= s'.committed && CleanShape(s', log) && CleanLog(s', log)
    ensures Promise(s', log, window)
  {
    if !e.Handle? {
      PromiseOther(s, log, window, e, s');
    } else if e.ok && s.good == s.pc.offset {
      PromiseSuccess(s, log, window, Attempt(log[s.good], e.now, e.done), s');
    } else {
      PromiseAttempt(s, log, window, s.pc.offset, Attempt(log[s.pc.offset], e.now, e.done), s');
    }
  }

  lemma CleanStep(s: State, log: seq<Message>, window: int, e: Event, s': State)
    requires CleanInv(s, log, window) && Step(s, log, window, e) == Some(s') && NoGapCommitted(s')
    ensures CleanInv(s', log, window)
  {
    OffsetsStep(s, log, window, e);
    ShapeStep(s, log, window, e, s');
    PromiseStep(s, log, window, e, s');
  }

  /** Every state of a run has committed only what its session handled without a gap. */
  ghost predicate GapFree(s: State, log: seq<Message>, window: int, es: seq<Event>)
    decreases |es|
  {
    NoGapCommitted(s) &&
    (es != [] && Step(s, log, window, es[0]).Some? ==> GapFree(Step(s, log, window, es[0]).value, log, window, es[1..]))
  }

  lemma {:induction false} CleanRun(s: State, log: seq<Message>, window: int, es: seq<Event>)
    requires CleanInv(s, log, window) && Exec(s, log, window, es).Some? && GapFree(s, log, window, es)
    ensures CleanInv(Exec(s, log, window, es).value, log, window)
    decreases |es|
  {
    if es != [] {
      CleanStep(s, log, window, es[0], Step(s, log, window, es[0]).value);
      CleanRun(Step(s, log, window, es[0]).value, log, window, es[1..]);
    }
  }

  lemma InitIsClean(clock: int, log: seq<Message>, window: int)
    ensures CleanInv(Init(clock), log, window)
  {
    var none: seq<Attempt> := [];
    assert none[..0] == none;
    assert ConvergesAt(Empty(), none, 0, Bounds(log, window, 0, clock));
  }

  /** Exactly-once effect of one consumer on a store of its own. Take any run in which no commit jumps
      over a message its session failed on: crashes and restarts anywhere, partially applied
      handlers, failed commits. Whenever the session has caught up with everything ever attempted,
      the store holds what handling messages 0, 1, 2, ... once each, in order and without any failure
      would have left. */
  lemma CrashesDoNotShowAlone(clock: int, log: seq<Message>, window: int, es: seq<Event>)
    requires Exec(Init(clock), log, window, es).Some? && GapFree(Init(clock), log, window, es)
    requires var s := Exec(Init(clock), log, window, es).value; s.good == s.position && s.high <= s.position
    ensures var s := Exec(Init(clock), log, window, es).value;
            && |s.clean| == s.position <= |log| && AllComplete(s.clean)
            && (forall i | 0 <= i < |s.clean| :: s.clean[i].m == log[i])
            && Agree(s.store, Run(Empty(), s.clean, window))
  {
    InitIsClean(clock, log, window);
    CleanRun(Init(clock), log, window, es);
    var s := Exec(Init(clock), log, window, es).value;
    assert ConvergesAt(s.store, s.clean, s.good, Bounds(log, window, s.high, s.clock));
    assert Covers([], log, s.good);
    assert s.clean[..s.good] == s.clean;
    assert Run(s.store, [], window) == s.store;
  }

  // ---------------------------------------------------------------- a restart repairs

  /** Fetching, handling and committing the message at the position, all without failure. */
  function Smoothly(s: State, log: seq<Message>): seq<Event>
    requires s.position < |log|
  {
    [Fetch, Handle(s.clock, |Writes(log[s.position], s.clock, 0)|, true), Commit(true)]
  }

  predicate AtHead(s: State, log: seq<Message>) {
    s.pc.Idle? && s.good == s.position == s.committed <= |log| && s.high <= |log|
  }

  lemma SmoothStep(s: State, log: seq<Message>, window: int) returns (s': State)
    requires AtHead(s, log) && s.position < |log|
    ensures Exec(s, log, window, Smoothly(s, log)) == Some(s')
    ensures AtHead(s', log) && s'.position == s.position + 1
    ensures GapFree(s, log, window, Smoothly(s, log))
  {
    var h := Handle(s.clock, |Writes(log[s.position], s.clock, 0)|, true);
    var s1 := Step(s, log, window, Fetch).value;
    var s2 := Step(s1, log, window, h).value;
    s' := Step(s2, log, window, Commit(true)).value;
    ExecOne(s2, log, window, Commit(true), []);
    ExecOne(s1, log, window, h, [Commit(true)]);
    ExecOne(s, log, window, Fetch, [h, Commit(true)]);
    assert [Fetch] + [h, Commit(true)] == Smoothly(s, log) && [h] + [Commit(true)] == [h, Commit(true)]
           && [Commit(true)] + [] == [Commit(true)];
    SmoothIsGapFree(s, s1, s2, s', log, window, h);
  }

  lemma SmoothIsGapFree(s: State, s1: State, s2: State, s': State, log: seq<Message>, window: int, h: Event)
    requires Step(s, log, window, Fetch) == Some(s1) && Step(s1, log, window, h) == Some(s2)
    requires Step(s2, log, window, Commit(true)) == Some(s')
    requires NoGapCommitted(s) && NoGapCommitted(s1) && NoGapCommitted(s2) && NoGapCommitted(s')
    ensures GapFree(s, log, window, [Fetch, h, Commit(true)])
  {
    var es := [Fetch, h, Commit(true)];
    assert es[1..] == [h, Commit(true)] && [h, Commit(true)][1..] == [Commit(true)] && [Commit(true)][1..] == [];
    assert GapFree(s', log, window, []);
    assert GapFree(s2, log, window, [Commit(true)]);
    assert GapFree(s1, log, window, [h, Commit(true)]);
  }

  lemma {:induction false} GapFreeAppend(s: State, log: seq<Message>, window: int, a: seq<Event>, b: seq<Event>)
    requires Exec(s, log, window, a).Some? && GapFree(s, log, window, a)
    requires GapFree(Exec(s, log, window, a).value, log, window, b)
    ensures GapFree(s, log, window, a + b)
    decreases |a|
  {
    if a == [] {
      assert a + b == b;
    } else {
      assert (a + b)[1..] == a[1..] + b && (a + b)[0] == a[0];
      GapFreeAppend(Step(s, log, window, a[0]).value, log, window, a[1..], b);
    }
  }

  lemma {:induction false} PassThrough(s: State, log: seq<Message>, window: int) returns (es: seq<Event>)
    requires AtHead(s, log)
    ensures Exec(s, log, window, es).Some? && GapFree(s, log, window, es)
    ensures AtHead(Exec(s, log, window, es).value, log) && Exec(s, log, window, es).value.position == |log|
    decreases |log| - s.position
  {
    if s.position == |log| {
      es := [];
    } else {
      var s1 := SmoothStep(s, log, window);
      var rest := PassThrough(s1, log, window);
      ExecAppend(s, log, window, Smoothly(s, log), rest);
      GapFreeAppend(s, log, window, Smoothly(s, log), rest);
      es := Smoothly(s, log) + rest;
    }
  }

  predicate InLog(s: State, log: seq<Message>) {
    s.high <= |log|
  }

  lemma {:induction false} StaysInLog(s: State, log: seq<Message>, window: int, es: seq<Event>)
    requires InLog(s, log) && Exec(s, log, window, es).Some?
    ensures InLog(Exec(s, log, window, es).value, log)
    decreases |es|
  {
    if es != [] {
      StaysInLog(Step(s, log, window, es[0]).value, log, window, es[1..]);
    }
  }

  /** What crashes and failures have left is always repaired: after any run that committed over no
      failure, a restart and one undisturbed pass commit the whole log and leave in the store what
      handling every message once, in order, would have. */
  lemma RestartRepairs(clock: int, log: seq<Message>, window: int, es: seq<Event>) returns (more: seq<Event>)
    requires Exec(Init(clock), log, window, es).Some? && GapFree(Init(clock), log, window, es)
    ensures Exec(Init(clock), log, window, es + more).Some?
    ensures var s := Exec(Init(clock), log, window, es + more).value;
            && s.committed == |log| == |s.clean| && AllComplete(s.clean)
            && (forall i | 0 <= i < |log| :: s.clean[i].m == log[i])
            && Agree(s.store, Run(Empty(), s.clean, window))
  {
    var s := Exec(Init(clock), log, window, es).value;
    OffsetsRun(Init(clock), log, window, es);
    StaysInLog(Init(clock), log, window, es);
    var s1 := Step(s, log, window, Restart).value;
    var pass := PassThrough(s1, log, window);
    ExecOne(s, log, window, Restart, pass);
    RestartIsGapFree(s, log, window, pass);
    more := [Restart] + pass;
    ExecAppend(Init(clock), log, window, es, more);
    GapFreeAtEnd(Init(clock), log, window, es);
    GapFreeAppend(Init(clock), log, window, es, more);
    CrashesDoNotShowAlone(clock, log, window, es + more);
  }

  lemma RestartIsGapFree(s: State, log: seq<Message>, window: int, pass: seq<Event>)
    requires GapFree(Step(s, log, window, Restart).value, log, window, pass)
    ensures NoGapCommitted(s) ==> GapFree(s, log, window, [Restart] + pass)
  {
    assert ([Restart] + pass)[1..] == pass;
  }

  lemma {:induction false} GapFreeAtEnd(s: State, log: seq<Message>, window: int, es: seq<Event>)
    requires Exec(s, log, window, es).Some? && GapFree(s, log, window, es)
    ensures NoGapCommitted(Exec(s, log, window, es).value)
    decreases |es|
  {
    if es != [] {
      GapFreeAtEnd(Step(s, log, window, es[0]).value, log, window, es[1..]);
    }
  }
}
