/** What the adapter's goroutines can still do: Close is never stuck, and a reconnect can go every way
    its network calls let it. */
module AdapterProgress {
  import opened Prelude
  import opened AdapterLifecycle
  import opened AdapterSafety
  import opened AdapterClose
  import R = AdapterRetry

  // ---------------------------------------------------------------- a stopped goroutine can end

  /** The environment's answer that brings a stopped goroutine closer to its end. */
  function Choose(pc: Pc): Choice {
    match pc
    case Reading(r) => if r.Read? then Fail else Go
    case Keeping(k) => if k.Wait? then Stop else Go
    case _ => Go
  }

  function ReconnectRank(c: RecPc): nat {
    match c
    case Want => 16
    case Check => 15
    case Count => 14
    case DropLock => 13
    case DropOld => 12
    case DropUnlock => 11
    case Sleep(_) => 11
    case Loop(_) => 10
    case MakeKey(_) => 9
    case KeyLock(_) => 8
    case KeySet(_) => 7
    case KeyUnlock(_) => 6
    case Dial(_) => 5
    case InstLock(_) => 4
    case Inst(_) => 3
    case InstUnlock => 2
    case Ret(_) => 1
  }

  /** Steps to the end of a stopped goroutine, at most. */
  function Rank(pc: Pc): nat {
    match pc
    case Reading(Top) => 1
    case Reading(ReadErr) => 1
    case Reading(Read(_)) => 2
    case Reading(Unlock(_)) => 3
    case Reading(Peek) => 4
    case Reading(Lock) => 5
    case Reading(Handle(todo)) => 2 + |todo|
    case Keeping(Wait) => 1
    case Keeping(Put) => 2
    case Reconnecting(c) => 2 + ReconnectRank(c)
    case _ => 0
  }

  /** Stopped, the output channels still open, and no lock in another goroutine's hands. */
  predicate Free(g: Shared, u: nat) {
    && g.shut.closed && g.shut.stopCloses > 0 && g.shut.chanLog == [] && !g.shut.panicked
    && (g.mu.ws.None? || g.mu.ws == Some(u)) && (g.mu.rec.None? || g.mu.rec == Some(u))
  }

  lemma ReconnectEnds(g: Shared, u: nat, role: Role, c: RecPc)
    requires Free(g, u) && LockOk(g.mu, u, Reconnecting(c)) && !role.Closer?
    ensures var o := StepReconnect(g, u, role, c, Go);
            && o.Next? && !o.spawned && Free(o.g, u) && o.g.shut == g.shut.(tokens := o.g.shut.tokens)
            && Rank(o.pc) < Rank(Reconnecting(c))
  {
  }

  lemma GoroutineEnds(g: Shared, u: nat, th: Thread)
    requires Free(g, u) && LockOk(g.mu, u, th.pc) && !th.pc.Exited? && !th.pc.Shutting? && !th.role.Closer?
    ensures var o := StepThread(g, u, th, Choose(th.pc));
            && o.Next? && !o.spawned && Free(o.g, u) && o.g.shut == g.shut.(tokens := o.g.shut.tokens)
            && Rank(o.pc) < Rank(th.pc)
  {
    match th.pc
    case Reconnecting(c) => ReconnectEnds(g, u, th.role, c);
    case _ =>
  }

  /** The other goroutines and the shutdown are where they were. */
  predicate Beside(s: State, s': State, u: nat) {
    && |s'.threads| == |s.threads| && s'.g.shut == s.g.shut.(tokens := s'.g.shut.tokens)
    && forall v | 0 <= v < |s.threads| && v != u :: s'.threads[v] == s.threads[v]
  }

  predicate Ending(s: State, u: nat) {
    Inv(s) && u < |s.threads| && !s.threads[u].role.Closer? && Free(s.g, u)
  }

  lemma EndStep(s: State, u: nat)
    requires Ending(s, u) && !s.threads[u].pc.Exited?
    ensures var s1 := Step(s, Run(u, Choose(s.threads[u].pc)));
            s1.Some? && Ending(s1.value, u) && Beside(s, s1.value, u)
            && Rank(s1.value.threads[u].pc) < Rank(s.threads[u].pc)
  {
    assert Ok(s.g, u, s.threads[u]);
    GoroutineEnds(s.g, u, s.threads[u]);
    StepKeepsInv(s, Run(u, Choose(s.threads[u].pc)));
  }

  /** Left alone, it ends and holds no lock. */
  lemma {:induction false} Finish(s: State, u: nat) returns (es: seq<Event>)
    requires Ending(s, u)
    ensures Exec(s, es).Some?
    ensures var s' := Exec(s, es).value;
            Ending(s', u) && Beside(s, s', u) && s'.threads[u].pc.Exited? && s'.g.mu == Mutexes(None, None)
    decreases Rank(s.threads[u].pc)
  {
    if s.threads[u].pc.Exited? {
      es := [];
      assert Ok(s.g, u, s.threads[u]);
    } else {
      var e := Run(u, Choose(s.threads[u].pc));
      EndStep(s, u);
      var rest := Finish(Step(s, e).value, u);
      Prepend(s, e, rest);
      es := [e] + rest;
    }
  }

  // ---------------------------------------------------------------- Close can always end

  /** A Close call that has told everybody to stop and is not past its wait. */
  predicate Closing(s: State, t: nat) {
    && t < |s.threads| && s.threads[t].pc.Shutting? && !s.g.shut.panicked
    && var x := s.threads[t].pc.x;
       x.WsLock? || x.WsClose? || x.WsUnlock? || x.Await?
  }

  lemma ClosingIsStopped(s: State, t: nat)
    requires Inv(s) && Closing(s, t)
    ensures s.g.shut.closed && s.g.shut.stopCloses > 0 && s.g.shut.chanLog == [] && !s.g.shut.timedOut
    ensures s.threads[t].role.Closer? && t >= 2
  {
    assert Ok(s.g, t, s.threads[t]);
  }

  /** wsMu is free, or belongs to the reconnect under way. */
  predicate WsWithRec(g: Shared) {
    g.mu.ws.None? || g.mu.ws == g.mu.rec
  }

  lemma WsHolder(s: State, t: nat)
    requires Inv(s) && Closing(s, t) && !WsWithRec(s.g)
    ensures var h := s.g.mu.ws.value;
            && s.g.mu.ws.Some? && h < |s.threads|
            && (h == t || h == 0)
            && (h == 0 ==> s.threads[0].pc.Reading? && (s.threads[0].pc.r.Peek? || s.threads[0].pc.r.Unlock?))
            && (h == t ==> s.threads[t].pc.x.WsClose? || s.threads[t].pc.x.WsUnlock?)
  {
    var h := s.g.mu.ws.value;
    assert Ok(s.g, t, s.threads[t]) && Ok(s.g, h, s.threads[h]);
  }

  lemma LetGoOnce(s: State, t: nat, h: nat)
    requires Inv(s) && Closing(s, t) && s.g.mu.ws == Some(h) && h < |s.threads|
    requires h == t ==> s.threads[t].pc.x.WsClose? || s.threads[t].pc.x.WsUnlock?
    requires h != t ==> h == 0 && s.threads[0].pc.Reading? && (s.threads[0].pc.r.Peek? || s.threads[0].pc.r.Unlock?)
    ensures var s1 := Step(s, Run(h, Go));
            && s1.Some? && Closing(s1.value, t) && s1.value.g.mu.rec == s.g.mu.rec
            && (s1.value.g.mu.ws.None? || (s1.value.g.mu.ws == Some(h) && HoldersStep(s, s1.value, t, h)))
  {
    ClosingIsStopped(s, t);
    assert Ok(s.g, h, s.threads[h]);
  }

  /** It was the first of its two steps under the lock. */
  predicate HoldersStep(s: State, s1: State, t: nat, h: nat)
    requires t < |s.threads| && h < |s.threads| && Closing(s, t) && Closing(s1, t)
  {
    if h == t then s.threads[t].pc.x.WsClose? && s1.threads[t].pc.x.WsUnlock?
    else s.threads[h].pc == Reading(Peek) && h < |s1.threads| && s1.threads[h].pc.Reading? && s1.threads[h].pc.r.Unlock?
  }

  lemma LetGo(s: State, t: nat) returns (es: seq<Event>)
    requires Inv(s) && Closing(s, t)
    ensures Exec(s, es).Some? && Inv(Exec(s, es).value) && Closing(Exec(s, es).value, t)
    ensures WsWithRec(Exec(s, es).value.g)
  {
    if WsWithRec(s.g) {
      es := [];
    } else {
      WsHolder(s, t);
      var h := s.g.mu.ws.value;
      LetGoOnce(s, t, h);
      var s1 := Step(s, Run(h, Go)).value;
      StepKeepsInv(s, Run(h, Go));
      es := [Run(h, Go)];
      Prepend(s, Run(h, Go), []);
      if !s1.g.mu.ws.None? {
        LetGoOnce(s1, t, h);
        StepKeepsInv(s1, Run(h, Go));
        Prepend(s1, Run(h, Go), []);
        ExecAppend(s, es, [Run(h, Go)]);
        es := es + [Run(h, Go)];
      }
    }
  }

  lemma Waits(s: State, t: nat, u: nat) returns (es: seq<Event>)
    requires Inv(s) && Closing(s, t) && Ending(s, u)
    ensures Exec(s, es).Some?
    ensures var s' := Exec(s, es).value;
            && Inv(s') && Closing(s', t) && s'.threads[t] == s.threads[t] && Beside(s, s', u)
            && s'.threads[u].pc.Exited? && s'.g.mu == Mutexes(None, None) && Free(s'.g, u)
  {
    ClosingIsStopped(s, t);
    es := Finish(s, u);
  }

  /** Whoever holds the reconnect lock ends. */
  lemma AllLocksFree(s: State, t: nat) returns (es: seq<Event>)
    requires Inv(s) && Closing(s, t) && WsWithRec(s.g)
    ensures Exec(s, es).Some?
    ensures var s' := Exec(s, es).value; Inv(s') && Closing(s', t) && s'.g.mu == Mutexes(None, None)
  {
    ClosingIsStopped(s, t);
    if s.g.mu.rec.None? {
      es := [];
    } else {
      var r := s.g.mu.rec.value;
      assert Ok(s.g, r, s.threads[r]);
      es := Waits(s, t, r);
    }
  }

  lemma LoopsEnd(s: State, t: nat) returns (es: seq<Event>)
    requires Inv(s) && Closing(s, t) && s.g.mu == Mutexes(None, None)
    ensures Exec(s, es).Some?
    ensures var s' := Exec(s, es).value;
            && Inv(s') && Closing(s', t) && s'.g.mu == Mutexes(None, None)
            && s'.threads[0].pc.Exited? && s'.threads[1].pc.Exited?
  {
    ClosingIsStopped(s, t);
    assert Ok(s.g, 0, s.threads[0]) && Ok(s.g, 1, s.threads[1]);
    var a := Waits(s, t, 0);
    var s1 := Exec(s, a).value;
    assert s1.threads[1] == s.threads[1];
    var b := Waits(s1, t, 1);
    assert Exec(s1, b).value.threads[0] == s1.threads[0];
    ExecAppend(s, a, b);
    es := a + b;
  }

  /** Nobody is left to wait for. */
  predicate Alone(s: State, t: nat) {
    Inv(s) && Closing(s, t) && s.g.mu == Mutexes(None, None) && s.threads[0].pc.Exited? && s.threads[1].pc.Exited?
  }

  lemma ReachesWait(s: State, t: nat) returns (es: seq<Event>)
    requires Alone(s, t)
    ensures Exec(s, es).Some? && Alone(Exec(s, es).value, t) && Exec(s, es).value.threads[t].pc.x.Await?
  {
    ClosingIsStopped(s, t);
    assert Ok(s.g, t, s.threads[t]);
    var m := s;
    es := [];
    if s.threads[t].pc.x.WsLock? {
      es, m := Then(s, es, m, Run(t, Go));
      es, m := Then(s, es, m, Run(t, Go));
      es, m := Then(s, es, m, Run(t, Go));
    }
    RunKeepsInv(s, es);
  }

  lemma WaitIsOver(s: State, t: nat)
    requires Alone(s, t) && s.threads[t].pc.x.Await?
    ensures var s1 := Step(s, Run(t, Go));
            && s1.Some? && |s1.value.threads| == |s.threads| && s1.value.threads[t].pc == Shutting(CloseChans(0))
            && s1.value.g.shut == s.g.shut.(phase := Waited) && s.g.shut.chanLog == []
            && s1.value.threads[0].pc.Exited? && s1.value.threads[1].pc.Exited?
  {
    ClosingIsStopped(s, t);
    assert Ok(s.g, 0, s.threads[0]) && Ok(s.g, 1, s.threads[1]) && Ok(s.g, t, s.threads[t]);
    assert s.g.shut.tokens == {};
  }

  /** The remaining channels, one after the other. */
  lemma {:induction false} ClosesRest(s: State, t: nat, n: nat) returns (es: seq<Event>)
    requires t < |s.threads| && n <= |CLOSE_ORDER| && s.threads[t].pc == Shutting(CloseChans(n)) && !s.g.shut.panicked
    ensures Exec(s, es).Some?
    ensures var s' := Exec(s, es).value;
            && |s'.threads| == |s.threads| && s'.threads[t].pc.Exited?
            && s'.g.shut == s.g.shut.(chanLog := s.g.shut.chanLog + CLOSE_ORDER[n..])
            && forall v | 0 <= v < |s.threads| && v != t :: s'.threads[v] == s.threads[v]
    decreases |CLOSE_ORDER| - n
  {
    var s1 := Step(s, Run(t, Go)).value;
    if n == |CLOSE_ORDER| {
      es := [Run(t, Go)];
      Prepend(s, Run(t, Go), []);
      assert s.g.shut.chanLog + CLOSE_ORDER[n..] == s.g.shut.chanLog;
    } else {
      var rest := ClosesRest(s1, t, n + 1);
      Prepend(s, Run(t, Go), rest);
      es := [Run(t, Go)] + rest;
      assert s.g.shut.chanLog + [CLOSE_ORDER[n]] + CLOSE_ORDER[n + 1..] == s.g.shut.chanLog + CLOSE_ORDER[n..];
    }
  }

  /** Close has returned, after both loops and without giving up on them, and closed every channel. */
  predicate ClosedInOrder(s: State, t: nat) {
    && |s.threads| > t >= 2 && s.threads[t].pc.Exited? && s.threads[0].pc.Exited? && s.threads[1].pc.Exited?
    && s.g.shut.chanLog == CLOSE_ORDER && !s.g.shut.timedOut && !s.g.shut.panicked
  }

  lemma AloneEnds(s: State, t: nat) returns (es: seq<Event>)
    requires Alone(s, t)
    ensures Exec(s, es).Some? && ClosedInOrder(Exec(s, es).value, t)
  {
    ClosingIsStopped(s, t);
    var a := ReachesWait(s, t);
    var s1 := Exec(s, a).value;
    ClosingIsStopped(s1, t);
    WaitIsOver(s1, t);
    var s2 := Step(s1, Run(t, Go)).value;
    var b := ClosesRest(s2, t, 0);
    assert [] + CLOSE_ORDER[0..] == CLOSE_ORDER;
    Prepend(s1, Run(t, Go), b);
    ExecAppend(s, a, [Run(t, Go)] + b);
    es := a + ([Run(t, Go)] + b);
  }

  /** Close is never stuck: whatever else is going on, once it has told everybody to stop there is a
      continuation, without its timer, in which both loops end, it closes every channel and returns. */
  lemma CloseCanFinish(s: State, t: nat) returns (es: seq<Event>)
    requires Reachable(s) && Closing(s, t)
    ensures Exec(s, es).Some? && ClosedInOrder(Exec(s, es).value, t)
  {
    ReachableInv(s);
    var a := LetGo(s, t);
    var s1 := Exec(s, a).value;
    var b := AllLocksFree(s1, t);
    var s2 := Exec(s1, b).value;
    var c := LoopsEnd(s2, t);
    var d := AloneEnds(Exec(s2, c).value, t);
    ExecAppend(s2, c, d);
    ExecAppend(s1, b, c + d);
    ExecAppend(s, a, b + (c + d));
    es := a + (b + (c + d));
  }

  // ---------------------------------------------------------------- a reconnect can go every way

  /** A keep-alive that succeeds changes nothing, however often. */
  lemma {:induction false} KeepAlivesChangeNothing(s: State, n: nat) returns (es: seq<Event>)
    requires |s.threads| >= 2 && s.threads[1] == Thread(Keeper, Keeping(Wait)) && !s.g.shut.panicked
    ensures |es| == 2 * n && (forall i | 0 <= i < |es| :: es[i] == Run(1, Go)) && Exec(s, es) == Some(s)
  {
    if n == 0 {
      es := [];
    } else {
      var rest := KeepAlivesChangeNothing(s, n - 1);
      var s1 := Step(s, Run(1, Go)).value;
      assert Step(s1, Run(1, Go)).value.threads == s.threads;
      Prepend(s1, Run(1, Go), rest);
      Prepend(s, Run(1, Go), [Run(1, Go)] + rest);
      es := [Run(1, Go)] + ([Run(1, Go)] + rest);
    }
  }

  /** Reconnect t is at the top of its retry loop, wsMu is free and nobody has called stop. */
  predicate Retrying(s: State, t: nat, a: Attempt) {
    && t < |s.threads| && s.threads[t].pc == Reconnecting(Loop(a))
    && s.g.mu.ws.None? && s.g.shut.stopCloses == 0 && !s.g.shut.panicked
  }

  lemma KeyRequested(s: State, t: nat, a: Attempt) returns (es: seq<Event>, s': State)
    requires Retrying(s, t, a) && a.i < MAX_ATTEMPTS
    ensures Exec(s, es) == Some(s') && t < |s'.threads| && s'.threads[t].pc == Reconnecting(MakeKey(a))
    ensures s'.g == s.g
  {
    es, s' := [], s;
    es, s' := Then(s, es, s', Run(t, Go));
  }

  lemma KeyStored(s: State, t: nat, a: Attempt) returns (es: seq<Event>, s': State)
    requires t < |s.threads| && s.threads[t].pc == Reconnecting(KeyLock(a)) && s.g.mu.ws.None? && !s.g.shut.panicked
    ensures Exec(s, es) == Some(s') && t < |s'.threads| && s'.threads[t].pc == Reconnecting(Dial(a)) && s'.g == s.g
  {
    es, s' := [], s;
    es, s' := Then(s, es, s', Run(t, Go));
    es, s' := Then(s, es, s', Run(t, Go));
    es, s' := Then(s, es, s', Run(t, Go));
  }

  lemma KeyMade(s: State, t: nat, a: Attempt) returns (es: seq<Event>, s': State)
    requires t < |s.threads| && s.threads[t].pc == Reconnecting(MakeKey(a)) && s.g.mu.ws.None? && !s.g.shut.panicked
    ensures Exec(s, es) == Some(s') && t < |s'.threads| && s'.threads[t].pc == Reconnecting(Dial(a))
    ensures s'.g == s.g.(tally := s.g.tally.(keys := s.g.tally.keys + 1))
  {
    var s1 := Step(s, Run(t, Go)).value;
    var rest;
    rest, s' := KeyStored(s1, t, a);
    Prepend(s, Run(t, Go), rest);
    es := [Run(t, Go)] + rest;
  }

  /** The call fails, and the next attempt begins after the sleep. */
  lemma CallFails(s: State, t: nat, a: Attempt) returns (es: seq<Event>, s': State)
    requires t < |s.threads| && s.threads[t].pc in {Reconnecting(MakeKey(a)), Reconnecting(Dial(a))}
    requires s.g.mu.ws.None? && s.g.shut.stopCloses == 0 && !s.g.shut.panicked
    ensures Exec(s, es) == Some(s') && Retrying(s', t, NextAttempt(a)) && s'.g == s.g
  {
    es, s' := [], s;
    es, s' := Then(s, es, s', Run(t, Fail));
    es, s' := Then(s, es, s', Run(t, Go));
  }

  lemma DialStored(s: State, t: nat, c: nat) returns (es: seq<Event>, s': State)
    requires t < |s.threads| && s.threads[t].pc == Reconnecting(InstLock(c)) && s.g.mu.ws.None? && !s.g.shut.panicked
    ensures Exec(s, es) == Some(s') && t < |s'.threads| && s'.threads[t].pc == Reconnecting(Ret(true))
    ensures s'.g.wire.wsConn == Some(c) && s'.g.tally == s.g.tally
  {
    es, s' := [], s;
    es, s' := Then(s, es, s', Run(t, Go));
    es, s' := Then(s, es, s', Run(t, Go));
    es, s' := Then(s, es, s', Run(t, Go));
  }

  lemma DialWorks(s: State, t: nat, a: Attempt) returns (es: seq<Event>, s': State)
    requires t < |s.threads| && s.threads[t].pc == Reconnecting(Dial(a)) && s.g.mu.ws.None? && !s.g.shut.panicked
    ensures Exec(s, es) == Some(s') && t < |s'.threads| && s'.threads[t].pc == Reconnecting(Ret(true))
    ensures s'.g.wire.wsConn == Some(s.g.wire.nextConn)
    ensures s'.g.tally == s.g.tally.(dials := s.g.tally.dials + 1)
  {
    var s1 := Step(s, Run(t, Go)).value;
    var rest;
    rest, s' := DialStored(s1, t, s.g.wire.nextConn);
    Prepend(s, Run(t, Go), rest);
    es := [Run(t, Go)] + rest;
  }

  /** How a reconnect ended: it succeeded or gave up, and what it made on the way. */
  predicate Ended(s: State, s': State, t: nat, ok: bool, keys: nat) {
    && t < |s'.threads| && s'.threads[t].pc == Reconnecting(Ret(ok))
    && s'.g.tally.keys == s.g.tally.keys + keys
    && s'.g.tally.dials == s.g.tally.dials + (if ok then 1 else 0)
    && (ok ==> s'.g.wire.wsConn == Some(s.g.wire.nextConn))
  }

  lemma GivesUp(s: State, t: nat, a: Attempt) returns (es: seq<Event>)
    requires Retrying(s, t, a) && a.i == MAX_ATTEMPTS
    ensures Exec(s, es).Some? && Ended(s, Exec(s, es).value, t, false, 0)
  {
    var s';
    es, s' := [], s;
    es, s' := Then(s, es, s', Run(t, Go));
  }

  lemma Connects(s: State, t: nat, a: Attempt) returns (es: seq<Event>)
    requires Retrying(s, t, a) && a.i < MAX_ATTEMPTS
    ensures Exec(s, es).Some? && Ended(s, Exec(s, es).value, t, true, 1)
  {
    var x, s1 := KeyRequested(s, t, a);
    var y, s2 := KeyMade(s1, t, a);
    var z, s3 := DialWorks(s2, t, a);
    ExecAppend(s1, y, z);
    ExecAppend(s, x, y + z);
    es := x + (y + z);
  }

  lemma OneFails(s: State, t: nat, a: Attempt, try: R.Try) returns (es: seq<Event>, s': State)
    requires Retrying(s, t, a) && a.i < MAX_ATTEMPTS && R.Fails(try)
    ensures Exec(s, es) == Some(s') && Retrying(s', t, NextAttempt(a)) && s'.g.wire == s.g.wire
    ensures s'.g.tally == s.g.tally.(keys := s.g.tally.keys + if try.DialFails? then 1 else 0)
  {
    var x, s1 := KeyRequested(s, t, a);
    if try.KeyFails? {
      var y;
      y, s' := CallFails(s1, t, a);
      ExecAppend(s, x, y);
      es := x + y;
    } else {
      var y, s2 := KeyMade(s1, t, a);
      var z;
      z, s' := CallFails(s2, t, a);
      ExecAppend(s1, y, z);
      ExecAppend(s, x, y + z);
      es := x + (y + z);
    }
  }

  lemma KeysOfFirst(try: R.Try, rest: seq<R.Try>)
    requires R.Fails(try)
    ensures R.Keys([try] + rest) == (if try.DialFails? then 1 else 0) + R.Keys(rest)
  {
    KeysSplit([try], rest);
    assert [try][..0] == [];
  }

  lemma {:induction false} KeysSplit(a: seq<R.Try>, b: seq<R.Try>)
    ensures R.Keys(a + b) == R.Keys(a) + R.Keys(b)
  {
    if b == [] {
      assert a + b == a;
    } else {
      assert (a + b)[..|a| + |b| - 1] == a + b[..|b| - 1];
      KeysSplit(a, b[..|b| - 1]);
    }
  }

  /** The attempts that decide: the failures before the first that connects, and that one. */
  function Decisive(tries: seq<R.Try>): seq<R.Try> {
    var k := R.Failures(tries);
    if k < |tries| then tries[..k + 1] else tries
  }

  lemma DecisiveAfterFailure(tries: seq<R.Try>)
    requires tries != [] && R.Fails(tries[0])
    ensures R.Failures(tries) == 1 + R.Failures(tries[1..]) && Decisive(tries) == [tries[0]] + Decisive(tries[1..])
  {
  }

  /** For every way its attempts can go there is a run in which the reconnect takes them one by one: it
      stores a new connection exactly if one connects before the tenth has failed, and makes one
      listenKey for each attempt up to that one whose request did not fail. */
  lemma {:induction false} ReconnectFollows(s: State, t: nat, a: Attempt, tries: seq<R.Try>) returns (es: seq<Event>)
    requires Retrying(s, t, a) && a.i + |tries| == MAX_ATTEMPTS && forall i | 0 <= i < |tries| :: !tries[i].Stopped?
    ensures Exec(s, es).Some?
    ensures Ended(s, Exec(s, es).value, t, R.Failures(tries) < |tries|, R.Keys(Decisive(tries)))
    decreases |tries|
  {
    if tries == [] {
      es := GivesUp(s, t, a);
    } else if R.Fails(tries[0]) {
      var x, s1 := OneFails(s, t, a, tries[0]);
      DecisiveAfterFailure(tries);
      KeysOfFirst(tries[0], Decisive(tries[1..]));
      var rest := ReconnectFollows(s1, t, NextAttempt(a), tries[1..]);
      ExecAppend(s, x, rest);
      es := x + rest;
    } else {
      es := Connects(s, t, a);
      assert Decisive(tries) == [tries[0]] && [tries[0]][..0] == [];
    }
  }

  /** A send on a closed channel ends the process: nothing runs after it. */
  lemma PanicIsFinal(s: State, es: seq<Event>)
    requires s.g.shut.panicked && Exec(s, es).Some?
    ensures es == []
  {
  }
}
