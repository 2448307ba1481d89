/** How Close ends when it races with reconnects, and when it gives up waiting for the read loop. */
module AdapterClose {
  import opened Prelude
  import opened AdapterLifecycle
  import opened AdapterSafety
  import opened AdapterTheorems

  // ---------------------------------------------------------------- schedules

  lemma {:induction false} ExecAppend(s: State, a: seq<Event>, b: seq<Event>)
    requires Exec(s, a).Some?
    ensures Exec(s, a + b) == Exec(Exec(s, a).value, b)
    decreases |a|
  {
    if a == [] {
      assert a + b == b;
    } else {
      assert (a + b)[1..] == a[1..] + b;
      ExecAppend(Step(s, a[0]).value, a[1..], b);
    }
  }

  lemma Then(s: State, es: seq<Event>, m: State, e: Event) returns (es': seq<Event>, m': State)
    requires Exec(s, es) == Some(m) && Step(m, e).Some?
    ensures es' == es + [e] && Step(m, e) == Some(m') && Exec(s, es') == Some(m')
  {
    es', m' := es + [e], Step(m, e).value;
    ExecAppend(s, es, [e]);
    assert [e][1..] == [];
    assert Exec(m', []) == Some(m');
  }

  lemma Prepend(s: State, e: Event, rest: seq<Event>)
    requires Step(s, e).Some? && Exec(Step(s, e).value, rest).Some?
    ensures Exec(s, [e] + rest) == Exec(Step(s, e).value, rest)
  {
    assert ([e] + rest)[1..] == rest;
  }

  // ---------------------------------------------------------------- what can leak when Close claims the flag

  /** A reconnect that read the flag before Close set it and can still store a connection after
      Close's locked section: every position from the closed check to the wait for wsMu, except
      after the tenth attempt. One that is storing already holds wsMu, so Close drops what it stores. */
  predicate CanStillLeak(pc: Pc) {
    pc.Reconnecting? &&
    match pc.c
    case Loop(a) => a.i < MAX_ATTEMPTS
    case Sleep(a) => a.i + 1 < MAX_ATTEMPTS
    case Want | Check | Inst(_) | InstUnlock | Ret(_) => false
    case _ => true
  }

  /** Closed, and nobody can leak any more. */
  predicate Settled(s: State) {
    && s.g.shut.closed
    && (Late(s) ==> s.g.wire.wsConn.None?)
    && forall t | 0 <= t < |s.threads| :: SettledPc(s.g.shut, s.threads[t].pc)
  }

  predicate SettledPc(h: Shut, pc: Pc) {
    !CanStillLeak(pc) && (IsLate(h) ==> !(pc.Reconnecting? && pc.c.Inst?))
  }

  lemma SettledReconnect(g: Shared, t: nat, role: Role, c: RecPc, ch: Choice)
    requires g.shut.closed && SettledPc(g.shut, Reconnecting(c)) && (IsLate(g.shut) ==> g.wire.wsConn.None?)
    requires (HasAttempt(c) ==> AttemptOk(c)) && StepReconnect(g, t, role, c, ch).Next?
    ensures var o := StepReconnect(g, t, role, c, ch);
            o.g.shut.closed && SettledPc(o.g.shut, o.pc) && (IsLate(o.g.shut) ==> o.g.wire.wsConn.None?)
  {
  }

  lemma SettledThread(g: Shared, t: nat, th: Thread, ch: Choice)
    requires ShutInv(g.shut) && Ok(g, t, th) && g.shut.closed && SettledPc(g.shut, th.pc)
    requires IsLate(g.shut) ==> g.wire.wsConn.None?
    requires StepThread(g, t, th, ch).Next?
    ensures var o := StepThread(g, t, th, ch);
            o.g.shut.closed && SettledPc(o.g.shut, o.pc) && (IsLate(o.g.shut) ==> o.g.wire.wsConn.None?)
  {
    match th.pc
    case Reconnecting(c) => SettledReconnect(g, t, th.role, c, ch);
    case _ =>
  }

  /** Close ends its locked section while it holds wsMu, so nobody is storing then. */
  lemma SettledOther(g: Shared, t: nat, th: Thread, ch: Choice, u: nat, pc: Pc)
    requires LockOk(g.mu, t, th.pc) && LockOk(g.mu, u, pc) && ShutOk(g.shut, t, th) && t != u
    requires SettledPc(g.shut, pc) && StepThread(g, t, th, ch).Next?
    ensures SettledPc(StepThread(g, t, th, ch).g.shut, pc)
  {
    match th.pc
    case Reconnecting(c) =>
    case _ =>
  }

  lemma SettledStep(s: State, e: Event)
    requires Inv(s) && Settled(s) && Step(s, e).Some?
    ensures Settled(Step(s, e).value)
  {
    if e.Run? {
      var s' := Step(s, e).value;
      assert Ok(s.g, e.t, s.threads[e.t]);
      SettledThread(s.g, e.t, s.threads[e.t], e.choice);
      forall u | 0 <= u < |s'.threads|
        ensures SettledPc(s'.g.shut, s'.threads[u].pc)
      {
        if u < |s.threads| && u != e.t {
          assert Ok(s.g, u, s.threads[u]);
          SettledOther(s.g, e.t, s.threads[e.t], e.choice, u, s.threads[u].pc);
        }
      }
    }
  }

  lemma SettledMeansNoConnection(s: State)
    requires Inv(s) && Settled(s) && Late(s)
    ensures s.g.wire.open == {}
  {
    if s.g.mu.rec.Some? {
      var h := s.threads[s.g.mu.rec.value];
      assert Ok(s.g, s.g.mu.rec.value, h) && SettledPc(s.g.shut, h.pc);
    }
  }

  lemma {:induction false} SettledLeavesNothing(s: State, es: seq<Event>)
    requires Inv(s) && Settled(s) && Exec(s, es).Some?
    ensures Late(Exec(s, es).value) ==> Exec(s, es).value.g.wire.open == {}
    decreases |es|
  {
    if es == [] {
      if Late(s) {
        SettledMeansNoConnection(s);
      }
    } else {
      StepKeepsInv(s, es[0]);
      SettledStep(s, es[0]);
      SettledLeavesNothing(Step(s, es[0]).value, es[1..]);
    }
  }

  // The other half: a schedule that leaks.

  /** Close has set the flag and not yet told anybody; wsMu is free, or in reconnect u's hands. */
  predicate Racing(s: State, t: nat, u: nat) {
    && t < |s.threads| && u < |s.threads| && t != u
    && s.threads[t].pc == Shutting(SignalStop) && CanStillLeak(s.threads[u].pc)
    && s.g.shut.stopCloses == 0 && !s.g.shut.panicked
    && (s.g.mu.ws.None? || s.g.mu.ws == Some(u))
  }

  function StepsToPark(c: RecPc): nat {
    match c
    case Count => 9
    case DropLock => 8
    case DropOld => 7
    case DropUnlock => 6
    case Sleep(_) => 6
    case Loop(_) => 5
    case MakeKey(_) => 4
    case KeyLock(_) => 3
    case KeySet(_) => 2
    case KeyUnlock(_) => 1
    case _ => 0
  }

  lemma ParkReconnect(g: Shared, u: nat, role: Role, c: RecPc)
    requires CanStillLeak(Reconnecting(c)) && StepsToPark(c) > 0 && g.shut.stopCloses == 0
    requires LockOk(g.mu, u, Reconnecting(c)) && (g.mu.ws.None? || g.mu.ws == Some(u))
    ensures var o := StepReconnect(g, u, role, c, Go);
            && o.Next? && !o.spawned && o.g.shut == g.shut && (o.g.mu.ws.None? || o.g.mu.ws == Some(u))
            && CanStillLeak(o.pc) && StepsToPark(o.pc.c) < StepsToPark(c)
  {
  }

  lemma ParkMoves(s: State, t: nat, u: nat)
    requires Inv(s) && Racing(s, t, u) && StepsToPark(s.threads[u].pc.c) > 0
    ensures var s1 := Step(s, Run(u, Go));
            s1.Some? && Racing(s1.value, t, u) && StepsToPark(s1.value.threads[u].pc.c) < StepsToPark(s.threads[u].pc.c)
  {
    assert Ok(s.g, u, s.threads[u]);
    ParkReconnect(s.g, u, s.threads[u].role, s.threads[u].pc.c);
  }

  /** Reconnect u runs up to its dial, or already waits with a fresh connection. */
  lemma {:induction false} Park(s: State, t: nat, u: nat) returns (es: seq<Event>)
    requires Inv(s) && Racing(s, t, u)
    ensures Exec(s, es).Some? && Inv(Exec(s, es).value) && Racing(Exec(s, es).value, t, u)
    ensures StepsToPark(Exec(s, es).value.threads[u].pc.c) == 0
    decreases StepsToPark(s.threads[u].pc.c)
  {
    if StepsToPark(s.threads[u].pc.c) == 0 {
      es := [];
    } else {
      ParkMoves(s, t, u);
      StepKeepsInv(s, Run(u, Go));
      var s1 := Step(s, Run(u, Go)).value;
      var rest := Park(s1, t, u);
      Prepend(s, Run(u, Go), rest);
      es := [Run(u, Go)] + rest;
    }
  }

  /** Close runs through its locked section while u is parked. */
  lemma CloserPasses(s: State, t: nat, u: nat) returns (es: seq<Event>, s': State)
    requires Inv(s) && Racing(s, t, u) && StepsToPark(s.threads[u].pc.c) == 0
    ensures Exec(s, es) == Some(s') && Late(s') && !s'.g.shut.panicked && s'.g.mu.ws.None?
    ensures u < |s'.threads| && InFlight(s'.threads[u].pc)
  {
    assert Ok(s.g, u, s.threads[u]) && Ok(s.g, t, s.threads[t]);
    es, s' := [], s;
    es, s' := Then(s, es, s', Run(t, Go));
    es, s' := Then(s, es, s', Run(t, Go));
    es, s' := Then(s, es, s', Run(t, Go));
    es, s' := Then(s, es, s', Run(t, Go));
  }

  /** The read loop lets go of wsMu, if it is the one that holds it. */
  lemma ReaderLetsGo(s: State, t: nat, u: nat) returns (es: seq<Event>)
    requires Inv(s) && t < |s.threads| && u < |s.threads| && s.threads[t].pc == Shutting(SignalStop)
    requires CanStillLeak(s.threads[u].pc) && s.g.shut.stopCloses == 0 && !s.g.shut.panicked
    ensures Exec(s, es).Some? && Racing(Exec(s, es).value, t, u)
  {
    assert Ok(s.g, t, s.threads[t]) && Ok(s.g, u, s.threads[u]) && Ok(s.g, 0, s.threads[0]);
    es := [];
    var m := s;
    if s.g.mu.ws.Some? && s.g.mu.ws != Some(u) {
      HolderIsReader(s, t, u);
      if s.threads[0].pc.r.Peek? {
        es, m := Then(s, es, m, Run(0, Go));
      }
      es, m := Then(s, es, m, Run(0, Go));
    }
  }

  lemma HolderIsReader(s: State, t: nat, u: nat)
    requires Inv(s) && t < |s.threads| && u < |s.threads| && s.threads[t].pc == Shutting(SignalStop)
    requires CanStillLeak(s.threads[u].pc) && s.g.mu.ws.Some? && s.g.mu.ws != Some(u)
    ensures s.g.mu.ws == Some(0) && s.threads[0].pc.Reading? && (s.threads[0].pc.r.Peek? || s.threads[0].pc.r.Unlock?)
  {
    var h := s.g.mu.ws.value;
    assert Ok(s.g, t, s.threads[t]) && Ok(s.g, u, s.threads[u]) && Ok(s.g, h, s.threads[h]);
  }

  lemma LeakingSchedule(s: State, t: nat, u: nat) returns (es: seq<Event>)
    requires Inv(s) && t < |s.threads| && u < |s.threads| && s.threads[t].pc == Shutting(SignalStop)
    requires CanStillLeak(s.threads[u].pc) && s.g.shut.stopCloses == 0 && !s.g.shut.panicked
    ensures Exec(s, es).Some? && Late(Exec(s, es).value) && Exec(s, es).value.g.wire.open != {}
  {
    var a := ReaderLetsGo(s, t, u);
    RunKeepsInv(s, a);
    var s1 := Exec(s, a).value;
    var b := Park(s1, t, u);
    var s2 := Exec(s1, b).value;
    var c, s3 := CloserPasses(s2, t, u);
    RunKeepsInv(s2, c);
    var d := InFlightCanDial(s3, u);
    LeakIsPermanent(s3, d);
    ExecAppend(s2, c, d);
    ExecAppend(s1, b, c + d);
    ExecAppend(s, a, b + (c + d));
    es := a + (b + (c + d));
  }

  /** Exactly when Close can leave a connection behind, seen from the moment it sets the flag. */
  lemma CloseCanLeakIff(s: State, t: nat)
    requires Reachable(s) && t < |s.threads| && s.threads[t].pc == Shutting(Cas) && !s.g.shut.closed
    requires Step(s, Run(t, Go)).Some?
    ensures var s1 := Step(s, Run(t, Go)).value;
            (exists es :: Exec(s1, es).Some? && Late(Exec(s1, es).value) && Exec(s1, es).value.g.wire.open != {})
            <==> (exists u :: 0 <= u < |s.threads| && CanStillLeak(s.threads[u].pc))
  {
    ReachableInv(s);
    var s1 := Step(s, Run(t, Go)).value;
    StepKeepsInv(s, Run(t, Go));
    if u :| 0 <= u < |s.threads| && CanStillLeak(s.threads[u].pc) {
      assert s1.threads[u] == s.threads[u];
      var es := LeakingSchedule(s1, t, u);
    } else {
      assert Settled(s1);
      forall es | Exec(s1, es).Some? && Late(Exec(s1, es).value)
        ensures Exec(s1, es).value.g.wire.open == {}
      {
        SettledLeavesNothing(s1, es);
      }
    }
  }

  /** So if no reconnect is past its closed check when Close sets the flag, no connection is open
      from the end of Close's locked section on, whatever happens next. */
  lemma CloseWithoutRaceLeavesNothing(s: State, t: nat, es: seq<Event>)
    requires Reachable(s) && t < |s.threads| && s.threads[t].pc == Shutting(Cas) && !s.g.shut.closed
    requires forall u | 0 <= u < |s.threads| && s.threads[u].pc.Reconnecting? ::
               s.threads[u].pc.c.Want? || s.threads[u].pc.c.Check? || s.threads[u].pc.c.Ret?
    requires Step(s, Run(t, Go)).Some? && Exec(Step(s, Run(t, Go)).value, es).Some?
    ensures var s' := Exec(Step(s, Run(t, Go)).value, es).value;
            Late(s') ==> s'.g.wire.open == {}
  {
    CloseCanLeakIff(s, t);
    assert forall u | 0 <= u < |s.threads| :: !CanStillLeak(s.threads[u].pc);
  }

  // ---------------------------------------------------------------- it does happen

  /** A keep-alive failure has taken the keeper to its listenKey request. */
  lemma KeeperReachesRequest() returns (es: seq<Event>, s: State)
    ensures Exec(Init(), es) == Some(s)
            && s.g == Init().g.(mu := Mutexes(None, Some(1)), wire := Drop(Init().g.wire), tally := Tally(1, 1, 1))
    ensures s.threads == [Init().threads[0], Thread(Keeper, Reconnecting(MakeKey(Attempt(0, 1, 0))))]
  {
    var half, m := KeeperReconnects();
    es, s := half, m;
    es, s := Then(Init(), es, s, Run(1, Go));
    es, s := Then(Init(), es, s, Run(1, Go));
    es, s := Then(Init(), es, s, Run(1, Go));
    es, s := Then(Init(), es, s, Run(1, Go));
  }

  lemma KeeperReconnects() returns (es: seq<Event>, s: State)
    ensures Exec(Init(), es) == Some(s) && s.g == Init().g.(mu := Mutexes(None, Some(1)), tally := Tally(1, 1, 1))
    ensures s.threads == [Init().threads[0], Thread(Keeper, Reconnecting(DropLock))]
  {
    es, s := [], Init();
    es, s := Then(Init(), es, s, Run(1, Go));
    es, s := Then(Init(), es, s, Run(1, Fail));
    es, s := Then(Init(), es, s, Run(1, Go));
    es, s := Then(Init(), es, s, Run(1, Go));
    es, s := Then(Init(), es, s, Run(1, Go));
  }

  lemma CloseOvertakes(s0: State) returns (es: seq<Event>, s: State)
    requires s0.g == Init().g.(mu := Mutexes(None, Some(1)), wire := Drop(Init().g.wire), tally := Tally(1, 1, 1))
             && |s0.threads| == 2
    ensures Exec(s0, es) == Some(s) && !s.g.shut.panicked && s.g.mu.ws == Some(2)
    ensures |s.threads| == 3 && s.threads[1] == s0.threads[1] && s.threads[2] == Thread(Closer, Shutting(WsUnlock))
  {
    es, s := [], s0;
    es, s := Then(s0, es, s, CallClose);
    es, s := Then(s0, es, s, Run(2, Go));
    es, s := Then(s0, es, s, Run(2, Go));
    es, s := Then(s0, es, s, Run(2, Go));
    es, s := Then(s0, es, s, Run(2, Go));
  }

  /** A Close that finishes its locked section while that request is under way leaves a connection. */
  lemma CloseCanLeak() returns (es: seq<Event>, s: State, s1: State, more: seq<Event>)
    ensures Exec(Init(), es) == Some(s) && |s.threads| == 3 && s.threads[2].pc == Shutting(WsUnlock)
            && InFlight(s.threads[1].pc)
    ensures Step(s, Run(2, Go)) == Some(s1) && Exec(s1, more).Some? && Exec(s1, more).value.g.wire.open != {}
  {
    var a, m := KeeperReachesRequest();
    var b;
    b, s := CloseOvertakes(m);
    ExecAppend(Init(), a, b);
    es := a + b;
    RunKeepsInv(Init(), es);
    StepKeepsInv(s, Run(2, Go));
    s1 := Step(s, Run(2, Go)).value;
    more := InFlightCanDial(s1, 1);
  }

  // ---------------------------------------------------------------- when Close gives up waiting

  /** Read-loop positions that still lead to a send once stopCh is closed: a message in hand or about
      to be read from a connection it has, or will find when it next takes wsMu. A read may return a
      message from a connection Close has already closed: frames the client had buffered before. */
  predicate MayStillSend(s: State)
    requires s.threads != []
  {
    match s.threads[0].pc
    case Reading(Handle(todo)) => todo != []
    case Reading(Read(_)) => true
    case Reading(Unlock(seen)) => seen.Some?
    case Reading(Peek) => s.g.wire.wsConn.Some?
    case Reading(Lock) => s.g.wire.wsConn.Some? || exists u :: 0 <= u < |s.threads| && InFlight(s.threads[u].pc)
    case _ => false
  }

  /** Stopped, and the read loop will not send again. */
  predicate Muted(s: State) {
    |s.threads| >= 2 && s.g.shut.stopCloses > 0 && !s.g.shut.panicked && !MayStillSend(s)
  }

  lemma MutedReader(s: State, ch: Choice)
    requires Inv(s) && Muted(s) && Step(s, Run(0, ch)).Some?
    ensures Muted(Step(s, Run(0, ch)).value)
  {
    assert Ok(s.g, 0, s.threads[0]);
  }

  /** After stop, another goroutine cannot start a request, and stores a connection only if it was in
      flight and wsMu is its own. */
  lemma StoppedThread(g: Shared, t: nat, th: Thread, ch: Choice)
    requires g.shut.stopCloses > 0 && !g.shut.panicked && !th.pc.Reading? && LockOk(g.mu, t, th.pc)
    requires StepThread(g, t, th, ch).Next?
    ensures var o := StepThread(g, t, th, ch);
            && o.g.shut.stopCloses > 0 && !o.g.shut.panicked && !o.spawned && (InFlight(o.pc) ==> InFlight(th.pc))
            && (g.wire.wsConn.None? && (!InFlight(th.pc) || (g.mu.ws.Some? && g.mu.ws != Some(t)))
                ==> o.g.wire.wsConn.None?)
  {
    match th.pc
    case Reconnecting(c) => StoppedReconnect(g, t, th.role, c, ch);
    case _ =>
  }

  lemma StoppedReconnect(g: Shared, t: nat, role: Role, c: RecPc, ch: Choice)
    requires g.shut.stopCloses > 0 && LockOk(g.mu, t, Reconnecting(c)) && StepReconnect(g, t, role, c, ch).Next?
    ensures var o := StepReconnect(g, t, role, c, ch);
            && o.g.shut.stopCloses > 0 && o.g.shut.panicked == g.shut.panicked && !o.spawned
            && (InFlight(o.pc) ==> InFlight(Reconnecting(c)))
            && (g.wire.wsConn.None? && (!InFlight(Reconnecting(c)) || (g.mu.ws.Some? && g.mu.ws != Some(t)))
                ==> o.g.wire.wsConn.None?)
  {
  }

  lemma MutedOther(s: State, t: nat, ch: Choice)
    requires Inv(s) && Muted(s) && t > 0 && Step(s, Run(t, ch)).Some?
    ensures Muted(Step(s, Run(t, ch)).value)
  {
    assert Ok(s.g, 0, s.threads[0]) && Ok(s.g, t, s.threads[t]);
    StoppedThread(s.g, t, s.threads[t], ch);
    var s' := Step(s, Run(t, ch)).value;
    assert s'.threads[0] == s.threads[0] && |s'.threads| == |s.threads|;
    if s.threads[0].pc == Reading(Lock) {
      forall u | 0 <= u < |s.threads|
        ensures !InFlight(s'.threads[u].pc)
      {
        assert !InFlight(s.threads[u].pc);
      }
    }
  }

  lemma {:induction false} MutedNeverPanics(s: State, es: seq<Event>)
    requires Inv(s) && Muted(s) && Exec(s, es).Some?
    ensures !Exec(s, es).value.g.shut.panicked
    decreases |es|
  {
    if es != [] {
      StepKeepsInv(s, es[0]);
      if es[0].Run? {
        if es[0].t == 0 {
          MutedReader(s, es[0].choice);
        } else {
          MutedOther(s, es[0].t, es[0].choice);
        }
      }
      MutedNeverPanics(Step(s, es[0]).value, es[1..]);
    }
  }

  // The other half: a schedule that panics.

  /** Close t has given up waiting and closed the first n output channels. */
  predicate GaveUp(s: State, t: nat, n: nat) {
    && 0 < t < |s.threads| && s.threads[t].pc == Shutting(CloseChans(n)) && n <= |CLOSE_ORDER|
    && s.g.shut.chanLog == CLOSE_ORDER[..n] && s.g.shut.stopCloses > 0 && !s.g.shut.panicked
  }

  lemma EveryChannelCloses(c: Chan)
    ensures c in CLOSE_ORDER
  {
    assert CLOSE_ORDER[match c case TradeCh => 0 case PositionCh => 1 case BalanceCh => 2 case AccountCh => 3] == c;
  }

  lemma {:induction false} HandlingPanics(s: State, t: nat, n: nat) returns (es: seq<Event>)
    requires GaveUp(s, t, n) && s.threads[0].pc.Reading? && s.threads[0].pc.r.Handle? && s.threads[0].pc.r.todo != []
    ensures Exec(s, es).Some? && Exec(s, es).value.g.shut.panicked
    decreases |CLOSE_ORDER| - n
  {
    if n == |CLOSE_ORDER| {
      assert CLOSE_ORDER[..n] == CLOSE_ORDER;
      EveryChannelCloses(s.threads[0].pc.r.todo[0]);
      var m;
      es, m := Then(s, [], s, Run(0, Go));
    } else {
      var s1 := Step(s, Run(t, Go)).value;
      assert CLOSE_ORDER[..n] + [CLOSE_ORDER[n]] == CLOSE_ORDER[..n + 1];
      var rest := HandlingPanics(s1, t, n + 1);
      Prepend(s, Run(t, Go), rest);
      es := [Run(t, Go)] + rest;
    }
  }

  /** From a connection in hand to a panic. */
  lemma {:induction false} HoldingPanics(s: State, t: nat) returns (es: seq<Event>)
    requires GaveUp(s, t, 0) && s.threads[0].pc.Reading?
    requires var r := s.threads[0].pc.r;
             (r.Handle? && r.todo != []) || r.Read? || (r.Unlock? && r.seen.Some?) || (r.Peek? && s.g.wire.wsConn.Some?)
    ensures Exec(s, es).Some? && Exec(s, es).value.g.shut.panicked
    decreases if s.threads[0].pc.r.Peek? then 3 else if s.threads[0].pc.r.Unlock? then 2
              else if s.threads[0].pc.r.Read? then 1 else 0
  {
    if s.threads[0].pc.r.Handle? {
      es := HandlingPanics(s, t, 0);
    } else {
      var e := Run(0, if s.threads[0].pc.r.Read? then Deliver(OrderTradeUpdate(true)) else Go);
      var rest := HoldingPanics(Step(s, e).value, t);
      Prepend(s, e, rest);
      es := [e] + rest;
    }
  }

  function StepsToInstall(c: RecPc): nat {
    match c
    case MakeKey(_) => 8
    case KeyLock(_) => 7
    case KeySet(_) => 6
    case KeyUnlock(_) => 5
    case Dial(_) => 4
    case InstLock(_) => 3
    case Inst(_) => 2
    case InstUnlock => 1
    case _ => 0
  }

  /** Reconnect u is storing a connection, or has stored one and is about to release wsMu. */
  predicate Installing(s: State, t: nat, u: nat) {
    && GaveUp(s, t, 0) && u < |s.threads| && s.threads[0].pc == Reading(Lock)
    && (InFlight(s.threads[u].pc) || (s.threads[u].pc == Reconnecting(InstUnlock) && s.g.wire.wsConn.Some?))
    && (s.g.mu.ws.None? || s.g.mu.ws == Some(u))
  }

  lemma InstallReconnect(g: Shared, u: nat, role: Role, c: RecPc)
    requires StepsToInstall(c) > 1 && LockOk(g.mu, u, Reconnecting(c)) && (g.mu.ws.None? || g.mu.ws == Some(u))
    ensures var o := StepReconnect(g, u, role, c, Go);
            && o.Next? && !o.spawned && o.g.shut == g.shut && (o.g.mu.ws.None? || o.g.mu.ws == Some(u))
            && o.pc.Reconnecting? && 0 < StepsToInstall(o.pc.c) < StepsToInstall(c)
            && (o.pc.c.InstUnlock? ==> o.g.wire.wsConn.Some?)
  {
  }

  lemma InstallMoves(s: State, t: nat, u: nat)
    requires Inv(s) && Installing(s, t, u) && !s.threads[u].pc.c.InstUnlock?
    ensures var s1 := Step(s, Run(u, Go));
            s1.Some? && Installing(s1.value, t, u)
                && StepsToInstall(s1.value.threads[u].pc.c) < StepsToInstall(s.threads[u].pc.c)
  {
    assert Ok(s.g, u, s.threads[u]) && u != t && u != 0;
    InstallReconnect(s.g, u, s.threads[u].role, s.threads[u].pc.c);
    var s1 := Step(s, Run(u, Go)).value;
    assert s1.threads == s.threads[u := s1.threads[u]] && s1.g.shut == s.g.shut;
  }

  lemma InstallDone(s: State, t: nat, u: nat) returns (es: seq<Event>)
    requires Inv(s) && Installing(s, t, u) && s.threads[u].pc.c.InstUnlock?
    ensures Exec(s, es).Some? && Exec(s, es).value.g.shut.panicked
  {
    assert Ok(s.g, u, s.threads[u]);
    var rest := FreeLockPanics(Step(s, Run(u, Go)).value, t);
    Prepend(s, Run(u, Go), rest);
    es := [Run(u, Go)] + rest;
  }

  lemma {:induction false} InstallPanics(s: State, t: nat, u: nat) returns (es: seq<Event>)
    requires Inv(s) && Installing(s, t, u)
    ensures Exec(s, es).Some? && Exec(s, es).value.g.shut.panicked
    decreases StepsToInstall(s.threads[u].pc.c)
  {
    if s.threads[u].pc.c.InstUnlock? {
      es := InstallDone(s, t, u);
    } else {
      InstallMoves(s, t, u);
      StepKeepsInv(s, Run(u, Go));
      var rest := InstallPanics(Step(s, Run(u, Go)).value, t, u);
      Prepend(s, Run(u, Go), rest);
      es := [Run(u, Go)] + rest;
    }
  }

  lemma FreeLockPanics(s: State, t: nat) returns (es: seq<Event>)
    requires GaveUp(s, t, 0) && s.threads[0].pc == Reading(Lock) && s.g.mu.ws.None? && s.g.wire.wsConn.Some?
    ensures Exec(s, es).Some? && Exec(s, es).value.g.shut.panicked
  {
    var rest := HoldingPanics(Step(s, Run(0, Go)).value, t);
    Prepend(s, Run(0, Go), rest);
    es := [Run(0, Go)] + rest;
  }

  /** After Close's wait, wsMu is nobody's, or that of the only reconnect past its lock. */
  lemma LockHolderInstalls(s: State, t: nat)
    requires Inv(s) && GaveUp(s, t, 0) && s.threads[0].pc == Reading(Lock) && s.g.wire.wsConn.Some? && s.g.mu.ws.Some?
    ensures s.g.mu.ws.value < |s.threads| && s.threads[s.g.mu.ws.value].pc == Reconnecting(InstUnlock)
  {
    var h := s.g.mu.ws.value;
    assert Ok(s.g, t, s.threads[t]) && Ok(s.g, h, s.threads[h]) && Ok(s.g, 0, s.threads[0]);
  }

  lemma LockHolderIsInFlight(s: State, t: nat, u: nat)
    requires Inv(s) && GaveUp(s, t, 0) && s.threads[0].pc == Reading(Lock) && s.g.mu.ws.Some?
    requires u < |s.threads| && InFlight(s.threads[u].pc)
    ensures s.g.mu.ws == Some(u)
  {
    var h := s.g.mu.ws.value;
    assert Ok(s.g, t, s.threads[t]) && Ok(s.g, h, s.threads[h]) && Ok(s.g, u, s.threads[u]);
  }

  lemma SendingSchedule(s: State, t: nat) returns (es: seq<Event>)
    requires Inv(s) && GaveUp(s, t, 0) && MayStillSend(s)
    ensures Exec(s, es).Some? && Exec(s, es).value.g.shut.panicked
  {
    if s.threads[0].pc != Reading(Lock) {
      es := HoldingPanics(s, t);
    } else if s.g.wire.wsConn.Some? {
      if s.g.mu.ws.None? {
        es := FreeLockPanics(s, t);
      } else {
        LockHolderInstalls(s, t);
        es := InstallPanics(s, t, s.g.mu.ws.value);
      }
    } else {
      var u :| 0 <= u < |s.threads| && InFlight(s.threads[u].pc);
      if s.g.mu.ws.Some? {
        LockHolderIsInFlight(s, t, u);
      }
      es := InstallPanics(s, t, u);
    }
  }

  /** Exactly when a Close that gives up waiting can panic: the read loop has a message in hand or
      may still read one. */
  lemma TimedOutCloseCanPanicIff(s: State, t: nat)
    requires Reachable(s) && t < |s.threads| && s.threads[t].pc == Shutting(Await) && Step(s, Run(t, Fail)).Some?
    ensures var s1 := Step(s, Run(t, Fail)).value;
            && s1.threads != []
            && ((exists es :: Exec(s1, es).Some? && Exec(s1, es).value.g.shut.panicked) <==> MayStillSend(s1))
  {
    ReachableInv(s);
    StepKeepsInv(s, Run(t, Fail));
    var s1 := Step(s, Run(t, Fail)).value;
    assert Ok(s.g, t, s.threads[t]) && Ok(s1.g, t, s1.threads[t]);
    if MayStillSend(s1) {
      var es := SendingSchedule(s1, t);
    } else {
      forall es | Exec(s1, es).Some?
        ensures !Exec(s1, es).value.g.shut.panicked
      {
        MutedNeverPanics(s1, es);
      }
    }
  }

  /** Init with readLoop about to send one trade. */
  function Sending(): State {
    Init().(threads := [Thread(Reader, Reading(Handle([TradeCh]))), Thread(Keeper, Keeping(Wait))])
  }

  lemma ReaderReachesSend() returns (es: seq<Event>)
    ensures Exec(Init(), es) == Some(Sending())
  {
    var m := Init();
    es := [];
    es, m := Then(Init(), es, m, Run(0, Go));
    es, m := Then(Init(), es, m, Run(0, Go));
    es, m := Then(Init(), es, m, Run(0, Go));
    es, m := Then(Init(), es, m, Run(0, Go));
    es, m := Then(Init(), es, m, Run(0, Deliver(OrderTradeUpdate(true))));
    assert m.threads == Sending().threads;
  }

  /** A Close call that has signalled stop while readLoop is at that send. */
  lemma CloseSignals() returns (es: seq<Event>, s: State)
    ensures Exec(Sending(), es) == Some(s) && !s.g.shut.panicked && s.g.shut.chanLog == [] && s.g.mu.ws == None
    ensures |s.threads| == 3 && s.threads[0] == Sending().threads[0] && s.threads[2] == Thread(Closer, Shutting(WsLock))
  {
    s := Sending();
    es := [];
    es, s := Then(Sending(), es, s, CallClose);
    es, s := Then(Sending(), es, s, Run(2, Go));
    es, s := Then(Sending(), es, s, Run(2, Go));
  }

  /** It then gives up waiting and starts closing the output channels. */
  lemma CloseTimesOut() returns (es: seq<Event>, s: State)
    ensures Exec(Sending(), es) == Some(s) && !s.g.shut.panicked && s.g.shut.chanLog == [TradeCh]
    ensures |s.threads| == 3 && s.threads[0] == Sending().threads[0]
  {
    es, s := CloseSignals();
    es, s := Then(Sending(), es, s, Run(2, Go));
    es, s := Then(Sending(), es, s, Run(2, Go));
    es, s := Then(Sending(), es, s, Run(2, Go));
    es, s := Then(Sending(), es, s, Run(2, Fail));
    es, s := Then(Sending(), es, s, Run(2, Go));
  }

  /** The guarantee needs the wait: when Close stops waiting while readLoop is still handling a
      message, that message's send hits a closed channel. */
  lemma TimedOutCloseCanPanic() returns (es: seq<Event>)
    ensures Exec(Init(), es).Some? && Exec(Init(), es).value.g.shut.panicked
  {
    var a := ReaderReachesSend();
    var b, s := CloseTimesOut();
    var c, s' := Then(Sending(), b, s, Run(0, Go));
    ExecAppend(Init(), a, c);
    es := a + c;
  }
}
