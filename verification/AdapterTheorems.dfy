/** What the adapter promises in every run: one connection at a time, channels closed once,
    exactly when Close leaves a connection behind, and the reconnect accounting. */
module AdapterTheorems {
  import opened Prelude
  import opened AdapterLifecycle
  import opened AdapterSafety

  /** At most one dialed connection is un-closed at any moment, and wsConn is nil while a
      reconnect holds a fresh one. */
  lemma AtMostOneConnection(s: State)
    requires Reachable(s)
    ensures |s.g.wire.open| <= 1
    ensures forall t | 0 <= t < |s.threads| && s.threads[t].pc.Reconnecting? && HoldsFresh(s.threads[t].pc.c) ::
              s.g.wire.wsConn.None? && s.g.wire.open == {s.threads[t].pc.c.dialed}
  {
    ReachableInv(s);
    var w := s.g.wire;
    assert w.open <= if w.held.Some? then {w.held.value} else Current(w);
    SubsetOfSingleton(w.open, if w.held.Some? then w.held.value else w.wsConn.GetOr(0));
    forall t | 0 <= t < |s.threads| && s.threads[t].pc.Reconnecting? && HoldsFresh(s.threads[t].pc.c)
      ensures w.wsConn.None? && w.open == {s.threads[t].pc.c.dialed}
    {
      assert Ok(s.g, t, s.threads[t]);
    }
  }

  lemma SubsetOfSingleton(a: set<nat>, x: nat)
    requires a <= {x}
    ensures |a| <= 1
  {
    if a != {} {
      assert a == {x};
    }
  }

  /** stopCh and each output channel are closed at most once, in the fixed order; unless Close's
      wait timed out, both loops have exited before the first output channel is closed, and no
      send ever hits a closed channel. */
  lemma ChannelsClosedOnce(s: State)
    requires Reachable(s)
    ensures s.g.shut.stopCloses <= 1 && s.g.shut.chanLog <= CLOSE_ORDER
    ensures forall i, j | 0 <= i < j < |s.g.shut.chanLog| :: s.g.shut.chanLog[i] != s.g.shut.chanLog[j]
    ensures |s.threads| >= 2
    ensures !s.g.shut.timedOut ==>
              && !s.g.shut.panicked
              && (s.g.shut.chanLog != [] ==> s.threads[0].pc.Exited? && s.threads[1].pc.Exited?)
  {
    ReachableInv(s);
    assert Ok(s.g, 0, s.threads[0]) && Ok(s.g, 1, s.threads[1]);
  }

  /** listenKeys, dials and the retry schedule, in every run. */
  lemma ReconnectAccounting(s: State)
    requires Reachable(s)
    ensures s.g.tally.keys <= 1 + 10 * s.g.tally.reconnects
    ensures s.g.tally.dials <= 1 + s.g.tally.reconnects
    ensures forall t | 0 <= t < |s.threads| && s.threads[t].pc.Reconnecting? && HasAttempt(s.threads[t].pc.c) ::
              var a := s.threads[t].pc.c.a;
              && a.i <= 10
              && a.backoff == MinInt(Pow2(a.i), 30)
              && a.slept == if a.i <= 5 then Pow2(a.i) - 1 else 31 + 30 * (a.i - 5)
  {
    ReachableInv(s);
    forall t | 0 <= t < |s.threads| && s.threads[t].pc.Reconnecting? && HasAttempt(s.threads[t].pc.c)
      ensures s.threads[t].pc.c.a.i <= 10 && AttemptOk(s.threads[t].pc.c)
    {
      assert Ok(s.g, t, s.threads[t]);
    }
  }

  // ---------------------------------------------------------------- Close against a racing reconnect

  /** Close's locked section is over. */
  predicate Late(s: State) {
    IsLate(s.g.shut)
  }

  predicate IsLate(h: Shut) {
    h.phase.Cleared? || h.phase.Waited?
  }

  /** Past its last look at stopCh, its connection not yet stored. */
  predicate InFlight(pc: Pc) {
    pc.Reconnecting?
        && (pc.c.MakeKey? || pc.c.KeyLock? || pc.c.KeySet? || pc.c.KeyUnlock? || pc.c.Dial? || HoldsFresh(pc.c))
  }

  /** After the locked section, with nobody in flight. */
  predicate Quiet(s: State) {
    && s.g.shut.stopCloses > 0 && s.g.shut.closed && s.g.wire.wsConn.None?
    && (forall t | 0 <= t < |s.threads| :: !InFlight(s.threads[t].pc))
  }

  lemma QuietThread(g: Shared, t: nat, th: Thread, ch: Choice)
    requires g.shut.stopCloses > 0 && g.shut.closed && g.wire.wsConn.None? && !InFlight(th.pc)
    requires StepThread(g, t, th, ch).Next?
    ensures var o := StepThread(g, t, th, ch);
            o.g.shut.stopCloses > 0 && o.g.shut.closed && o.g.wire.wsConn.None? && !InFlight(o.pc)
  {
    match th.pc
    case Reconnecting(c) => QuietReconnect(g, t, th.role, c, ch);
    case _ =>
  }

  lemma QuietReconnect(g: Shared, t: nat, role: Role, c: RecPc, ch: Choice)
    requires g.shut.stopCloses > 0 && g.wire.wsConn.None? && !InFlight(Reconnecting(c))
    requires StepReconnect(g, t, role, c, ch).Next?
    ensures var o := StepReconnect(g, t, role, c, ch);
            o.g.shut.stopCloses == g.shut.stopCloses && o.g.shut.closed == g.shut.closed
            && o.g.wire.wsConn.None? && !InFlight(o.pc)
  {
  }

  lemma {:induction false} QuietStaysEmpty(s: State, es: seq<Event>)
    requires Inv(s) && Quiet(s) && Exec(s, es).Some?
    ensures Exec(s, es).value.g.wire.open == {}
    decreases |es|
  {
    if es == [] {
      if s.g.mu.rec.Some? {
        assert Ok(s.g, s.g.mu.rec.value, s.threads[s.g.mu.rec.value]);
      }
    } else {
      StepKeepsInv(s, es[0]);
      if es[0].Run? {
        QuietThread(s.g, es[0].t, s.threads[es[0].t], es[0].choice);
      }
      QuietStaysEmpty(Step(s, es[0]).value, es[1..]);
    }
  }

  function StepsToDial(c: RecPc): nat {
    match c
    case MakeKey(_) => 5
    case KeyLock(_) => 4
    case KeySet(_) => 3
    case KeyUnlock(_) => 2
    case Dial(_) => 1
    case _ => 0
  }

  /** One move of an in-flight reconnect whose network calls succeed. */
  lemma InFlightMoves(s: State, t: nat)
    requires Inv(s) && !s.g.shut.panicked && t < |s.threads| && InFlight(s.threads[t].pc)
    requires StepsToDial(s.threads[t].pc.c) > 0
    requires s.g.mu.ws.None? || s.g.mu.ws == Some(t)
    ensures var s1 := Step(s, Run(t, Go));
            && s1.Some? && t < |s1.value.threads| && InFlight(s1.value.threads[t].pc)
            && StepsToDial(s1.value.threads[t].pc.c) < StepsToDial(s.threads[t].pc.c)
            && !s1.value.g.shut.panicked
            && (s1.value.g.mu.ws.None? || s1.value.g.mu.ws == Some(t))
  {
    assert Ok(s.g, t, s.threads[t]);
  }

  lemma {:induction false} InFlightCanDial(s: State, t: nat) returns (es: seq<Event>)
    requires Inv(s) && !s.g.shut.panicked && t < |s.threads| && InFlight(s.threads[t].pc)
    requires s.g.mu.ws.None? || s.g.mu.ws == Some(t)
    ensures Exec(s, es).Some? && Exec(s, es).value.g.wire.open != {}
    decreases StepsToDial(s.threads[t].pc.c)
  {
    if StepsToDial(s.threads[t].pc.c) == 0 {
      assert Ok(s.g, t, s.threads[t]);
      es := [];
    } else {
      InFlightMoves(s, t);
      StepKeepsInv(s, Run(t, Go));
      var rest := InFlightCanDial(Step(s, Run(t, Go)).value, t);
      es := [Run(t, Go)] + rest;
      assert es[1..] == rest;
    }
  }

  /** Exactly when Close can leave a connection behind: at the end of its locked section some
      reconnect is past its last look at stopCh. */
  lemma CloseLeaksIff(s: State, t: nat)
    requires Reachable(s) && t < |s.threads| && s.threads[t].pc == Shutting(WsUnlock) && Step(s, Run(t, Go)).Some?
    ensures var s1 := Step(s, Run(t, Go)).value;
            (exists es :: Exec(s1, es).Some? && Exec(s1, es).value.g.wire.open != {})
            <==> (exists u :: 0 <= u < |s1.threads| && InFlight(s1.threads[u].pc))
  {
    ReachableInv(s);
    var s1 := Step(s, Run(t, Go)).value;
    StepKeepsInv(s, Run(t, Go));
    assert Ok(s.g, t, s.threads[t]);
    if u :| 0 <= u < |s1.threads| && InFlight(s1.threads[u].pc) {
      var es := InFlightCanDial(s1, u);
    } else {
      assert Quiet(s1);
      forall es | Exec(s1, es).Some?
        ensures Exec(s1, es).value.g.wire.open == {}
      {
        QuietStaysEmpty(s1, es);
      }
    }
  }

  // ---------------------------------------------------------------- a leak is permanent

  lemma LateThread(g: Shared, t: nat, th: Thread, ch: Choice)
    requires GlobalInv(g) && Ok(g, t, th) && StepThread(g, t, th, ch).Next?
    requires g.shut.phase.Cleared? || g.shut.phase.Waited?
    ensures var h := StepThread(g, t, th, ch).g;
            (h.shut.phase.Cleared? || h.shut.phase.Waited?) && g.wire.open <= h.wire.open
  {
    match th.pc
    case Reconnecting(c) => LateReconnect(g, t, th.role, c, ch);
    case _ =>
  }

  lemma LateReconnect(g: Shared, t: nat, role: Role, c: RecPc, ch: Choice)
    requires LateOk(g, Reconnecting(c)) && StepReconnect(g, t, role, c, ch).Next?
    requires g.shut.phase.Cleared? || g.shut.phase.Waited?
    ensures var h := StepReconnect(g, t, role, c, ch).g; h.shut.phase == g.shut.phase && g.wire.open <= h.wire.open
  {
  }

  /** A connection that is open after Close's locked section is never closed again. */
  lemma {:induction false} LeakIsPermanent(s: State, es: seq<Event>)
    requires Inv(s) && Late(s) && Exec(s, es).Some?
    ensures Late(Exec(s, es).value) && s.g.wire.open <= Exec(s, es).value.g.wire.open
    decreases |es|
  {
    if es != [] {
      var s1 := Step(s, es[0]).value;
      StepKeepsInv(s, es[0]);
      if es[0].Run? {
        assert Ok(s.g, es[0].t, s.threads[es[0].t]);
        LateThread(s.g, es[0].t, s.threads[es[0].t], es[0].choice);
      }
      LeakIsPermanent(s1, es[1..]);
    }
  }
}
