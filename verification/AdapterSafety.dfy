/** Safety of the adapter over every interleaving. */
module AdapterSafety {
  import opened Prelude
  import opened AdapterLifecycle

  // ---------------------------------------------------------------- closed forms of the backoff

  lemma {:induction false} Pow2AtLeast(k: nat)
    ensures k >= 5 ==> Pow2(k) >= 32
  {
    if k > 5 {
      Pow2AtLeast(k - 1);
    } else if k == 5 {
      assert Pow2(5) == 2 * Pow2(4) && Pow2(4) == 2 * Pow2(3) && Pow2(3) == 2 * Pow2(2);
    }
  }

  /** The doubling-and-capping update of the retry loop follows the closed forms
      min(2^k, 30) for the next backoff and 2^k - 1, then 31 + 30(k - 5), for the time slept. */
  lemma BackoffFollowsClosedForm(a: Attempt)
    requires a.backoff == Backoff(a.i) && a.slept == TotalSleep(a.i)
    ensures var b := NextAttempt(a);
            b.i == a.i + 1 && b.backoff == Backoff(b.i) && b.slept == TotalSleep(b.i)
  {
    Pow2AtLeast(a.i);
    Pow2AtLeast(a.i + 1);
    if a.i <= 4 {
      assert Pow2(4) == 2 * Pow2(3) && Pow2(3) == 2 * Pow2(2) && Pow2(2) == 2 * Pow2(1);
    } else if a.i == 5 {
      assert Pow2(5) == 2 * Pow2(4) && Pow2(4) == 2 * Pow2(3) && Pow2(3) == 2 * Pow2(2);
    }
  }

  // ---------------------------------------------------------------- one step, the goroutine that moves

  lemma ReaderSelfShut(g: Shared, t: nat, th: Thread, ch: Choice)
    requires GlobalInv(g) && Ok(g, t, th) && th.pc.Reading? && StepReader(g, t, th.pc.r, ch).Next?
    ensures var o := StepReader(g, t, th.pc.r, ch); ShutInv(o.g.shut) && ShutOk(o.g.shut, t, th.(pc := o.pc))
  {
  }

  lemma ReaderSelfRest(g: Shared, t: nat, th: Thread, ch: Choice)
    requires GlobalInv(g) && Ok(g, t, th) && th.pc.Reading? && StepReader(g, t, th.pc.r, ch).Next?
    ensures var o := StepReader(g, t, th.pc.r, ch);
            && o.g.wire == g.wire && WireInv(o.g) && TallyInv(o.g.tally) && RoleOk(t, th.(pc := o.pc))
            && LockOk(o.g.mu, t, o.pc) && WireOk(o.g.wire, o.pc) && LateOk(o.g, o.pc) && TallyOk(o.g.tally, o.pc)
  {
  }

  lemma KeeperSelf(g: Shared, t: nat, th: Thread, ch: Choice)
    requires GlobalInv(g) && Ok(g, t, th) && th.pc.Keeping? && StepThread(g, t, th, ch).Next?
    ensures var o := StepThread(g, t, th, ch); GlobalInv(o.g) && Ok(o.g, t, th.(pc := o.pc))
  {
  }

  lemma CloserSelfShut(g: Shared, t: nat, th: Thread, ch: Choice)
    requires GlobalInv(g) && Ok(g, t, th) && th.pc.Shutting? && StepCloser(g, t, th.pc.x, ch).Next?
    ensures var o := StepCloser(g, t, th.pc.x, ch); ShutInv(o.g.shut) && ShutOk(o.g.shut, t, th.(pc := o.pc))
  {
  }

  lemma CloserSelfRest(g: Shared, t: nat, th: Thread, ch: Choice)
    requires GlobalInv(g) && Ok(g, t, th) && th.pc.Shutting? && StepCloser(g, t, th.pc.x, ch).Next?
    ensures var o := StepCloser(g, t, th.pc.x, ch);
            && WireInv(o.g) && TallyInv(o.g.tally) && RoleOk(t, th.(pc := o.pc))
            && LockOk(o.g.mu, t, o.pc) && WireOk(o.g.wire, o.pc) && LateOk(o.g, o.pc) && TallyOk(o.g.tally, o.pc)
  {
  }

  lemma ReconnectSelfLock(g: Shared, t: nat, th: Thread, ch: Choice)
    requires RoleOk(t, th) && LockOk(g.mu, t, th.pc) && th.pc.Reconnecting?
    requires StepReconnect(g, t, th.role, th.pc.c, ch).Next?
    ensures var o := StepReconnect(g, t, th.role, th.pc.c, ch);
            RoleOk(t, th.(pc := o.pc)) && LockOk(o.g.mu, t, o.pc)
  {
  }

  lemma ReconnectSelfWire(g: Shared, t: nat, role: Role, c: RecPc, ch: Choice)
    requires WireInv(g) && WireOk(g.wire, Reconnecting(c)) && LockOk(g.mu, t, Reconnecting(c))
    requires StepReconnect(g, t, role, c, ch).Next?
    ensures var o := StepReconnect(g, t, role, c, ch); WireOk(o.g.wire, o.pc) && WireInv(o.g)
  {
  }

  lemma ReconnectSelfShut(g: Shared, t: nat, th: Thread, ch: Choice)
    requires ShutInv(g.shut) && ShutOk(g.shut, t, th) && RoleOk(t, th) && th.pc.Reconnecting?
    requires StepReconnect(g, t, th.role, th.pc.c, ch).Next?
    ensures var o := StepReconnect(g, t, th.role, th.pc.c, ch);
            ShutOk(o.g.shut, t, th.(pc := o.pc)) && ShutInv(o.g.shut)
  {
  }

  lemma ReconnectSelfTally(g: Shared, t: nat, role: Role, c: RecPc, ch: Choice)
    requires TallyInv(g.tally) && CountersOk(g.tally, Reconnecting(c))
    requires HasAttempt(c) ==> if c.Loop? then c.a.i <= MAX_ATTEMPTS else c.a.i < MAX_ATTEMPTS
    requires StepReconnect(g, t, role, c, ch).Next?
    ensures var o := StepReconnect(g, t, role, c, ch); TallyInv(o.g.tally) && CountersOk(o.g.tally, o.pc)
  {
  }

  /** A step leaves the retry loop's locals alone, starts them, or moves to the next attempt. */
  lemma AttemptMoves(g: Shared, t: nat, role: Role, c: RecPc, ch: Choice)
    requires StepReconnect(g, t, role, c, ch).Next?
    ensures var o := StepReconnect(g, t, role, c, ch);
            o.pc.Reconnecting? && HasAttempt(o.pc.c) ==>
              match c
              case Sleep(a) => o.pc.c == Loop(NextAttempt(a))
              case DropUnlock => o.pc.c == Loop(Attempt(0, 1, 0))
              case Loop(a) => o.pc.c == MakeKey(a) && a.i < MAX_ATTEMPTS
              case _ => HasAttempt(c) && o.pc.c.a == c.a && !o.pc.c.Loop?
  {
  }

  lemma ReconnectSelfAttempt(g: Shared, t: nat, role: Role, c: RecPc, ch: Choice)
    requires HasAttempt(c) ==> AttemptOk(c)
    requires StepReconnect(g, t, role, c, ch).Next?
    ensures var o := StepReconnect(g, t, role, c, ch); o.pc.Reconnecting? && HasAttempt(o.pc.c) ==> AttemptOk(o.pc.c)
  {
    AttemptMoves(g, t, role, c, ch);
    match c
    case Sleep(a) => BackoffFollowsClosedForm(a);
    case _ =>
  }

  lemma ReconnectSelfLate(g: Shared, t: nat, role: Role, c: RecPc, ch: Choice)
    requires ShutInv(g.shut) && LateOk(g, Reconnecting(c)) && StepReconnect(g, t, role, c, ch).Next?
    ensures var o := StepReconnect(g, t, role, c, ch); LateOk(o.g, o.pc)
  {
  }

  lemma LateReconnectOther(g: Shared, t: nat, role: Role, c: RecPc, ch: Choice, u: nat, pc: Pc)
    requires LockOk(g.mu, t, Reconnecting(c)) && LockOk(g.mu, u, pc) && t != u
    requires LateOk(g, pc) && StepReconnect(g, t, role, c, ch).Next?
    ensures LateOk(StepReconnect(g, t, role, c, ch).g, pc)
  {
  }

  lemma LateOther(g: Shared, t: nat, th: Thread, ch: Choice, u: nat, other: Thread)
    requires ShutInv(g.shut) && LockOk(g.mu, t, th.pc) && LockOk(g.mu, u, other.pc) && t != u
    requires LateOk(g, other.pc) && ShutOk(g.shut, t, th) && StepThread(g, t, th, ch).Next?
    ensures LateOk(StepThread(g, t, th, ch).g, other.pc)
  {
    match th.pc
    case Reconnecting(c) => LateReconnectOther(g, t, th.role, c, ch, u, other.pc);
    case _ =>
  }

  lemma SelfKeepsInvariant(g: Shared, t: nat, th: Thread, ch: Choice)
    requires GlobalInv(g) && Ok(g, t, th) && StepThread(g, t, th, ch).Next?
    ensures var o := StepThread(g, t, th, ch); GlobalInv(o.g) && Ok(o.g, t, th.(pc := o.pc))
  {
    match th.pc
    case Reading(_) =>
      ReaderSelfShut(g, t, th, ch);
      ReaderSelfRest(g, t, th, ch);
    case Keeping(_) => KeeperSelf(g, t, th, ch);
    case Shutting(_) =>
      CloserSelfShut(g, t, th, ch);
      CloserSelfRest(g, t, th, ch);
    case Reconnecting(c) =>
      ReconnectSelfLock(g, t, th, ch);
      ReconnectSelfWire(g, t, th.role, c, ch);
      ReconnectSelfShut(g, t, th, ch);
      ReconnectSelfLate(g, t, th.role, c, ch);
      ReconnectSelfTally(g, t, th.role, c, ch);
      ReconnectSelfAttempt(g, t, th.role, c, ch);
    case Exited =>
  }

  // ---------------------------------------------------------------- one step, the others

  lemma ReaderOther(g: Shared, t: nat, th: Thread, ch: Choice, u: nat, other: Thread)
    requires GlobalInv(g) && Ok(g, t, th) && Ok(g, u, other) && t != u
    requires th.pc.Reading? && StepReader(g, t, th.pc.r, ch).Next?
    ensures Ok(StepReader(g, t, th.pc.r, ch).g, u, other)
  {
  }

  lemma KeeperOther(g: Shared, t: nat, th: Thread, ch: Choice, u: nat, other: Thread)
    requires GlobalInv(g) && Ok(g, t, th) && Ok(g, u, other) && t != u
    requires th.pc.Keeping? && StepKeeper(g, t, th.pc.k, ch).Next?
    ensures Ok(StepKeeper(g, t, th.pc.k, ch).g, u, other)
  {
  }

  lemma ReconnectOtherWire(g: Shared, t: nat, th: Thread, ch: Choice, u: nat, pc: Pc)
    requires LockOk(g.mu, t, th.pc) && LockOk(g.mu, u, pc) && WireOk(g.wire, pc) && t != u
    requires th.pc.Reconnecting? && StepThread(g, t, th, ch).Next?
    ensures var h := StepThread(g, t, th, ch).g; LockOk(h.mu, u, pc) && WireOk(h.wire, pc)
  {
  }

  lemma ReconnectOtherCounts(g: Shared, t: nat, th: Thread, ch: Choice, u: nat, other: Thread)
    requires LockOk(g.mu, t, th.pc) && LockOk(g.mu, u, other.pc) && t != u
    requires ShutOk(g.shut, u, other) && TallyOk(g.tally, other.pc)
    requires th.pc.Reconnecting? && StepThread(g, t, th, ch).Next?
    ensures var h := StepThread(g, t, th, ch).g; ShutOk(h.shut, u, other) && TallyOk(h.tally, other.pc)
  {
  }

  lemma ReconnectOther(g: Shared, t: nat, th: Thread, ch: Choice, u: nat, other: Thread)
    requires GlobalInv(g) && Ok(g, t, th) && Ok(g, u, other) && t != u
    requires th.pc.Reconnecting? && StepThread(g, t, th, ch).Next?
    ensures Ok(StepThread(g, t, th, ch).g, u, other)
  {
    LateOther(g, t, th, ch, u, other);
    ReconnectOtherWire(g, t, th, ch, u, other.pc);
    ReconnectOtherCounts(g, t, th, ch, u, other);
  }

  lemma CloserOther(g: Shared, t: nat, th: Thread, ch: Choice, u: nat, other: Thread)
    requires GlobalInv(g) && Ok(g, t, th) && Ok(g, u, other) && t != u
    requires th.pc.Shutting? && StepThread(g, t, th, ch).Next?
    ensures Ok(StepThread(g, t, th, ch).g, u, other)
  {
  }

  lemma OthersKeepInvariant(g: Shared, t: nat, th: Thread, ch: Choice, u: nat, other: Thread)
    requires GlobalInv(g) && Ok(g, t, th) && Ok(g, u, other) && t != u
    requires StepThread(g, t, th, ch).Next?
    ensures Ok(StepThread(g, t, th, ch).g, u, other)
  {
    match th.pc
    case Reading(_) => ReaderOther(g, t, th, ch, u, other);
    case Keeping(_) => KeeperOther(g, t, th, ch, u, other);
    case Shutting(_) => CloserOther(g, t, th, ch, u, other);
    case Reconnecting(_) => ReconnectOther(g, t, th, ch, u, other);
    case Exited =>
  }

  /** The locks and the winning Close call always belong to existing goroutines. */
  lemma OwnersStayInRange(g: Shared, t: nat, th: Thread, ch: Choice, n: nat)
    requires t < n && OwnersIn(g, n) && StepThread(g, t, th, ch).Next?
    ensures OwnersIn(StepThread(g, t, th, ch).g, n)
  {
    match th.pc
    case Reconnecting(c) => ReconnectOwners(g, t, th.role, c, ch, n);
    case Shutting(x) => CloserOwners(g, t, x, ch, n);
    case _ =>
  }

  lemma CloserOwners(g: Shared, t: nat, x: ClosePc, ch: Choice, n: nat)
    requires t < n && OwnersIn(g, n) && StepCloser(g, t, x, ch).Next?
    ensures OwnersIn(StepCloser(g, t, x, ch).g, n)
  {
  }

  lemma ReconnectOwners(g: Shared, t: nat, role: Role, c: RecPc, ch: Choice, n: nat)
    requires t < n && OwnersIn(g, n) && StepReconnect(g, t, role, c, ch).Next?
    ensures OwnersIn(StepReconnect(g, t, role, c, ch).g, n)
  {
  }

  /** A new goroutine starts outside every lock and knows nothing. */
  lemma NewThreadIsOk(g: Shared, n: nat, th: Thread)
    requires n >= 2 && OwnersIn(g, n) && GlobalInv(g)
    requires th == Thread(Async, Reconnecting(Want)) || th == Thread(Closer, Shutting(Cas))
    ensures Ok(g, n, th)
  {
  }

  /** Every step keeps the invariant. */
  lemma StepKeepsInv(s: State, e: Event)
    requires Inv(s) && Step(s, e).Some?
    ensures Inv(Step(s, e).value)
  {
    if e.Run? {
      StepThreadKeepsInv(s, e.t, e.choice);
    } else {
      NewThreadIsOk(s.g, |s.threads|, Thread(Closer, Shutting(Cas)));
    }
  }

  lemma StepThreadKeepsInv(s: State, t: nat, ch: Choice)
    requires Inv(s) && Step(s, Run(t, ch)).Some?
    ensures Inv(Step(s, Run(t, ch)).value)
  {
    var s' := Step(s, Run(t, ch)).value;
    var th := s.threads[t];
    assert Ok(s.g, t, th);
    SelfKeepsInvariant(s.g, t, th, ch);
    OwnersStayInRange(s.g, t, th, ch, |s.threads|);
    forall u | 0 <= u < |s'.threads|
      ensures Ok(s'.g, u, s'.threads[u])
    {
      if u >= |s.threads| {
        NewThreadIsOk(s'.g, u, s'.threads[u]);
      } else if u != t {
        assert Ok(s.g, u, s.threads[u]);
        OthersKeepInvariant(s.g, t, th, ch, u, s.threads[u]);
      }
    }
  }

  lemma {:induction false} RunKeepsInv(s: State, es: seq<Event>)
    requires Inv(s) && Exec(s, es).Some?
    ensures Inv(Exec(s, es).value)
    decreases |es|
  {
    if es != [] {
      StepKeepsInv(s, es[0]);
      RunKeepsInv(Step(s, es[0]).value, es[1..]);
    }
  }

  ghost predicate Reachable(s: State) {
    exists es :: Exec(Init(), es) == Some(s)
  }

  lemma ReachableInv(s: State)
    requires Reachable(s)
    ensures Inv(s)
  {
    var es :| Exec(Init(), es) == Some(s);
    RunKeepsInv(Init(), es);
  }
}
