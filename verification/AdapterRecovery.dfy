/** What the adapter's goroutines do about a connection that fails: who reconnects, what the read loop
    reads next, and how it can fall silent for good. */
module AdapterRecovery {
  import opened Prelude
  import opened AdapterLifecycle
  import opened AdapterSafety
  import opened AdapterClose

  // ---------------------------------------------------------------- a failed connection is given up

  /** The read loop has not yet dropped the connection whose read failed, or has given up. */
  predicate Before(y: Tally, pc: Pc, n: nat) {
    match pc
    case Exited => true
    case Reading(r) => r.ReadErr?
    case Reconnecting(c) =>
      c.Want? || c.Check? || c.Count? || c == Ret(false) || ((c.DropLock? || c.DropOld?) && n < y.reconnects)
    case _ => false
  }

  predicate Newer(x: Option<nat>, c: nat) {
    x.Some? ==> x.value > c
  }

  /** The read loop has reconnected since, or is reconnecting, and no connection up to c is stored,
      about to be stored or in its hands. */
  predicate After(w: Wire, y: Tally, pc: Pc, c: nat, n: nat) {
    && n < y.reconnects && Newer(w.wsConn, c) && Newer(w.held, c)
    && match pc
       case Reading(Unlock(seen)) => Newer(seen, c)
       case Reading(Read(d)) => d > c
       case _ => true
  }

  predicate Renewing(g: Shared, pc: Pc, c: nat, n: nat) {
    && c < g.wire.nextConn && n <= g.tally.reconnects
    && (Before(g.tally, pc, n) || After(g.wire, g.tally, pc, c, n))
  }

  lemma ReaderRenews(g: Shared, th: Thread, ch: Choice, c: nat, n: nat)
    requires th.pc.Reading? && Renewing(g, th.pc, c, n) && StepReader(g, 0, th.pc.r, ch).Next?
    ensures var o := StepReader(g, 0, th.pc.r, ch); Renewing(o.g, o.pc, c, n)
  {
  }

  lemma ReconnectRenews(g: Shared, c0: RecPc, ch: Choice, c: nat, n: nat)
    requires Renewing(g, Reconnecting(c0), c, n) && WireOk(g.wire, Reconnecting(c0))
    requires StepReconnect(g, 0, Reader, c0, ch).Next?
    ensures var o := StepReconnect(g, 0, Reader, c0, ch); Renewing(o.g, o.pc, c, n)
  {
  }

  /** What anybody else does leaves the newer connections newer. */
  lemma OthersRenew(g: Shared, u: nat, th: Thread, ch: Choice, pc: Pc, c: nat, n: nat)
    requires Renewing(g, pc, c, n) && WireOk(g.wire, th.pc) && StepThread(g, u, th, ch).Next?
    ensures Renewing(StepThread(g, u, th, ch).g, pc, c, n)
  {
    match th.pc
    case Reconnecting(c0) => OtherReconnectRenews(g, u, th.role, c0, ch, pc, c, n);
    case _ =>
  }

  lemma OtherReconnectRenews(g: Shared, u: nat, role: Role, c0: RecPc, ch: Choice, pc: Pc, c: nat, n: nat)
    requires Renewing(g, pc, c, n) && WireOk(g.wire, Reconnecting(c0)) && StepReconnect(g, u, role, c0, ch).Next?
    ensures Renewing(StepReconnect(g, u, role, c0, ch).g, pc, c, n)
  {
  }

  lemma RenewStep(s: State, e: Event, c: nat, n: nat)
    requires Inv(s) && Renewing(s.g, s.threads[0].pc, c, n) && Step(s, e).Some?
    ensures Inv(Step(s, e).value) && Renewing(Step(s, e).value.g, Step(s, e).value.threads[0].pc, c, n)
  {
    StepKeepsInv(s, e);
    if e.Run? {
      var th := s.threads[e.t];
      assert Ok(s.g, e.t, th) && Ok(s.g, 0, s.threads[0]);
      if e.t != 0 {
        OthersRenew(s.g, e.t, th, e.choice, s.threads[0].pc, c, n);
      } else if th.pc.Reading? {
        ReaderRenews(s.g, th, e.choice, c, n);
      } else {
        ReconnectRenews(s.g, th.pc.c, e.choice, c, n);
      }
    }
  }

  lemma {:induction false} RenewRun(s: State, es: seq<Event>, c: nat, n: nat)
    requires Inv(s) && Renewing(s.g, s.threads[0].pc, c, n) && Exec(s, es).Some?
    ensures var s' := Exec(s, es).value; Inv(s') && Renewing(s'.g, s'.threads[0].pc, c, n)
    decreases |es|
  {
    if es != [] {
      RenewStep(s, es[0], c, n);
      RenewRun(Step(s, es[0]).value, es[1..], c, n);
    }
  }

  /** Connections the read loop has in its hands were dialed before. */
  predicate SeenOld(g: Shared, pc: Pc) {
    match pc
    case Reading(Unlock(seen)) => seen.Some? ==> seen.value < g.wire.nextConn
    case Reading(Read(c)) => c < g.wire.nextConn
    case _ => true
  }

  lemma SeenOldStep(g: Shared, t: nat, th: Thread, ch: Choice, pc: Pc)
    requires WireInv(g) && SeenOld(g, pc) && SeenOld(g, th.pc) && StepThread(g, t, th, ch).Next?
    ensures var o := StepThread(g, t, th, ch); SeenOld(o.g, pc) && SeenOld(o.g, o.pc)
  {
    match th.pc
    case Reconnecting(_) =>
    case _ =>
  }

  lemma {:induction false} SeenOldRun(s: State, es: seq<Event>)
    requires Inv(s) && SeenOld(s.g, s.threads[0].pc) && Exec(s, es).Some?
    ensures Inv(Exec(s, es).value) && SeenOld(Exec(s, es).value.g, Exec(s, es).value.threads[0].pc)
    decreases |es|
  {
    if es != [] {
      StepKeepsInv(s, es[0]);
      if es[0].Run? {
        var t := es[0].t;
        assert Ok(s.g, t, s.threads[t]);
        SeenOldStep(s.g, t, s.threads[t], es[0].choice, s.threads[0].pc);
      }
      SeenOldRun(Step(s, es[0]).value, es[1..]);
    }
  }

  /** Whatever the read loop reads after a failed read is a connection dialed after the failure, and a
      reconnect has been counted in between. */
  lemma ReadsAfterFailureAreFresh(s: State, es: seq<Event>)
    requires Reachable(s) && |s.threads| >= 2 && s.threads[0].pc == Reading(ReadErr) && Exec(s, es).Some?
    ensures var s' := Exec(s, es).value;
            && |s'.threads| >= 2
            && (s'.threads[0].pc.Reading? && s'.threads[0].pc.r.Read? ==>
                  s'.threads[0].pc.r.conn >= s.g.wire.nextConn && s'.g.tally.reconnects > s.g.tally.reconnects)
  {
    ReachableInv(s);
    RunKeepsInv(s, es);
    if s.g.wire.nextConn == 0 {
      FirstConnection(s);
    } else {
      RenewRun(s, es, s.g.wire.nextConn - 1, s.g.tally.reconnects);
    }
  }

  lemma FirstConnection(s: State)
    requires Reachable(s)
    ensures s.g.wire.nextConn > 0
  {
    var es :| Exec(Init(), es) == Some(s);
    ConnectionsGrow(Init(), es);
  }

  lemma {:induction false} ConnectionsGrow(s: State, es: seq<Event>)
    requires Exec(s, es).Some?
    ensures Exec(s, es).value.g.wire.nextConn >= s.g.wire.nextConn
    decreases |es|
  {
    if es != [] {
      if es[0].Run? {
        ConnectionsGrowThread(s.g, es[0].t, s.threads[es[0].t], es[0].choice);
      }
      ConnectionsGrow(Step(s, es[0]).value, es[1..]);
    }
  }

  lemma ConnectionsGrowThread(g: Shared, t: nat, th: Thread, ch: Choice)
    requires StepThread(g, t, th, ch).Next?
    ensures StepThread(g, t, th, ch).g.wire.nextConn >= g.wire.nextConn
  {
    match th.pc
    case Reconnecting(_) =>
    case _ =>
  }

  /** So a connection is never read again once a read of it has failed. */
  lemma DeadConnectionIsNotReadAgain(s: State, c: nat, es: seq<Event>)
    requires Reachable(s) && |s.threads| >= 2 && s.threads[0].pc == Reading(Read(c))
    requires Step(s, Run(0, Fail)).Some? && Exec(Step(s, Run(0, Fail)).value, es).Some?
    ensures var s' := Exec(Step(s, Run(0, Fail)).value, es).value;
            && |s'.threads| >= 2
            && (s'.threads[0].pc.Reading? && s'.threads[0].pc.r.Read? ==>
                  s'.threads[0].pc.r.conn > c && s'.g.tally.reconnects > s.g.tally.reconnects)
  {
    ReachableInv(s);
    var past :| Exec(Init(), past) == Some(s);
    SeenOldRun(Init(), past);
    StepKeepsInv(s, Run(0, Fail));
    assert Step(s, Run(0, Fail)).value.g == s.g && Step(s, Run(0, Fail)).value.threads[0].pc == Reading(ReadErr);
    RenewRun(Step(s, Run(0, Fail)).value, es, c, s.g.tally.reconnects);
  }

  // ---------------------------------------------------------------- and a new one is read

  /** Steps until a reconnect releases its lock, when every call succeeds. */
  function StepsToRelease(c: RecPc): nat {
    match c
    case Want => 16
    case Check => 15
    case Count => 14
    case DropLock => 13
    case DropOld => 12
    case DropUnlock => 11
    case Sleep(_) => 11
    case Loop(_) => 10
    case MakeKey(_) => 9
    case KeyLock(_) => 8
    case KeySet(_) => 7
    case KeyUnlock(_) => 6
    case Dial(_) => 5
    case InstLock(_) => 4
    case Inst(_) => 3
    case InstUnlock => 2
    case Ret(_) => 1
  }

  /** wsMu is free or t's, and nothing stops a reconnect. */
  predicate Unhindered(g: Shared, t: nat) {
    (g.mu.ws.None? || g.mu.ws == Some(t)) && !g.shut.closed && g.shut.stopCloses == 0 && !g.shut.panicked
  }

  lemma HolderMoves(g: Shared, u: nat, role: Role, c: RecPc)
    requires Unhindered(g, u) && LockOk(g.mu, u, Reconnecting(c)) && !c.Want? && (role.Keeper? || role.Async?)
    ensures var o := StepReconnect(g, u, role, c, Go);
            && o.Next? && !o.spawned && o.g.shut == g.shut && Unhindered(o.g, u)
            && if c.Ret? then o.g.mu.rec.None? && o.g.mu.ws.None?
               else o.pc.Reconnecting? && !o.pc.c.Want? && StepsToRelease(o.pc.c) < StepsToRelease(c)
  {
  }

  /** The read loop has just failed to read, and another goroutine's reconnect may be under way. */
  predicate Failing(s: State) {
    |s.threads| >= 2 && s.threads[0].pc == Reading(ReadErr) && !s.g.shut.closed && !s.g.shut.panicked
  }

  lemma FailingIsUnhindered(s: State)
    requires Inv(s) && Failing(s)
    ensures s.g.mu.rec.None? ==> Unhindered(s.g, 0)
    ensures s.g.mu.rec.Some? ==>
              var u := s.g.mu.rec.value;
              && 0 < u < |s.threads| && Unhindered(s.g, u) && s.threads[u].pc.Reconnecting?
              && !s.threads[u].pc.c.Want? && (s.threads[u].role.Keeper? || s.threads[u].role.Async?)
  {
    assert Ok(s.g, 0, s.threads[0]);
    if s.g.mu.ws.Some? {
      assert Ok(s.g, s.g.mu.ws.value, s.threads[s.g.mu.ws.value]);
    }
    if s.g.mu.rec.Some? {
      assert Ok(s.g, s.g.mu.rec.value, s.threads[s.g.mu.rec.value]);
    }
  }

  function ToRelease(s: State): nat
    requires Inv(s)
  {
    if s.g.mu.rec.Some? && s.threads[s.g.mu.rec.value].pc.Reconnecting?
    then StepsToRelease(s.threads[s.g.mu.rec.value].pc.c) else 0
  }

  lemma OtherReleases(s: State)
    requires Inv(s) && Failing(s) && s.g.mu.rec.Some?
    ensures var s1 := Step(s, Run(s.g.mu.rec.value, Go));
            s1.Some? && Inv(s1.value) && Failing(s1.value) && ToRelease(s1.value) < ToRelease(s)
  {
    FailingIsUnhindered(s);
    var u := s.g.mu.rec.value;
    assert Ok(s.g, u, s.threads[u]);
    HolderMoves(s.g, u, s.threads[u].role, s.threads[u].pc.c);
    StepKeepsInv(s, Run(u, Go));
    var s1 := Step(s, Run(u, Go)).value;
    if !s.threads[u].pc.c.Ret? {
      assert Ok(s1.g, u, s1.threads[u]);
    }
  }

  /** Other goroutines' reconnects run to their end. */
  lemma {:induction false} OthersRelease(s: State) returns (es: seq<Event>)
    requires Inv(s) && Failing(s)
    ensures Exec(s, es).Some? && Inv(Exec(s, es).value) && Failing(Exec(s, es).value)
    ensures Exec(s, es).value.g.mu.rec.None?
    decreases ToRelease(s)
  {
    if s.g.mu.rec.None? {
      es := [];
    } else {
      OtherReleases(s);
      var e := Run(s.g.mu.rec.value, Go);
      var rest := OthersRelease(Step(s, e).value);
      Prepend(s, e, rest);
      es := [e] + rest;
    }
  }

  /** The read loop's own way from the failed read to the next one. */
  function StepsToRead(pc: Pc): nat {
    match pc
    case Reading(ReadErr) => 21
    case Reconnecting(c) => 4 + StepsToRelease(c)
    case Reading(Top) => 4
    case Reading(Lock) => 3
    case Reading(Peek) => 2
    case Reading(Unlock(_)) => 1
    case _ => 0
  }

  predicate OnCourse(g: Shared, pc: Pc) {
    && Unhindered(g, 0) && LockOk(g.mu, 0, pc) && (g.mu.rec.None? || g.mu.rec == Some(0))
    && match pc
       case Reading(ReadErr) => true
       case Reading(Unlock(seen)) => seen.Some?
       case Reading(Read(_)) => true
       case Reading(r) => (r.Top? || r.Lock? || r.Peek?) && g.wire.wsConn.Some?
       case Reconnecting(c) =>
         c != Ret(false) && !c.Sleep? && (HasAttempt(c) ==> c.a.i == 0)
         && (c.InstUnlock? || c.Ret? ==> g.wire.wsConn.Some?)
       case _ => false
  }

  lemma CourseReconnects(g: Shared, c: RecPc)
    requires OnCourse(g, Reconnecting(c))
    ensures var o := StepReconnect(g, 0, Reader, c, Go);
            o.Next? && !o.spawned && OnCourse(o.g, o.pc) && StepsToRead(o.pc) < StepsToRead(Reconnecting(c))
  {
  }

  lemma CourseReads(g: Shared, r: ReadPc)
    requires OnCourse(g, Reading(r)) && StepsToRead(Reading(r)) > 0
    ensures var o := StepReader(g, 0, r, Go);
            o.Next? && !o.spawned && OnCourse(o.g, o.pc) && StepsToRead(o.pc) < StepsToRead(Reading(r))
  {
  }

  lemma CourseMoves(g: Shared, pc: Pc)
    requires OnCourse(g, pc) && StepsToRead(pc) > 0
    ensures var o := StepThread(g, 0, Thread(Reader, pc), Go);
            o.Next? && !o.spawned && OnCourse(o.g, o.pc) && StepsToRead(o.pc) < StepsToRead(pc)
  {
    if pc.Reading? {
      CourseReads(g, pc.r);
    } else {
      CourseReconnects(g, pc.c);
    }
  }

  lemma {:induction false} CourseRun(s: State) returns (es: seq<Event>)
    requires |s.threads| >= 2 && s.threads[0].role.Reader? && OnCourse(s.g, s.threads[0].pc)
    ensures Exec(s, es).Some? && |Exec(s, es).value.threads| >= 2 && Exec(s, es).value.threads[0].pc.Reading?
    ensures Exec(s, es).value.threads[0].pc.r.Read?
    decreases StepsToRead(s.threads[0].pc)
  {
    if StepsToRead(s.threads[0].pc) == 0 {
      es := [];
    } else {
      CourseMoves(s.g, s.threads[0].pc);
      var rest := CourseRun(Step(s, Run(0, Go)).value);
      Prepend(s, Run(0, Go), rest);
      es := [Run(0, Go)] + rest;
    }
  }

  lemma FailedReadRecovers(s: State) returns (es: seq<Event>)
    requires Inv(s) && Failing(s)
    ensures Exec(s, es).Some? && ReadsAgain(Exec(s, es).value)
  {
    var a := OthersRelease(s);
    var s1 := Exec(s, a).value;
    FailingIsUnhindered(s1);
    assert Ok(s1.g, 0, s1.threads[0]);
    var b := CourseRun(s1);
    ExecAppend(s, a, b);
    es := a + b;
  }

  predicate ReadsAgain(s: State) {
    |s.threads| >= 2 && s.threads[0].pc.Reading? && s.threads[0].pc.r.Read?
  }

  /** Closed before the read loop's own reconnect looked at the flag. */
  predicate GivingUp(g: Shared, pc: Pc) {
    && g.shut.closed
    && match pc
       case Reading(r) => r.ReadErr?
       case Reconnecting(c) => c.Want? || c.Check? || c == Ret(false)
       case Exited => true
       case _ => false
  }

  lemma GivingUpStep(g: Shared, t: nat, th: Thread, ch: Choice, pc: Pc)
    requires GivingUp(g, pc) && StepThread(g, t, th, ch).Next? && (t == 0 ==> th == Thread(Reader, pc))
    ensures var o := StepThread(g, t, th, ch); GivingUp(o.g, if t == 0 then o.pc else pc)
  {
    match th.pc
    case Reconnecting(_) =>
    case _ =>
  }

  lemma {:induction false} GivingUpRun(s: State, es: seq<Event>)
    requires Inv(s) && GivingUp(s.g, s.threads[0].pc) && Exec(s, es).Some?
    ensures !ReadsAgain(Exec(s, es).value)
    decreases |es|
  {
    if es != [] {
      StepKeepsInv(s, es[0]);
      if es[0].Run? {
        assert Ok(s.g, 0, s.threads[0]);
        if s.threads[0].pc.Exited? && es[0].t == 0 {
          assert false;
        }
        GivingUpStep(s.g, es[0].t, s.threads[es[0].t], es[0].choice, s.threads[0].pc);
      }
      GivingUpRun(Step(s, es[0]).value, es[1..]);
    }
  }

  /** After a failed read some continuation reads again, and then a fresh connection, exactly when
      nobody has called Close yet, whatever reconnects are under way elsewhere. */
  lemma FailedReadRecoversIff(s: State)
    requires Reachable(s) && |s.threads| >= 2 && s.threads[0].pc == Reading(ReadErr) && !s.g.shut.panicked
    ensures (exists es :: Exec(s, es).Some? && ReadsAgain(Exec(s, es).value)) <==> !s.g.shut.closed
    ensures forall es | Exec(s, es).Some? && ReadsAgain(Exec(s, es).value) ::
              Exec(s, es).value.threads[0].pc.r.conn >= s.g.wire.nextConn
  {
    ReachableInv(s);
    if s.g.shut.closed {
      forall es | Exec(s, es).Some?
        ensures !ReadsAgain(Exec(s, es).value)
      {
        GivingUpRun(s, es);
      }
    } else {
      var es := FailedReadRecovers(s);
    }
    forall es | Exec(s, es).Some? && ReadsAgain(Exec(s, es).value)
      ensures Exec(s, es).value.threads[0].pc.r.conn >= s.g.wire.nextConn
    {
      ReadsAfterFailureAreFresh(s, es);
    }
  }

  // ---------------------------------------------------------------- what sets a reconnect off

  /** A call of reconnect that has been counted, is not there yet, or came after Close. */
  predicate Called(g: Shared, pc: Pc, n: nat) {
    && n <= g.tally.reconnects
    && (g.shut.closed || n < g.tally.reconnects
        || (pc.Reconnecting? && (pc.c.Want? || pc.c.Check? || pc.c.Count?)))
  }

  lemma CalledStep(g: Shared, t: nat, th: Thread, ch: Choice, n: nat)
    requires Called(g, th.pc, n) && StepThread(g, t, th, ch).Next?
    ensures var o := StepThread(g, t, th, ch); Called(o.g, o.pc, n)
  {
    match th.pc
    case Reconnecting(_) =>
    case _ =>
  }

  lemma CalledByOther(g: Shared, t: nat, th: Thread, ch: Choice, pc: Pc, n: nat)
    requires Called(g, pc, n) && StepThread(g, t, th, ch).Next?
    ensures Called(StepThread(g, t, th, ch).g, pc, n)
  {
    match th.pc
    case Reconnecting(_) =>
    case _ =>
  }

  lemma {:induction false} CalledRun(s: State, es: seq<Event>, t: nat, n: nat)
    requires t < |s.threads| && Called(s.g, s.threads[t].pc, n) && Exec(s, es).Some?
    ensures var s' := Exec(s, es).value; t < |s'.threads| && Called(s'.g, s'.threads[t].pc, n)
    decreases |es|
  {
    if es != [] {
      if es[0].Run? {
        var th := s.threads[es[0].t];
        if es[0].t == t {
          CalledStep(s.g, t, th, es[0].choice, n);
        } else {
          CalledByOther(s.g, es[0].t, th, es[0].choice, s.threads[t].pc, n);
        }
      }
      CalledRun(Step(s, es[0]).value, es[1..], t, n);
    }
  }

  /** A failed keep-alive makes the keep-alive loop reconnect before it goes on, unless Close came. */
  lemma FailedKeepAliveReconnects(s: State, es: seq<Event>)
    requires Reachable(s) && |s.threads| >= 2 && s.threads[1].pc == Keeping(Put)
    requires Step(s, Run(1, Fail)).Some? && Exec(Step(s, Run(1, Fail)).value, es).Some?
    ensures var s' := Exec(Step(s, Run(1, Fail)).value, es).value;
            && |s'.threads| >= 2
            && (s'.threads[1].pc.Keeping? ==> s'.g.shut.closed || s'.g.tally.reconnects > s.g.tally.reconnects)
  {
    CalledRun(Step(s, Run(1, Fail)).value, es, 1, s.g.tally.reconnects);
  }

  /** An expired listenKey starts one goroutine, which reconnects before it ends, unless Close came;
      the read loop goes on reading meanwhile. */
  lemma ExpiredKeyReconnects(s: State, es: seq<Event>)
    requires Reachable(s) && |s.threads| >= 2 && s.threads[0].pc.Reading? && s.threads[0].pc.r.Read?
    requires Step(s, Run(0, Deliver(ListenKeyExpired))).Some?
    requires Exec(Step(s, Run(0, Deliver(ListenKeyExpired))).value, es).Some?
    ensures var s1, t := Step(s, Run(0, Deliver(ListenKeyExpired))).value, |s.threads|;
            var s' := Exec(s1, es).value;
            && |s1.threads| == t + 1 && s1.threads[0].pc.Reading? && t < |s'.threads|
            && (s'.threads[t].pc.Exited? ==> s'.g.shut.closed || s'.g.tally.reconnects > s.g.tally.reconnects)
  {
    var s1 := Step(s, Run(0, Deliver(ListenKeyExpired))).value;
    CalledRun(s1, es, |s.threads|, s.g.tally.reconnects);
  }

  /** Only an expired listenKey or a call of Close starts a goroutine. */
  lemma GoroutinesStartIff(s: State, e: Event)
    requires Step(s, e).Some?
    ensures |Step(s, e).value.threads| > |s.threads|
            <==> e.CallClose? || (s.threads[e.t].pc.Reading? && s.threads[e.t].pc.r.Read?
                                  && e.choice == Deliver(ListenKeyExpired))
    ensures |s.threads| <= |Step(s, e).value.threads| <= |s.threads| + 1
  {
    if e.Run? {
      StartsThread(s.g, e.t, s.threads[e.t], e.choice);
    }
  }

  lemma StartsThread(g: Shared, t: nat, th: Thread, ch: Choice)
    requires StepThread(g, t, th, ch).Next?
    ensures StepThread(g, t, th, ch).spawned
            <==> th.pc.Reading? && th.pc.r.Read? && ch == Deliver(ListenKeyExpired)
  {
    match th.pc
    case Reconnecting(_) =>
    case _ =>
  }

  // ---------------------------------------------------------------- who is still there

  predicate Alive(g: Shared, th: Thread) {
    th.role.Keeper? && Fits(Keeper, th.pc) && (th.pc.Exited? ==> g.shut.stopCloses > 0)
  }

  lemma AliveStep(g: Shared, t: nat, th: Thread, ch: Choice)
    requires Alive(g, th) && StepThread(g, t, th, ch).Next?
    ensures Alive(StepThread(g, t, th, ch).g, th.(pc := StepThread(g, t, th, ch).pc))
  {
  }

  lemma StopIsFinal(g: Shared, t: nat, th: Thread, ch: Choice)
    requires StepThread(g, t, th, ch).Next?
    ensures StepThread(g, t, th, ch).g.shut.stopCloses >= g.shut.stopCloses
  {
    match th.pc
    case Reconnecting(c) => ReconnectDoesNotStop(g, t, th.role, c, ch);
    case _ =>
  }

  lemma ReconnectDoesNotStop(g: Shared, t: nat, role: Role, c: RecPc, ch: Choice)
    requires StepReconnect(g, t, role, c, ch).Next?
    ensures StepReconnect(g, t, role, c, ch).g.shut.stopCloses == g.shut.stopCloses
  {
  }

  lemma {:induction false} AliveRun(s: State, es: seq<Event>)
    requires |s.threads| >= 2 && Alive(s.g, s.threads[1]) && Exec(s, es).Some?
    ensures |Exec(s, es).value.threads| >= 2 && Alive(Exec(s, es).value.g, Exec(s, es).value.threads[1])
    decreases |es|
  {
    if es != [] {
      if es[0].Run? {
        StopIsFinal(s.g, es[0].t, s.threads[es[0].t], es[0].choice);
        if es[0].t == 1 {
          AliveStep(s.g, 1, s.threads[1], es[0].choice);
        }
      }
      AliveRun(Step(s, es[0]).value, es[1..]);
    }
  }

  /** The keep-alive loop only ever ends because Close stopped it, however its reconnects went. */
  lemma KeeperLivesUntilStop(s: State)
    requires Reachable(s)
    ensures |s.threads| >= 2 && (s.threads[1].pc.Exited? ==> s.g.shut.stopCloses > 0)
  {
    var es :| Exec(Init(), es) == Some(s);
    AliveRun(Init(), es);
  }

  /** A read loop that has ended stays ended: nothing is read or sent any more. */
  lemma {:induction false} DeafIsPermanent(s: State, es: seq<Event>)
    requires |s.threads| >= 2 && s.threads[0].pc.Exited? && Exec(s, es).Some?
    ensures |Exec(s, es).value.threads| >= 2 && Exec(s, es).value.threads[0].pc.Exited?
    decreases |es|
  {
    if es != [] {
      DeafIsPermanent(Step(s, es[0]).value, es[1..]);
    }
  }

  /** Exactly when a step ends the read loop: it finds itself stopped, or no connection, or its
      reconnect has failed. */
  lemma ReadLoopEndsIff(s: State, ch: Choice)
    requires Inv(s) && !s.threads[0].pc.Exited? && Step(s, Run(0, ch)).Some?
    ensures Step(s, Run(0, ch)).value.threads[0].pc.Exited?
            <==> s.threads[0].pc == Reading(Unlock(None)) || s.threads[0].pc == Reconnecting(Ret(false))
                 || (s.g.shut.stopCloses > 0 && s.threads[0].pc in {Reading(Top), Reading(ReadErr)})
  {
    assert Ok(s.g, 0, s.threads[0]);
    ReaderEndsIff(s.g, s.threads[0], ch);
  }

  lemma ReaderEndsIff(g: Shared, th: Thread, ch: Choice)
    requires th.role.Reader? && (th.pc.Reading? || th.pc.Reconnecting?) && StepThread(g, 0, th, ch).Next?
    ensures StepThread(g, 0, th, ch).pc.Exited?
            <==> th.pc == Reading(Unlock(None)) || th.pc == Reconnecting(Ret(false))
                 || (g.shut.stopCloses > 0 && th.pc in {Reading(Top), Reading(ReadErr)})
  {
  }

  /** Without Close, no stored connection means that some dial is still to come, was given up, or has
      not been stored yet. */
  predicate Accounted(g: Shared) {
    !g.shut.closed && g.wire.wsConn.None? ==> g.wire.held.Some? || g.tally.dials <= g.tally.reconnects
  }

  lemma AccountedStep(g: Shared, t: nat, th: Thread, ch: Choice)
    requires Accounted(g) && WireOk(g.wire, th.pc) && CountersOk(g.tally, th.pc) && StepThread(g, t, th, ch).Next?
    requires th.pc.Shutting? && !th.pc.x.Cas? ==> g.shut.closed
    ensures Accounted(StepThread(g, t, th, ch).g)
  {
    match th.pc
    case Reconnecting(_) =>
    case _ =>
  }

  /** What the read loop found under wsMu is still there. */
  predicate Looking(w: Wire, pc: Pc) {
    pc.Reading? && pc.r.Unlock? ==> w.wsConn == pc.r.seen
  }

  lemma LookingStep(g: Shared, th: Thread, ch: Choice)
    requires Looking(g.wire, th.pc) && StepThread(g, 0, th, ch).Next?
    ensures var o := StepThread(g, 0, th, ch); Looking(o.g.wire, o.pc)
  {
    match th.pc
    case Reconnecting(_) =>
    case _ =>
  }

  lemma OthersDoNotDisturb(g: Shared, t: nat, th: Thread, ch: Choice, pc: Pc)
    requires t != 0 && LockOk(g.mu, t, th.pc) && LockOk(g.mu, 0, pc)
    requires Looking(g.wire, pc) && StepThread(g, t, th, ch).Next?
    ensures Looking(StepThread(g, t, th, ch).g.wire, pc)
  {
    match th.pc
    case Reconnecting(_) =>
    case _ =>
  }

  lemma LooksStep(s: State, e: Event)
    requires Inv(s) && Looking(s.g.wire, s.threads[0].pc) && Step(s, e).Some?
    ensures |Step(s, e).value.threads| >= 2 && Looking(Step(s, e).value.g.wire, Step(s, e).value.threads[0].pc)
  {
    if e.Run? {
      var th := s.threads[e.t];
      assert Ok(s.g, e.t, th) && Ok(s.g, 0, s.threads[0]);
      if e.t == 0 {
        LookingStep(s.g, th, e.choice);
      } else {
        OthersDoNotDisturb(s.g, e.t, th, e.choice, s.threads[0].pc);
      }
    }
  }

  lemma {:induction false} AccountedRun(s: State, es: seq<Event>)
    requires Inv(s) && Accounted(s.g) && Looking(s.g.wire, s.threads[0].pc) && Exec(s, es).Some?
    ensures var s' := Exec(s, es).value; Inv(s') && Accounted(s'.g) && Looking(s'.g.wire, s'.threads[0].pc)
    decreases |es|
  {
    if es != [] {
      StepKeepsInv(s, es[0]);
      LooksStep(s, es[0]);
      if es[0].Run? {
        assert Ok(s.g, es[0].t, s.threads[es[0].t]);
        AccountedStep(s.g, es[0].t, s.threads[es[0].t], es[0].choice);
      }
      AccountedRun(Step(s, es[0]).value, es[1..]);
    }
  }

  /** The read loop ends without Close only because its own reconnect failed, or because it looked while
      another reconnect was between its drop and its store, or after one had failed. */
  lemma SilentWithoutCloseMeansReconnect(s: State, ch: Choice)
    requires Reachable(s) && !s.g.shut.closed && |s.threads| >= 2 && !s.threads[0].pc.Exited?
    requires Step(s, Run(0, ch)).Some? && Step(s, Run(0, ch)).value.threads[0].pc.Exited?
    ensures s.threads[0].pc == Reconnecting(Ret(false))
            || (s.threads[0].pc == Reading(Unlock(None)) && s.g.wire.wsConn.None?
                && (s.g.wire.held.Some? || s.g.tally.dials <= s.g.tally.reconnects))
  {
    var es :| Exec(Init(), es) == Some(s);
    AccountedRun(Init(), es);
    ReadLoopEndsIff(s, ch);
  }

  // ---------------------------------------------------------------- it does fall silent

  /** An expired listenKey has set off a reconnect that is about to request its new key, and the read
      loop is back at its top. */
  lemma KeyExpires() returns (es: seq<Event>, s: State)
    ensures Exec(Init(), es) == Some(s) && |s.threads| == 3 && s.threads[..2] == Init().threads
    ensures s.threads[2] == Thread(Async, Reconnecting(Want)) && s.g == Init().g
  {
    es, s := [], Init();
    es, s := Then(Init(), es, s, Run(0, Go));
    es, s := Then(Init(), es, s, Run(0, Go));
    es, s := Then(Init(), es, s, Run(0, Go));
    es, s := Then(Init(), es, s, Run(0, Go));
    es, s := Then(Init(), es, s, Run(0, Deliver(ListenKeyExpired)));
  }

  lemma AsyncDrops(s0: State) returns (es: seq<Event>, s: State)
    requires s0.g == Init().g && |s0.threads| == 3 && s0.threads[2] == Thread(Async, Reconnecting(Want))
    ensures Exec(s0, es) == Some(s) && s.threads == s0.threads[2 := Thread(Async, Reconnecting(Loop(Attempt(0, 1, 0))))]
    ensures s.g == Init().g.(mu := Mutexes(None, Some(2)), wire := Drop(Init().g.wire), tally := Tally(1, 1, 1))
  {
    es, s := [], s0;
    es, s := Then(s0, es, s, Run(2, Go));
    es, s := Then(s0, es, s, Run(2, Go));
    es, s := Then(s0, es, s, Run(2, Go));
    es, s := Then(s0, es, s, Run(2, Go));
    es, s := Then(s0, es, s, Run(2, Go));
    es, s := Then(s0, es, s, Run(2, Go));
  }

  lemma ReaderFindsNothing(s0: State) returns (es: seq<Event>, s: State)
    requires |s0.threads| == 3 && s0.threads[0] == Thread(Reader, Reading(Top)) && !s0.g.shut.panicked
    requires s0.g.shut.stopCloses == 0 && s0.g.mu.ws.None? && s0.g.wire.wsConn.None?
    ensures Exec(s0, es) == Some(s) && s.threads == s0.threads[0 := Thread(Reader, Exited)]
    ensures s.g.mu == s0.g.mu && s.g.wire == s0.g.wire && s.g.shut.closed == s0.g.shut.closed
    ensures s.g.shut.stopCloses == 0 && !s.g.shut.panicked
  {
    es, s := [], s0;
    es, s := Then(s0, es, s, Run(0, Go));
    es, s := Then(s0, es, s, Run(0, Go));
    es, s := Then(s0, es, s, Run(0, Go));
    es, s := Then(s0, es, s, Run(0, Go));
  }

  lemma AsyncRequests(s0: State) returns (es: seq<Event>, s: State)
    requires |s0.threads| == 3 && s0.threads[2] == Thread(Async, Reconnecting(Loop(Attempt(0, 1, 0))))
    requires s0.g.mu == Mutexes(None, Some(2)) && s0.g.shut.stopCloses == 0 && !s0.g.shut.panicked
    ensures Exec(s0, es) == Some(s) && s.g.shut == s0.g.shut && s.g.mu == Mutexes(Some(2), Some(2))
    ensures s.g.wire == s0.g.wire
    ensures s.threads == s0.threads[2 := Thread(Async, Reconnecting(KeySet(Attempt(0, 1, 0))))]
  {
    es, s := [], s0;
    es, s := Then(s0, es, s, Run(2, Go));
    es, s := Then(s0, es, s, Run(2, Go));
    es, s := Then(s0, es, s, Run(2, Go));
  }

  lemma AsyncDials(s0: State) returns (es: seq<Event>, s: State)
    requires |s0.threads| == 3 && s0.threads[2] == Thread(Async, Reconnecting(KeySet(Attempt(0, 1, 0))))
    requires s0.g.mu == Mutexes(Some(2), Some(2)) && !s0.g.shut.panicked
    ensures Exec(s0, es) == Some(s) && s.g.shut == s0.g.shut && s.g.mu == Mutexes(None, Some(2))
    ensures s.g.wire.open == s0.g.wire.open + {s0.g.wire.nextConn}
    ensures s.threads == s0.threads[2 := Thread(Async, Reconnecting(InstLock(s0.g.wire.nextConn)))]
  {
    es, s := [], s0;
    es, s := Then(s0, es, s, Run(2, Go));
    es, s := Then(s0, es, s, Run(2, Go));
    es, s := Then(s0, es, s, Run(2, Go));
  }

  lemma AsyncStores(s0: State, c: nat) returns (es: seq<Event>, s: State)
    requires |s0.threads| == 3 && s0.threads[2] == Thread(Async, Reconnecting(InstLock(c)))
    requires s0.g.mu == Mutexes(None, Some(2)) && !s0.g.shut.panicked
    ensures Exec(s0, es) == Some(s) && s.g.wire.wsConn == Some(c) && s.g.shut == s0.g.shut
    ensures s.g.wire.open == s0.g.wire.open && s.g.mu == Mutexes(Some(2), Some(2))
    ensures s.threads == s0.threads[2 := Thread(Async, Reconnecting(InstUnlock))]
  {
    es, s := [], s0;
    es, s := Then(s0, es, s, Run(2, Go));
    es, s := Then(s0, es, s, Run(2, Go));
  }

  lemma AsyncEnds(s0: State) returns (es: seq<Event>, s: State)
    requires |s0.threads| == 3 && s0.threads[2] == Thread(Async, Reconnecting(InstUnlock)) && !s0.g.shut.panicked
    ensures Exec(s0, es) == Some(s) && s.g.wire == s0.g.wire && s.g.shut == s0.g.shut
    ensures s.threads == s0.threads[2 := Thread(Async, Exited)]
  {
    es, s := [], s0;
    es, s := Then(s0, es, s, Run(2, Go));
    es, s := Then(s0, es, s, Run(2, Go));
  }

  /** It happens, with every network call succeeding: a listenKey expires, the read loop looks while the
      reconnect has dropped the old connection, and ends; the reconnect then stores a connection that
      nobody reads. */
  lemma ReadLoopCanFallSilent() returns (es: seq<Event>, s: State)
    ensures Exec(Init(), es) == Some(s) && !s.g.shut.closed && s.g.wire.wsConn == Some(1) && s.g.wire.open == {1}
    ensures |s.threads| == 3 && s.threads[0].pc.Exited?
  {
    var a, s1 := KeyExpires();
    var b, s2 := AsyncDrops(s1);
    var c, s3 := ReaderFindsNothing(s2);
    es := a + (b + c);
    ExecAppend(s1, b, c);
    ExecAppend(Init(), a, b + c);
    var more;
    more, s := AsyncSucceeds(s3);
    ExecAppend(Init(), es, more);
    es := es + more;
  }

  lemma AsyncSucceeds(s0: State) returns (es: seq<Event>, s: State)
    requires |s0.threads| == 3 && s0.threads[2] == Thread(Async, Reconnecting(Loop(Attempt(0, 1, 0))))
    requires s0.g.mu == Mutexes(None, Some(2)) && s0.g.shut.stopCloses == 0 && !s0.g.shut.panicked
    ensures Exec(s0, es) == Some(s) && s.g.shut == s0.g.shut
    ensures s.g.wire.wsConn == Some(s0.g.wire.nextConn) && s.g.wire.open == s0.g.wire.open + {s0.g.wire.nextConn}
    ensures |s.threads| == 3 && s.threads[0] == s0.threads[0]
  {
    var a, s1 := AsyncRequests(s0);
    var b, s2 := AsyncDials(s1);
    var c, s3 := AsyncStores(s2, s0.g.wire.nextConn);
    var d;
    d, s := AsyncEnds(s3);
    ExecAppend(s2, c, d);
    ExecAppend(s1, b, c + d);
    ExecAppend(s0, a, b + (c + d));
    es := a + (b + (c + d));
  }
}
