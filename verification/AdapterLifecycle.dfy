/** The Binance futures adapter as a step machine over its goroutines: one readLoop, one
    keepAliveLoop, any number of asynchronous reconnects and any number of Close callers,
    interleaved at every mutex operation, channel operation and network call. */
module AdapterLifecycle {
  import opened Prelude

  const MAX_ATTEMPTS: nat := 10
  const MAX_BACKOFF: nat := 30

  datatype Chan = TradeCh | PositionCh | BalanceCh | AccountCh

  datatype Message =
    | OrderTradeUpdate(isTrade: bool)
    | AccountUpdate(balances: nat, positions: nat)
    | ListenKeyExpired
    | Other

  function Repeat(c: Chan, n: nat): seq<Chan> {
    seq(n, _ => c)
  }

  /** The channel sends one message causes, in order. */
  function Sends(m: Message): seq<Chan> {
    match m
    case OrderTradeUpdate(isTrade) => if isTrade then [TradeCh] else []
    case AccountUpdate(b, p) => Repeat(BalanceCh, b) + Repeat(PositionCh, p) + [AccountCh]
    case ListenKeyExpired => []
    case Other => []
  }

  /** Locals of reconnect's retry loop; `slept` adds up the sleeps of this call, in seconds. */
  datatype Attempt = Attempt(i: nat, backoff: nat, slept: nat)

  datatype Role = Reader | Keeper | Async | Closer

  /** Program counters; each names the operation the goroutine does next. */
  datatype ReadPc =
    | Top | Lock | Peek | Unlock(seen: Option<nat>) | Read(conn: nat) | ReadErr | Handle(todo: seq<Chan>)

  datatype KeepPc = Wait | Put

  datatype RecPc =
    | Want | Check | Count | DropLock | DropOld | DropUnlock
    | Loop(a: Attempt) | MakeKey(a: Attempt) | KeyLock(a: Attempt) | KeySet(a: Attempt) | KeyUnlock(a: Attempt)
    | Dial(a: Attempt) | Sleep(a: Attempt)
    | InstLock(dialed: nat) | Inst(dialed: nat) | InstUnlock | Ret(ok: bool)

  datatype ClosePc = Cas | SignalStop | WsLock | WsClose | WsUnlock | Await | CloseChans(n: nat)

  datatype Pc = Reading(r: ReadPc) | Keeping(k: KeepPc) | Reconnecting(c: RecPc) | Shutting(x: ClosePc) | Exited

  datatype Thread = Thread(role: Role, pc: Pc)

  datatype Mutexes = Mutexes(ws: Option<nat>, rec: Option<nat>)   // holders of wsMu and reconnectMu

  datatype Wire = Wire(
    wsConn: Option<nat>,      // b.wsConn
    open: set<nat>,           // connections dialed and not yet closed by this process
    nextConn: nat,
    held: Option<nat>)       // history: the connection a reconnect dialed and has not stored yet

  /** How far the one effective Close call got (a history variable). */
  datatype Phase = Serving | Claimed | Signalled | Cleared | Waited

  datatype Shut = Shut(
    closed: bool,             // b.closed
    phase: Phase,
    winner: Option<nat>,      // the Close caller whose compare-and-swap succeeded
    stopCloses: nat,          // how often stopCh was closed
    chanLog: seq<Chan>,       // the output channels closed so far, in order
    tokens: set<nat>,         // goroutines counted by the WaitGroup and not yet done
    timedOut: bool,           // Close's wait was ended by the 10 s timer
    panicked: bool)           // a send hit a closed channel

  datatype Tally = Tally(reconnects: nat, keys: nat, dials: nat)

  datatype Shared = Shared(mu: Mutexes, wire: Wire, shut: Shut, tally: Tally)

  datatype State = State(g: Shared, threads: seq<Thread>)

  /** What the environment decides for a step: success, failure, the stop branch of a select,
      or the message a read returns. */
  datatype Choice = Go | Fail | Stop | Deliver(m: Message)

  datatype Event = Run(t: nat, choice: Choice) | CallClose

  /** The state right after Connect returned: one listenKey, one connection, two goroutines. */
  function Init(): State {
    State(Shared(Mutexes(None, None), Wire(Some(0), {0}, 1, None),
                 Shut(false, Serving, None, 0, [], {0, 1}, false, false), Tally(0, 1, 1)),
          [Thread(Reader, Reading(Top)), Thread(Keeper, Keeping(Wait))])
  }

  /** The effect of one step: the shared state, the goroutine's next operation, and whether a
      new asynchronous reconnect was started. */
  datatype Outcome = Blocked | Next(g: Shared, pc: Pc, spawned: bool)

  function To(g: Shared, pc: Pc): Outcome {
    Next(g, pc, false)
  }

  /** Return from readLoop or keepAliveLoop: the deferred wg.Done runs. */
  function Leave(g: Shared, t: nat): Outcome {
    To(g.(shut := g.shut.(tokens := g.shut.tokens - {t})), Exited)
  }

  function LockWs(g: Shared, t: nat, pc: Pc): Outcome {
    if g.mu.ws.None? then To(g.(mu := g.mu.(ws := Some(t))), pc) else Blocked
  }

  function UnlockWs(g: Shared): Shared {
    g.(mu := g.mu.(ws := None))
  }

  /** Close the current connection, if there is one, and forget it. */
  function Drop(w: Wire): Wire {
    if w.wsConn.Some? then w.(open := w.open - {w.wsConn.value}, wsConn := None) else w
  }

  function StepReader(g: Shared, t: nat, pc: ReadPc, ch: Choice): Outcome {
    match pc
    case Top => if g.shut.stopCloses > 0 then Leave(g, t) else To(g, Reading(Lock))
    case Lock => LockWs(g, t, Reading(Peek))
    case Peek => To(g, Reading(Unlock(g.wire.wsConn)))
    case Unlock(seen) =>
      if seen.None? then Leave(UnlockWs(g), t) else To(UnlockWs(g), Reading(Read(seen.value)))
    case Read(_) =>
      (match ch
       case Deliver(m) =>
         if m.ListenKeyExpired? then Next(g, Reading(Top), true) else To(g, Reading(Handle(Sends(m))))
       case Fail => To(g, Reading(ReadErr))
       case _ => Blocked)
    case ReadErr => if g.shut.stopCloses > 0 then Leave(g, t) else To(g, Reconnecting(Want))
    case Handle(todo) =>
      if todo == [] then To(g, Reading(Top))
      else if todo[0] in g.shut.chanLog then To(g.(shut := g.shut.(panicked := true)), Reading(pc))
      else To(g, Reading(Handle(todo[1..])))
  }

  function StepKeeper(g: Shared, t: nat, pc: KeepPc, ch: Choice): Outcome {
    match pc
    case Wait =>
      if ch.Go? then To(g, Keeping(Put))
      else if ch.Stop? && g.shut.stopCloses > 0 then Leave(g, t)
      else Blocked
    case Put =>
      if ch.Go? then To(g, Keeping(Wait))
      else if ch.Fail? then To(g, Reconnecting(Want))
      else Blocked
  }

  function NextAttempt(a: Attempt): Attempt {
    var doubled := a.backoff * 2;
    Attempt(a.i + 1, if doubled > MAX_BACKOFF then MAX_BACKOFF else doubled, a.slept + a.backoff)
  }

  function Dialed(g: Shared): Shared {
    var c := g.wire.nextConn;
    g.(wire := g.wire.(open := g.wire.open + {c}, nextConn := c + 1, held := Some(c)),
       tally := g.tally.(dials := g.tally.dials + 1))
  }

  function StepReconnect(g: Shared, t: nat, role: Role, pc: RecPc, ch: Choice): Outcome {
    match pc
    case Want => if g.mu.rec.None? then To(g.(mu := g.mu.(rec := Some(t))), Reconnecting(Check)) else Blocked
    case Check => To(g, Reconnecting(if g.shut.closed then Ret(false) else Count))
    case Count => To(g.(tally := g.tally.(reconnects := g.tally.reconnects + 1)), Reconnecting(DropLock))
    case DropLock => LockWs(g, t, Reconnecting(DropOld))
    case DropOld => To(g.(wire := Drop(g.wire)), Reconnecting(DropUnlock))
    case DropUnlock => To(UnlockWs(g), Reconnecting(Loop(Attempt(0, 1, 0))))
    case Loop(a) =>
      To(g, Reconnecting(if a.i >= MAX_ATTEMPTS || g.shut.stopCloses > 0 then Ret(false) else MakeKey(a)))
    case MakeKey(a) =>
      if ch.Go? then To(g.(tally := g.tally.(keys := g.tally.keys + 1)), Reconnecting(KeyLock(a)))
      else if ch.Fail? then To(g, Reconnecting(Sleep(a)))
      else Blocked
    case KeyLock(a) => LockWs(g, t, Reconnecting(KeySet(a)))
    case KeySet(a) => To(g, Reconnecting(KeyUnlock(a)))
    case KeyUnlock(a) => To(UnlockWs(g), Reconnecting(Dial(a)))
    case Dial(a) =>
      if ch.Go? then To(Dialed(g), Reconnecting(InstLock(g.wire.nextConn)))
      else if ch.Fail? then To(g, Reconnecting(Sleep(a)))
      else Blocked
    case Sleep(a) => To(g, Reconnecting(Loop(NextAttempt(a))))
    case InstLock(c) => LockWs(g, t, Reconnecting(Inst(c)))
    case Inst(c) => To(g.(wire := g.wire.(wsConn := Some(c), held := None)), Reconnecting(InstUnlock))
    case InstUnlock => To(UnlockWs(g), Reconnecting(Ret(true)))
    case Ret(ok) =>
      var g1 := g.(mu := g.mu.(rec := None));
      (match role
       case Reader => if ok then To(g1, Reading(Top)) else Leave(g1, t)
       case Keeper => To(g1, Keeping(Wait))
       case _ => To(g1, Exited))
  }

  const CLOSE_ORDER: seq<Chan> := [TradeCh, PositionCh, BalanceCh, AccountCh]

  function StepCloser(g: Shared, t: nat, pc: ClosePc, ch: Choice): Outcome {
    match pc
    case Cas =>
      if g.shut.closed then To(g, Exited)
      else To(g.(shut := g.shut.(closed := true, winner := Some(t), phase := Claimed)), Shutting(SignalStop))
    case SignalStop =>
      To(g.(shut := g.shut.(stopCloses := g.shut.stopCloses + 1, phase := Signalled)), Shutting(WsLock))
    case WsLock => LockWs(g, t, Shutting(WsClose))
    case WsClose => To(g.(wire := Drop(g.wire), shut := g.shut.(phase := Cleared)), Shutting(WsUnlock))
    case WsUnlock => To(UnlockWs(g), Shutting(Await))
    case Await =>
      if ch.Go? && g.shut.tokens == {} then To(g.(shut := g.shut.(phase := Waited)), Shutting(CloseChans(0)))
      else if ch.Fail? then To(g.(shut := g.shut.(phase := Waited, timedOut := true)), Shutting(CloseChans(0)))
      else Blocked
    case CloseChans(n) =>
      if n >= |CLOSE_ORDER| then To(g, Exited)
      else To(g.(shut := g.shut.(chanLog := g.shut.chanLog + [CLOSE_ORDER[n]])), Shutting(CloseChans(n + 1)))
  }

  function StepThread(g: Shared, t: nat, th: Thread, ch: Choice): Outcome {
    match th.pc
    case Reading(pc) => StepReader(g, t, pc, ch)
    case Keeping(pc) => StepKeeper(g, t, pc, ch)
    case Reconnecting(pc) => StepReconnect(g, t, th.role, pc, ch)
    case Shutting(pc) => StepCloser(g, t, pc, ch)
    case Exited => Blocked
  }

  /** One step, or None when the event is not possible (a lock is taken, a goroutine has exited,
      the process has panicked). */
  function Step(s: State, e: Event): Option<State> {
    if s.g.shut.panicked then None
    else match e
      case CallClose => Some(s.(threads := s.threads + [Thread(Closer, Shutting(Cas))]))
      case Run(t, ch) =>
        if t >= |s.threads| then None
        else match StepThread(s.g, t, s.threads[t], ch)
          case Blocked => None
          case Next(g, pc, spawned) =>
            Some(State(g, s.threads[t := s.threads[t].(pc := pc)]
                          + if spawned then [Thread(Async, Reconnecting(Want))] else []))
  }

  /** Executing a whole schedule; None when one of its events is not possible. */
  function Exec(s: State, es: seq<Event>): Option<State>
    decreases |es|
  {
    if es == [] then Some(s)
    else match Step(s, es[0])
      case None => None
      case Some(s1) => Exec(s1, es[1..])
  }

  // ---------------------------------------------------------------- what a goroutine holds

  predicate HoldsWs(pc: Pc) {
    match pc
    case Reading(r) => r.Peek? || r.Unlock?
    case Reconnecting(c) => c.DropOld? || c.DropUnlock? || c.KeySet? || c.KeyUnlock? || c.Inst? || c.InstUnlock?
    case Shutting(x) => x.WsClose? || x.WsUnlock?
    case _ => false
  }

  predicate HoldsRec(pc: Pc) {
    pc.Reconnecting? && !pc.c.Want?
  }

  predicate HasAttempt(c: RecPc) {
    c.Loop? || c.MakeKey? || c.KeyLock? || c.KeySet? || c.KeyUnlock? || c.Dial? || c.Sleep?
  }

  /** Between closing the old connection and dialing a new one. */
  predicate Emptied(c: RecPc) {
    c.DropUnlock? || HasAttempt(c)
  }

  /** Dialed, not yet stored in wsConn. */
  predicate HoldsFresh(c: RecPc) {
    c.InstLock? || c.Inst?
  }

  /** Past the increment of reconnectCount, no dial succeeded yet. */
  predicate Counting(c: RecPc) {
    c.DropLock? || c.DropOld? || Emptied(c)
  }

  predicate Fits(role: Role, pc: Pc) {
    match pc
    case Reading(_) => role.Reader?
    case Keeping(_) => role.Keeper?
    case Reconnecting(_) => !role.Closer?
    case Shutting(_) => role.Closer?
    case Exited => true
  }

  // ---------------------------------------------------------------- the invariant

  function Pow2(k: nat): (p: nat)
    ensures p >= 1
  {
    if k == 0 then 1 else 2 * Pow2(k - 1)
  }

  /** The backoff after k consecutive failed attempts: min(2^k, 30) seconds. */
  function Backoff(k: nat): nat {
    MinInt(Pow2(k), MAX_BACKOFF)
  }

  /** The time slept after k consecutive failed attempts, in seconds. */
  function TotalSleep(k: nat): nat {
    if k <= 5 then Pow2(k) - 1 else 31 + MAX_BACKOFF * (k - 5)
  }

  /** listenKeys the running reconnect may have created so far. */
  function KeysUsed(c: RecPc): nat {
    if c.Loop? || c.MakeKey? then c.a.i else if HasAttempt(c) then c.a.i + 1 else 0
  }

  function Current(w: Wire): set<nat> {
    if w.wsConn.Some? then {w.wsConn.value} else {}
  }

  predicate RoleOk(t: nat, th: Thread) {
    Fits(th.role, th.pc) && (th.role.Reader? <==> t == 0) && (th.role.Keeper? <==> t == 1)
  }

  predicate LockOk(mu: Mutexes, t: nat, pc: Pc) {
    (HoldsWs(pc) <==> mu.ws == Some(t)) && (HoldsRec(pc) <==> mu.rec == Some(t))
  }

  /** What a reconnect past its lock knows about the connections. */
  predicate WireOk(w: Wire, pc: Pc) {
    HoldsRec(pc) ==>
      && (Emptied(pc.c) ==> w.wsConn.None? && w.open == {})
      && (if HoldsFresh(pc.c) then w.held == Some(pc.c.dialed) else w.held.None?)
  }

  function PhaseOf(x: ClosePc): Phase {
    match x
    case Cas => Serving
    case SignalStop => Claimed
    case WsLock => Signalled
    case WsClose => Signalled
    case WsUnlock => Cleared
    case Await => Cleared
    case CloseChans(_) => Waited
  }

  /** What a Close call and the goroutines it waits for know about the shutdown. */
  predicate ShutOk(h: Shut, t: nat, th: Thread) {
    && (t in h.tokens <==> (th.role.Reader? || th.role.Keeper?) && !th.pc.Exited?)
    && (th.pc.Shutting? && !th.pc.x.Cas? ==>
          && h.winner == Some(t) && h.phase == PhaseOf(th.pc.x)
          && (th.pc.x.CloseChans? ==> th.pc.x.n == |h.chanLog|))
  }

  predicate AttemptOk(c: RecPc)
    requires HasAttempt(c)
  {
    && (if c.Loop? then c.a.i <= MAX_ATTEMPTS else c.a.i < MAX_ATTEMPTS)
    && c.a.backoff == Backoff(c.a.i) && c.a.slept == TotalSleep(c.a.i)
  }

  /** What a reconnect past its lock knows about the counters. */
  predicate CountersOk(y: Tally, pc: Pc) {
    HoldsRec(pc) && Counting(pc.c) ==>
      && y.reconnects > 0 && y.dials <= y.reconnects
      && y.keys <= 1 + 10 * (y.reconnects - 1) + KeysUsed(pc.c)
  }

  predicate TallyOk(y: Tally, pc: Pc) {
    && (pc.Reconnecting? && HasAttempt(pc.c) ==> AttemptOk(pc.c))
    && CountersOk(y, pc)
  }

  /** Past the closed check, before the old connection is dropped. */
  predicate BeforeDrop(c: RecPc) {
    c.Count? || c.DropLock? || c.DropOld?
  }

  /** Once Close has cleared wsConn, nothing a late goroutine drops can still be there. */
  predicate LateOk(g: Shared, pc: Pc) {
    && (pc == Shutting(WsUnlock) ==> g.wire.wsConn.None?)
    && (pc.Reconnecting? && BeforeDrop(pc.c) && (g.shut.phase.Cleared? || g.shut.phase.Waited?) ==> g.wire.wsConn.None?)
  }

  predicate Ok(g: Shared, t: nat, th: Thread) {
    && RoleOk(t, th) && LockOk(g.mu, t, th.pc) && WireOk(g.wire, th.pc) && LateOk(g, th.pc)
    && ShutOk(g.shut, t, th) && TallyOk(g.tally, th.pc)
  }

  /** Open connections: what wsConn names, except while a reconnect holds a fresh one. */
  predicate WireInv(g: Shared) {
    var w := g.wire;
    && (w.wsConn.Some? ==> w.wsConn.value < w.nextConn)
    && (forall c | c in w.open :: c < w.nextConn)
    && (if w.held.Some? then w.wsConn.None? && w.open == {w.held.value} else w.open <= Current(w))
    && (g.mu.rec.None? ==> w.held.None?)
  }

  predicate ShutInv(h: Shut) {
    && (h.closed <==> !h.phase.Serving?) && (h.winner.None? <==> h.phase.Serving?)
    && h.stopCloses == (if h.phase.Serving? || h.phase.Claimed? then 0 else 1)
    && h.chanLog <= CLOSE_ORDER && (h.chanLog != [] ==> h.phase.Waited?)
    && h.tokens <= {0, 1}
    && (h.phase.Waited? && !h.timedOut ==> h.tokens == {})
    && (h.timedOut ==> h.phase.Waited?)
    && (h.panicked ==> h.timedOut)
  }

  predicate TallyInv(y: Tally) {
    y.dials <= 1 + y.reconnects && y.keys <= 1 + 10 * y.reconnects
  }

  predicate GlobalInv(g: Shared) {
    WireInv(g) && ShutInv(g.shut) && TallyInv(g.tally)
  }

  predicate OwnersIn(g: Shared, n: nat) {
    && (g.mu.ws.Some? ==> g.mu.ws.value < n) && (g.mu.rec.Some? ==> g.mu.rec.value < n)
    && (g.shut.winner.Some? ==> g.shut.winner.value < n)
  }

  predicate Inv(s: State) {
    && |s.threads| >= 2
    && GlobalInv(s.g)
    && OwnersIn(s.g, |s.threads|)
    && forall t | 0 <= t < |s.threads| :: Ok(s.g, t, s.threads[t])
  }
}
