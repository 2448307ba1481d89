/** The adapter and one of its output streams together: what the adapter's goroutines send on a
    channel is what the channel's stream handles, and Close's closing of the channel is the stream's.
    The payloads, which the adapter's machine leaves out, come with its events. */
module AdapterStream {
  import opened Prelude
  import opened AdapterLifecycle
  import opened AdapterSafety
  import A = AdapterLifecycle
  import S = TradeStream

  datatype Joint<T> = Joint(adapter: State, stream: S.State<T>)

  /** A step of one of the adapter's goroutines, or of the channel's consumer. */
  datatype Move<T> = Adapter(e: Event, x: T) | Ingestor(own: S.Event<T>)

  function Init<T>(capacity: nat): Joint<T> {
    Joint(A.Init(), S.Init(capacity))
  }

  /** The next operation of the goroutine that is about to step. */
  function PcOf(s: State, e: Event): Pc {
    if e.Run? && e.t < |s.threads| then s.threads[e.t].pc else Exited
  }

  predicate SendsOn(s: State, e: Event, c: Chan) {
    var pc := PcOf(s, e);
    pc.Reading? && pc.r.Handle? && pc.r.todo != [] && pc.r.todo[0] == c
  }

  predicate ClosesChan(s: State, e: Event, c: Chan) {
    var pc := PcOf(s, e);
    pc.Shutting? && pc.x.CloseChans? && pc.x.n < |CLOSE_ORDER| && CLOSE_ORDER[pc.x.n] == c
  }

  /** What a move does to the stream of channel c. */
  function Effect<T>(s: State, m: Move<T>, c: Chan): Option<S.Event<T>> {
    match m
    case Adapter(e, x) =>
      if SendsOn(s, e, c) then Some(S.Update(x)) else if ClosesChan(s, e, c) then Some(S.CloseChannel) else None
    case Ingestor(own) => Some(own)
  }

  function StreamStep<T>(s: S.State<T>, e: Option<S.Event<T>>): Option<S.State<T>> {
    if e.Some? then S.Step(s, e.value) else Some(s)
  }

  function Listed<T>(x: Option<T>): seq<T> {
    if x.Some? then [x.value] else []
  }

  /** Only the adapter sends on the channel or closes it. */
  function Step<T>(j: Joint<T>, m: Move<T>, c: Chan): Option<Joint<T>> {
    if m.Ingestor? && (m.own.Update? || m.own.CloseChannel?) then None
    else
      var a := if m.Adapter? then A.Step(j.adapter, m.e) else Some(j.adapter);
      var b := StreamStep(j.stream, Effect(j.adapter, m, c));
      if a.Some? && b.Some? then Some(Joint(a.value, b.value)) else None
  }

  function Exec<T>(j: Joint<T>, ms: seq<Move<T>>, c: Chan): Option<Joint<T>>
    decreases |ms|
  {
    if ms == [] then Some(j)
    else match Step(j, ms[0], c)
      case None => None
      case Some(j1) => Exec(j1, ms[1..], c)
  }

  /** What the stream sees of a run. */
  function StreamOf<T>(j: Joint<T>, ms: seq<Move<T>>, c: Chan): seq<S.Event<T>>
    decreases |ms|
  {
    if ms == [] then []
    else match Step(j, ms[0], c)
      case None => []
      case Some(j1) => Listed(Effect(j.adapter, ms[0], c)) + StreamOf(j1, ms[1..], c)
  }

  function SentNow<T>(s: State, m: Move<T>, c: Chan): seq<T> {
    if m.Adapter? && SendsOn(s, m.e, c) then [m.x] else []
  }

  /** What the adapter sent on the channel in a run, in order. */
  function Sent<T>(j: Joint<T>, ms: seq<Move<T>>, c: Chan): seq<T>
    decreases |ms|
  {
    if ms == [] then []
    else match Step(j, ms[0], c)
      case None => []
      case Some(j1) => SentNow(j.adapter, ms[0], c) + Sent(j1, ms[1..], c)
  }

  /** The stream is closed exactly when the adapter has closed the channel. */
  ghost predicate Linked<T>(j: Joint<T>, c: Chan) {
    Inv(j.adapter) && (j.stream.closed <==> c in j.adapter.g.shut.chanLog)
  }

  /** Only a Close caller past its wait touches the list of closed channels. */
  lemma ChanLogOfThread(g: Shared, t: nat, th: Thread, ch: Choice)
    requires StepThread(g, t, th, ch).Next? && !(th.pc.Shutting? && th.pc.x.CloseChans?)
    ensures StepThread(g, t, th, ch).g.shut.chanLog == g.shut.chanLog
  {
    match th.pc
    case Reconnecting(c) => ChanLogOfReconnect(g, t, th.role, c, ch);
    case _ =>
  }

  lemma ChanLogOfReconnect(g: Shared, t: nat, role: Role, pc: RecPc, ch: Choice)
    requires StepReconnect(g, t, role, pc, ch).Next?
    ensures StepReconnect(g, t, role, pc, ch).g.shut == g.shut || pc.Ret?
    ensures StepReconnect(g, t, role, pc, ch).g.shut.chanLog == g.shut.chanLog
  {
  }

  /** Closing the next channel in the fixed order. */
  lemma NextChan(log: seq<Chan>, c: Chan)
    requires log <= CLOSE_ORDER && |log| < |CLOSE_ORDER|
    ensures CLOSE_ORDER[|log|] !in log
    ensures c in log + [CLOSE_ORDER[|log|]] <==> c in log || CLOSE_ORDER[|log|] == c
  {
    assert forall i | 0 <= i < |log| :: log[i] == CLOSE_ORDER[i];
  }

  lemma CloseAdds(s: State, e: Event, c: Chan)
    requires Inv(s) && A.Step(s, e).Some?
    ensures var log, log' := s.g.shut.chanLog, A.Step(s, e).value.g.shut.chanLog;
            && (c in log' <==> c in log || ClosesChan(s, e, c))
            && (ClosesChan(s, e, c) ==> c !in log)
  {
    if e.Run? {
      var th := s.threads[e.t];
      assert Ok(s.g, e.t, th);
      if th.pc.Shutting? && th.pc.x.CloseChans? {
        if th.pc.x.n < |CLOSE_ORDER| {
          NextChan(s.g.shut.chanLog, c);
        }
      } else {
        ChanLogOfThread(s.g, e.t, th, e.choice);
      }
    }
  }

  lemma ClosedAfter<T>(s: S.State<T>, e: Option<S.Event<T>>)
    requires StreamStep(s, e).Some?
    ensures StreamStep(s, e).value.closed <==> s.closed || (e.Some? && e.value.CloseChannel?)
  {
  }

  lemma StepKeepsClosed<T>(j: Joint<T>, m: Move<T>, c: Chan)
    requires Inv(j.adapter) && (j.stream.closed <==> c in j.adapter.g.shut.chanLog) && Step(j, m, c).Some?
    ensures var j' := Step(j, m, c).value; j'.stream.closed <==> c in j'.adapter.g.shut.chanLog
  {
    ClosedAfter(j.stream, Effect(j.adapter, m, c));
    if m.Adapter? {
      CloseAdds(j.adapter, m.e, c);
    }
  }

  lemma StepKeepsLink<T>(j: Joint<T>, m: Move<T>, c: Chan)
    requires Linked(j, c) && Step(j, m, c).Some?
    ensures Linked(Step(j, m, c).value, c)
  {
    StepKeepsClosed(j, m, c);
    if m.Adapter? {
      StepKeepsInv(j.adapter, m.e);
    }
  }

  lemma SendsBeforeClose(s: State, e: Event, c: Chan)
    requires Inv(s) && !s.g.shut.timedOut && SendsOn(s, e, c)
    ensures s.g.shut.chanLog == []
  {
    assert Ok(s.g, e.t, s.threads[e.t]);
  }

  /** The adapter never waits for the stream: a step it can take, the two can take together, unless it
      is a send on the closed channel; and only a Close whose wait timed out leaves one to come. */
  lemma AdapterIsRefusedIff<T>(j: Joint<T>, e: Event, x: T, c: Chan)
    requires Linked(j, c) && A.Step(j.adapter, e).Some?
    ensures Step(j, Adapter(e, x), c).None? <==> SendsOn(j.adapter, e, c) && c in j.adapter.g.shut.chanLog
    ensures SendsOn(j.adapter, e, c) && c in j.adapter.g.shut.chanLog ==> j.adapter.g.shut.timedOut
  {
    CloseAdds(j.adapter, e, c);
    if SendsOn(j.adapter, e, c) && !j.adapter.g.shut.timedOut {
      SendsBeforeClose(j.adapter, e, c);
    }
  }

  // ---------------------------------------------------------------- whole runs

  function AdapterOf<T>(ms: seq<Move<T>>): seq<Event> {
    if ms == [] then [] else (if ms[0].Adapter? then [ms[0].e] else []) + AdapterOf(ms[1..])
  }

  /** The two parts of a joint run are a run of the adapter and one of the stream. */
  lemma {:induction false} RunParts<T>(j: Joint<T>, ms: seq<Move<T>>, c: Chan)
    requires Linked(j, c) && Exec(j, ms, c).Some?
    ensures var j' := Exec(j, ms, c).value;
            && Linked(j', c)
            && A.Exec(j.adapter, AdapterOf(ms)) == Some(j'.adapter)
            && S.Exec(j.stream, StreamOf(j, ms, c)) == Some(j'.stream)
            && S.Updates(StreamOf(j, ms, c)) == Sent(j, ms, c)
    decreases |ms|
  {
    if ms != [] {
      var j1 := Step(j, ms[0], c).value;
      StepKeepsLink(j, ms[0], c);
      RunParts(j1, ms[1..], c);
      StreamCons(j.stream, Effect(j.adapter, ms[0], c), StreamOf(j1, ms[1..], c));
      AdapterCons(j, ms, c);
    }
  }

  lemma AdapterCons<T>(j: Joint<T>, ms: seq<Move<T>>, c: Chan)
    requires ms != [] && Step(j, ms[0], c).Some?
    ensures A.Exec(j.adapter, AdapterOf(ms)) == A.Exec(Step(j, ms[0], c).value.adapter, AdapterOf(ms[1..]))
  {
    var rest := AdapterOf(ms[1..]);
    if ms[0].Adapter? {
      assert ([ms[0].e] + rest)[1..] == rest;
    } else {
      assert [] + rest == rest;
    }
  }

  /** A step's stream events come first. */
  lemma StreamCons<T>(s: S.State<T>, now: Option<S.Event<T>>, rest: seq<S.Event<T>>)
    requires StreamStep(s, now).Some?
    ensures S.Exec(s, Listed(now) + rest) == S.Exec(StreamStep(s, now).value, rest)
    ensures S.Updates(Listed(now) + rest) == (if now.Some? then S.Now(now.value) else []) + S.Updates(rest)
  {
    if now.None? {
      assert [] + rest == rest && [] + S.Updates(rest) == S.Updates(rest);
    } else {
      assert ([now.value] + rest)[1..] == rest;
    }
  }

  /** The consumer loop never failed to publish what it took. */
  ghost predicate AllPublish<T>(ms: seq<Move<T>>) {
    forall i | 0 <= i < |ms| && ms[i].Ingestor? && ms[i].own.Publish? :: ms[i].own.marshaled && ms[i].own.accepted
  }

  lemma {:induction false} StreamIsFine<T>(j: Joint<T>, ms: seq<Move<T>>, c: Chan)
    requires AllPublish(ms) && Exec(j, ms, c).Some?
    ensures S.AllFine(StreamOf(j, ms, c))
    decreases |ms|
  {
    if ms != [] {
      StreamIsFine(Step(j, ms[0], c).value, ms[1..], c);
    }
  }

  // ---------------------------------------------------------------- how far the loop falls behind

  function TakesOf<T>(ms: seq<Move<T>>): nat {
    if ms == [] then 0
    else
      var m := ms[|ms| - 1];
      TakesOf(ms[..|ms| - 1]) + if m.Ingestor? && m.own.Take? then 1 else 0
  }

  /** How many more updates were sent on the channel than taken, after k moves. */
  function Lead<T>(j: Joint<T>, ms: seq<Move<T>>, c: Chan, k: nat): int
    requires k <= |ms|
  {
    |Sent(j, ms[..k], c)| - TakesOf(ms[..k])
  }

  /** At every moment of the run at most capacity updates sent on the channel have not been taken. */
  ghost predicate KeepsPace<T>(j: Joint<T>, ms: seq<Move<T>>, c: Chan, capacity: nat) {
    forall k: nat | k <= |ms| :: Lead(j, ms, c, k) <= capacity
  }

  lemma LeadStays<T>(j: Joint<T>, ms: seq<Move<T>>, m: Move<T>, c: Chan, k: nat)
    requires k <= |ms|
    ensures Lead(j, ms + [m], c, k) == Lead(j, ms, c, k)
  {
    assert (ms + [m])[..k] == ms[..k];
  }

  lemma LastLead<T>(j: Joint<T>, ms: seq<Move<T>>, c: Chan)
    ensures Lead(j, ms, c, |ms|) == |Sent(j, ms, c)| - TakesOf(ms)
  {
    assert ms[..|ms|] == ms;
  }

  /** A run and its last move. */
  lemma {:induction false} ExecSnoc<T>(j: Joint<T>, ms: seq<Move<T>>, m: Move<T>, c: Chan)
    requires Exec(j, ms + [m], c).Some?
    ensures Exec(j, ms, c).Some? && Step(Exec(j, ms, c).value, m, c) == Exec(j, ms + [m], c)
    decreases |ms|
  {
    if ms == [] {
      assert ([] + [m])[1..] == [];
    } else {
      assert (ms + [m])[1..] == ms[1..] + [m];
      ExecSnoc(Step(j, ms[0], c).value, ms[1..], m, c);
    }
  }

  lemma OneMove<T>(j: Joint<T>, m: Move<T>, c: Chan)
    requires Step(j, m, c).Some?
    ensures StreamOf(j, [m], c) == Listed(Effect(j.adapter, m, c)) && Sent(j, [m], c) == SentNow(j.adapter, m, c)
  {
    var j1 := Step(j, m, c).value;
    assert [m][1..] == [] && StreamOf(j1, [], c) == [] && Sent(j1, [], c) == [];
  }

  lemma {:induction false} StreamSnoc<T>(j: Joint<T>, ms: seq<Move<T>>, m: Move<T>, c: Chan)
    requires Exec(j, ms, c).Some? && Step(Exec(j, ms, c).value, m, c).Some?
    ensures StreamOf(j, ms + [m], c) == StreamOf(j, ms, c) + Listed(Effect(Exec(j, ms, c).value.adapter, m, c))
    decreases |ms|
  {
    if ms == [] {
      assert [] + [m] == [m];
      OneMove(j, m, c);
    } else {
      assert (ms + [m])[1..] == ms[1..] + [m] && (ms + [m])[0] == ms[0];
      StreamSnoc(Step(j, ms[0], c).value, ms[1..], m, c);
    }
  }

  lemma {:induction false} SentSnoc<T>(j: Joint<T>, ms: seq<Move<T>>, m: Move<T>, c: Chan)
    requires Exec(j, ms, c).Some? && Step(Exec(j, ms, c).value, m, c).Some?
    ensures Sent(j, ms + [m], c) == Sent(j, ms, c) + SentNow(Exec(j, ms, c).value.adapter, m, c)
    decreases |ms|
  {
    if ms == [] {
      assert [] + [m] == [m];
      OneMove(j, m, c);
    } else {
      assert (ms + [m])[1..] == ms[1..] + [m] && (ms + [m])[0] == ms[0];
      SentSnoc(Step(j, ms[0], c).value, ms[1..], m, c);
    }
  }

  lemma KeepsPaceSnoc<T>(j: Joint<T>, ms: seq<Move<T>>, m: Move<T>, c: Chan, capacity: nat)
    ensures KeepsPace(j, ms + [m], c, capacity)
            <==> KeepsPace(j, ms, c, capacity) && Lead(j, ms + [m], c, |ms| + 1) <= capacity
  {
    forall k: nat | k <= |ms|
      ensures Lead(j, ms + [m], c, k) == Lead(j, ms, c, k)
    {
      LeadStays(j, ms, m, c, k);
    }
    if KeepsPace(j, ms + [m], c, capacity) {
      forall k: nat | k <= |ms|
        ensures Lead(j, ms, c, k) <= capacity
      {
        assert Lead(j, ms + [m], c, k) <= capacity;
      }
    }
  }

  lemma TakesOfSnoc<T>(ms: seq<Move<T>>, m: Move<T>)
    ensures TakesOf(ms + [m]) == TakesOf(ms) + if m.Ingestor? && m.own.Take? then 1 else 0
  {
    assert (ms + [m])[..|ms|] == ms;
  }

  /** Keeping pace, for the joint run and for the stream alone. */
  ghost predicate SamePace<T>(j: Joint<T>, ms: seq<Move<T>>, es: seq<S.Event<T>>, c: Chan, capacity: nat) {
    && TakesOf(ms) == S.Takes(es) && |Sent(j, ms, c)| == |S.Updates(es)|
    && (KeepsPace(j, ms, c, capacity) <==> S.KeepsUp(es, capacity))
  }

  lemma PaceNext<T>(j: Joint<T>, ms: seq<Move<T>>, m: Move<T>, es: seq<S.Event<T>>, e: Option<S.Event<T>>, c: Chan,
                    capacity: nat)
    requires SamePace(j, ms, es, c, capacity)
    requires |Sent(j, ms + [m], c)| == |Sent(j, ms, c)| + if e.Some? && e.value.Update? then 1 else 0
    requires m.Ingestor? && m.own.Take? <==> e.Some? && e.value.Take?
    ensures SamePace(j, ms + [m], es + Listed(e), c, capacity)
  {
    TakesOfSnoc(ms, m);
    KeepsPaceSnoc(j, ms, m, c, capacity);
    LastLead(j, ms + [m], c);
    if e.Some? {
      S.ScheduleSnoc(es, e.value, capacity);
      S.KeepsUpSnoc(es, e.value, capacity);
    } else {
      assert es + [] == es;
      PaceUnchanged(j, ms, c, capacity);
    }
  }

  lemma EffectKinds<T>(j: Joint<T>, m: Move<T>, c: Chan)
    requires Step(j, m, c).Some?
    ensures var e := Effect(j.adapter, m, c);
            && |SentNow(j.adapter, m, c)| == (if e.Some? && e.value.Update? then 1 else 0)
            && (m.Ingestor? && m.own.Take? <==> e.Some? && e.value.Take?)
  {
  }

  lemma {:induction false} PaceIsKept<T>(j: Joint<T>, ms: seq<Move<T>>, c: Chan, capacity: nat)
    requires Exec(j, ms, c).Some?
    ensures SamePace(j, ms, StreamOf(j, ms, c), c, capacity)
  {
    if ms != [] {
      var front, m := ms[..|ms| - 1], ms[|ms| - 1];
      assert ms == front + [m];
      ExecSnoc(j, front, m, c);
      PaceIsKept(j, front, c, capacity);
      StreamSnoc(j, front, m, c);
      SentSnoc(j, front, m, c);
      EffectKinds(Exec(j, front, c).value, m, c);
      PaceNext(j, front, m, StreamOf(j, front, c), Effect(Exec(j, front, c).value.adapter, m, c), c, capacity);
    }
  }

  lemma PaceUnchanged<T>(j: Joint<T>, ms: seq<Move<T>>, c: Chan, capacity: nat)
    ensures KeepsPace(j, ms, c, capacity) ==> |Sent(j, ms, c)| - TakesOf(ms) <= capacity
  {
    LastLead(j, ms, c);
  }

  /** From the socket to Kafka, for every channel and every interleaving of the adapter's goroutines,
      reconnects and Close calls with the ingestor's loop: what is published is an in-order part of
      what the adapter sent on that channel, every send is dropped, queued or taken, nothing is dropped
      exactly when the loop keeps pace with the sends, and if it does and every publish worked, a loop
      that ended because the channel was closed has published exactly what was sent, and, unless
      Close gave up waiting, all that ever will be. */
  lemma SentIsPublished<T>(capacity: nat, ms: seq<Move<T>>, c: Chan)
    requires Exec(Init<T>(capacity), ms, c).Some?
    ensures var j, sent := Exec(Init<T>(capacity), ms, c).value, Sent(Init<T>(capacity), ms, c);
            && Reachable(j.adapter)
            && |sent| == j.stream.dropped + |j.stream.queue| + j.stream.taken
            && S.Subsequence(j.stream.published, sent)
            && (j.stream.closed <==> c in j.adapter.g.shut.chanLog)
            && (j.stream.dropped == 0 <==> KeepsPace(Init<T>(capacity), ms, c, capacity))
            && (AllPublish(ms) && j.stream.dropped == 0 && j.stream.consumer.Returned? && !j.stream.stopped ==>
                  j.stream.published == sent && c in j.adapter.g.shut.chanLog)
            && (c in j.adapter.g.shut.chanLog && !j.adapter.g.shut.timedOut ==>
                  forall e :: !SendsOn(j.adapter, e, c))
  {
    var j0 := Init<T>(capacity);
    var j := Exec(j0, ms, c).value;
    InitOk();
    RunParts(j0, ms, c);
    assert A.Exec(A.Init(), AdapterOf(ms)) == Some(j.adapter);
    var es := StreamOf(j0, ms, c);
    S.StreamIsConserved(capacity, es);
    S.NothingIsDroppedIff(capacity, es);
    PaceIsKept(j0, ms, c, capacity);
    if AllPublish(ms) && j.stream.dropped == 0 {
      StreamIsFine(j0, ms, c);
      S.NothingElseIsLost(capacity, es);
      S.DoneRightRun(S.Init(capacity), es);
    }
    forall e | c in j.adapter.g.shut.chanLog && !j.adapter.g.shut.timedOut
      ensures !SendsOn(j.adapter, e, c)
    {
      if SendsOn(j.adapter, e, c) {
        SendsBeforeClose(j.adapter, e, c);
      }
    }
  }

  lemma InitOk()
    ensures Inv(A.Init())
  {
  }

  // ---------------------------------------------------------------- what the adapter sends

  /** How many updates a message holds for a channel. */
  function Wanted(m: Message, c: Chan): nat {
    match m
    case OrderTradeUpdate(isTrade) => if isTrade && c == TradeCh then 1 else 0
    case AccountUpdate(balances, positions) =>
      if c == BalanceCh then balances else if c == PositionCh then positions else if c == AccountCh then 1 else 0
    case _ => 0
  }

  function CountOf(todo: seq<Chan>, c: Chan): nat {
    if todo == [] then 0 else (if todo[0] == c then 1 else 0) + CountOf(todo[1..], c)
  }

  lemma {:induction false} CountRepeat(d: Chan, n: nat, c: Chan)
    ensures CountOf(Repeat(d, n), c) == if c == d then n else 0
  {
    if n > 0 {
      assert Repeat(d, n)[1..] == Repeat(d, n - 1);
      CountRepeat(d, n - 1, c);
    }
  }

  lemma {:induction false} CountAppend(a: seq<Chan>, b: seq<Chan>, c: Chan)
    ensures CountOf(a + b, c) == CountOf(a, c) + CountOf(b, c)
  {
    if a == [] {
      assert a + b == b;
    } else {
      assert (a + b)[1..] == a[1..] + b;
      CountAppend(a[1..], b, c);
    }
  }

  lemma SendsAreWanted(m: Message, c: Chan)
    ensures CountOf(Sends(m), c) == Wanted(m, c)
  {
    match m
    case OrderTradeUpdate(_) => assert [TradeCh][1..] == [];
    case AccountUpdate(b, p) =>
      var bs, ps := Repeat(BalanceCh, b), Repeat(PositionCh, p);
      CountRepeat(BalanceCh, b, c);
      CountRepeat(PositionCh, p, c);
      CountAppend(bs, ps, c);
      CountAppend(bs + ps, [AccountCh], c);
      assert [AccountCh][1..] == [];
    case _ =>
  }

  /** What the message the read loop gets in a move, if it gets one, holds for a channel. */
  function DueNow<T>(s: State, m: Move<T>, c: Chan): nat {
    if m.Adapter? && PcOf(s, m.e).Reading? && PcOf(s, m.e).r.Read? && m.e.choice.Deliver?
    then Wanted(m.e.choice.m, c) else 0
  }

  /** What a run's messages hold for a channel, all together. */
  function Due<T>(j: Joint<T>, ms: seq<Move<T>>, c: Chan): nat
    decreases |ms|
  {
    if ms == [] then 0
    else match Step(j, ms[0], c)
      case None => 0
      case Some(j1) => DueNow(j.adapter, ms[0], c) + Due(j1, ms[1..], c)
  }

  /** Updates of the message in hand that are still to be sent on the channel. */
  function InHand(s: State, c: Chan): nat
    requires s.threads != []
  {
    match s.threads[0].pc
    case Reading(Handle(todo)) => CountOf(todo, c)
    case _ => 0
  }

  lemma InHandStep<T>(j: Joint<T>, m: Move<T>, c: Chan)
    requires Linked(j, c) && Step(j, m, c).Some?
    ensures var j1 := Step(j, m, c).value;
            && j1.adapter.threads != []
            && InHand(j1.adapter, c) + |SentNow(j.adapter, m, c)| == InHand(j.adapter, c) + DueNow(j.adapter, m, c)
  {
    if m.Adapter? && m.e.Run? {
      var t := m.e.t;
      assert Ok(j.adapter.g, t, j.adapter.threads[t]) && Ok(j.adapter.g, 0, j.adapter.threads[0]);
      if t == 0 && j.adapter.threads[0].pc.Reading? {
        ReaderInHand(j, m, c);
      }
    }
  }

  lemma ReaderInHand<T>(j: Joint<T>, m: Move<T>, c: Chan)
    requires m.Adapter? && m.e.Run? && m.e.t == 0 < |j.adapter.threads| && Step(j, m, c).Some?
    requires j.adapter.threads[0].pc.Reading? && (j.stream.closed <==> c in j.adapter.g.shut.chanLog)
    ensures var j1 := Step(j, m, c).value;
            && j1.adapter.threads != []
            && InHand(j1.adapter, c) + |SentNow(j.adapter, m, c)| == InHand(j.adapter, c) + DueNow(j.adapter, m, c)
  {
    if j.adapter.threads[0].pc.r.Read? && m.e.choice.Deliver? {
      SendsAreWanted(m.e.choice.m, c);
    }
  }

  lemma {:induction false} SentIsDue<T>(j: Joint<T>, ms: seq<Move<T>>, c: Chan)
    requires Linked(j, c) && Exec(j, ms, c).Some?
    ensures var j' := Exec(j, ms, c).value;
            && Linked(j', c)
            && |Sent(j, ms, c)| + InHand(j'.adapter, c) == Due(j, ms, c) + InHand(j.adapter, c)
    decreases |ms|
  {
    if ms != [] {
      InHandStep(j, ms[0], c);
      StepKeepsLink(j, ms[0], c);
      SentIsDue(Step(j, ms[0], c).value, ms[1..], c);
    }
  }

  /** Message by message, nothing is lost on the way to the channels: in every run the updates sent on a
      channel, with those of the message in hand still to come, are exactly as many as the messages
      read hold for it: one per trade, and per account update its balances, its positions and one. */
  lemma EveryMessageIsSent<T>(capacity: nat, ms: seq<Move<T>>, c: Chan)
    requires Exec(Init<T>(capacity), ms, c).Some?
    ensures var j := Exec(Init<T>(capacity), ms, c).value;
            && j.adapter.threads != []
            && |Sent(Init<T>(capacity), ms, c)| + InHand(j.adapter, c) == Due(Init<T>(capacity), ms, c)
  {
    InitOk();
    SentIsDue(Init<T>(capacity), ms, c);
  }

  function Turn(c: Chan): nat {
    match c
    case TradeCh => 0
    case BalanceCh => 1
    case PositionCh => 2
    case AccountCh => 3
  }

  /** A message's balances are sent before its positions, and the account update last. */
  lemma SendsInOrder(m: Message, i: nat, k: nat)
    requires i < k < |Sends(m)|
    ensures Turn(Sends(m)[i]) <= Turn(Sends(m)[k])
  {
  }
}
