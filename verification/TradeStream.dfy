/** One output channel of the adapter and the ingestor loop that empties it into Kafka.
    The adapter's handler drops an update when the channel is full; the consumer loop takes,
    marshals and publishes one update at a time until it is stopped. The four channels differ
    only in element type and capacity, so both are parameters. */
module TradeStream {
  import opened Prelude

  /** The consumer loop: waiting in its select, publishing the update it took, or returned. */
  datatype Consumer<T> = Idle | Publishing(x: T) | Returned

  datatype State<T> = State(
    capacity: nat,
    queue: seq<T>,            // the buffered channel
    closed: bool,             // the channel is closed
    stopped: bool,            // the ingestor's stopCh is closed or its context is done
    consumer: Consumer<T>,
    handled: nat, dropped: nat, taken: nat,
    published: seq<T>)        // what reached Kafka, in order

  datatype Event<T> =
    | Update(x: T)            // a handler runs its non-blocking send
    | Take                    // the select picks the channel
    | Publish(marshaled: bool, accepted: bool)
    | SignalStop
    | CloseChannel
    | ReturnOnStop | ReturnOnClosed

  function Init<T>(capacity: nat): State<T> {
    State(capacity, [], false, false, Idle, 0, 0, 0, [])
  }

  /** One step; None when the event is not possible. A send after the close is not part of a run. */
  function Step<T>(s: State<T>, e: Event<T>): Option<State<T>> {
    match e
    case Update(x) =>
      if s.closed then None
      else if |s.queue| < s.capacity then Some(s.(queue := s.queue + [x], handled := s.handled + 1))
      else Some(s.(handled := s.handled + 1, dropped := s.dropped + 1))
    case Take =>
      if s.consumer.Idle? && s.queue != [] then
        Some(s.(queue := s.queue[1..], taken := s.taken + 1, consumer := Publishing(s.queue[0])))
      else None
    case Publish(marshaled, accepted) =>
      if s.consumer.Publishing? then
        Some(s.(consumer := Idle,
                published := if marshaled && accepted then s.published + [s.consumer.x] else s.published))
      else None
    case SignalStop => Some(s.(stopped := true))
    case CloseChannel => if s.closed then None else Some(s.(closed := true))
    case ReturnOnStop => if s.consumer.Idle? && s.stopped then Some(s.(consumer := Returned)) else None
    case ReturnOnClosed =>
      if s.consumer.Idle? && s.closed && s.queue == [] then Some(s.(consumer := Returned)) else None
  }

  function Exec<T>(s: State<T>, es: seq<Event<T>>): Option<State<T>>
    decreases |es|
  {
    if es == [] then Some(s)
    else match Step(s, es[0])
      case None => None
      case Some(s1) => Exec(s1, es[1..])
  }

  /** The updates handled by a schedule, in order. */
  function Updates<T>(es: seq<Event<T>>): (us: seq<T>) {
    if es == [] then [] else Now(es[0]) + Updates(es[1..])
  }

  function Now<T>(e: Event<T>): seq<T> {
    if e.Update? then [e.x] else []
  }

  // ---------------------------------------------------------------- where each update ended up

  /** The positions, among the updates handled, of those published, in flight and queued. */
  datatype Trace = Trace(out: seq<nat>, held: seq<nat>, waiting: seq<nat>)

  ghost predicate Increasing(p: seq<nat>) {
    forall i, j | 0 <= i < j < |p| :: p[i] < p[j]
  }

  /** `xs` is what `us` holds at the positions `p`. */
  ghost predicate Reads<T>(p: seq<nat>, xs: seq<T>, us: seq<T>) {
    |p| == |xs| && forall i | 0 <= i < |p| :: p[i] < |us| && us[p[i]] == xs[i]
  }

  function Held<T>(c: Consumer<T>): seq<T> {
    if c.Publishing? then [c.x] else []
  }

  ghost predicate Explains<T>(tr: Trace, s: State<T>, us: seq<T>) {
    && Increasing(tr.out + tr.held + tr.waiting)
    && Reads(tr.out, s.published, us)
    && Reads(tr.held, Held(s.consumer), us)
    && Reads(tr.waiting, s.queue, us)
  }

  ghost predicate Counts<T>(s: State<T>, us: seq<T>) {
    && s.handled == |us|
    && s.handled == s.dropped + |s.queue| + s.taken
    && |s.queue| <= s.capacity
    && |s.published| + |Held(s.consumer)| <= s.taken
  }

  lemma ReadsMore<T>(p: seq<nat>, xs: seq<T>, us: seq<T>, more: seq<T>)
    requires Reads(p, xs, us)
    ensures Reads(p, xs, us + more)
  {
  }

  lemma UpdateExplained<T>(tr: Trace, s: State<T>, us: seq<T>, x: T) returns (tr': Trace)
    requires Explains(tr, s, us) && Counts(s, us) && Step(s, Update(x)).Some?
    ensures Explains(tr', Step(s, Update(x)).value, us + [x])
  {
    ReadsMore(tr.out, s.published, us, [x]);
    ReadsMore(tr.held, Held(s.consumer), us, [x]);
    ReadsMore(tr.waiting, s.queue, us, [x]);
    tr' := tr;
    if |s.queue| < s.capacity {
      tr' := tr.(waiting := tr.waiting + [|us|]);
      AllBelow(tr, s, us);
      assert tr'.out + tr'.held + tr'.waiting == tr.out + tr.held + tr.waiting + [|us|];
    }
  }

  lemma PublishExplained<T>(tr: Trace, s: State<T>, us: seq<T>, e: Event<T>) returns (tr': Trace)
    requires Explains(tr, s, us) && Counts(s, us) && e.Publish? && Step(s, e).Some?
    ensures Explains(tr', Step(s, e).value, us)
  {
    if e.marshaled && e.accepted {
      tr' := Trace(tr.out + tr.held, [], tr.waiting);
      assert tr'.out + tr'.held + tr'.waiting == tr.out + tr.held + tr.waiting;
    } else {
      tr' := Trace(tr.out, [], tr.waiting);
      SkipHeld(tr);
    }
  }

  lemma TakeExplained<T>(tr: Trace, s: State<T>, us: seq<T>) returns (tr': Trace)
    requires Explains(tr, s, us) && Counts(s, us) && Step(s, Take).Some?
    ensures Explains(tr', Step(s, Take).value, us)
  {
    tr' := Trace(tr.out, [tr.waiting[0]], tr.waiting[1..]);
    assert tr.held == [];
    assert tr'.out + tr'.held + tr'.waiting == tr.out + tr.held + tr.waiting;
  }

  lemma StepCounts<T>(s: State<T>, us: seq<T>, e: Event<T>)
    requires Counts(s, us) && Step(s, e).Some?
    ensures Counts(Step(s, e).value, us + Now(e))
  {
  }

  lemma StepExplained<T>(tr: Trace, s: State<T>, us: seq<T>, e: Event<T>) returns (tr': Trace)
    requires Explains(tr, s, us) && Counts(s, us) && Step(s, e).Some?
    ensures Explains(tr', Step(s, e).value, us + Now(e))
  {
    assert e.Update? || us + Now(e) == us;
    match e
    case Update(x) => tr' := UpdateExplained(tr, s, us, x);
    case Take => tr' := TakeExplained(tr, s, us);
    case Publish(_, _) => tr' := PublishExplained(tr, s, us, e);
    case _ => tr' := tr;
  }

  lemma AllBelow<T>(tr: Trace, s: State<T>, us: seq<T>)
    requires Explains(tr, s, us)
    ensures forall i | 0 <= i < |tr.out + tr.held + tr.waiting| :: (tr.out + tr.held + tr.waiting)[i] < |us|
  {
  }

  lemma SkipHeld(tr: Trace)
    requires Increasing(tr.out + tr.held + tr.waiting)
    ensures Increasing(tr.out + [] + tr.waiting)
  {
    var all := tr.out + tr.held + tr.waiting;
    var few := tr.out + [] + tr.waiting;
    var n := |tr.out|;
    forall i, j | 0 <= i < j < |few|
      ensures few[i] < few[j]
    {
      assert few[i] == all[if i < n then i else i + |tr.held|];
      assert few[j] == all[if j < n then j else j + |tr.held|];
    }
  }

  lemma UpdatesSplit<T>(us: seq<T>, es: seq<Event<T>>)
    requires es != []
    ensures us + Updates(es) == us + Now(es[0]) + Updates(es[1..])
  {
  }

  lemma {:induction false} RunExplained<T>(tr: Trace, s: State<T>, us: seq<T>, es: seq<Event<T>>) returns (tr': Trace)
    requires Explains(tr, s, us) && Counts(s, us) && Exec(s, es).Some?
    ensures Explains(tr', Exec(s, es).value, us + Updates(es)) && Counts(Exec(s, es).value, us + Updates(es))
    decreases |es|
  {
    if es == [] {
      assert us + Updates(es) == us;
      tr' := tr;
    } else {
      var tr1 := StepExplained(tr, s, us, es[0]);
      StepCounts(s, us, es[0]);
      tr' := RunExplained(tr1, Step(s, es[0]).value, us + Now(es[0]), es[1..]);
      UpdatesSplit(us, es);
    }
  }

  // ---------------------------------------------------------------- the promises

  /** `xs` is an in-order subsequence of `us` that uses no position twice. */
  ghost predicate Subsequence<T>(xs: seq<T>, us: seq<T>) {
    exists p: seq<nat> :: Increasing(p) && Reads(p, xs, us)
  }

  /** Conservation, bound and order, for any drops, marshal or publish failures and any stop or
      close point: every handled update was dropped, is queued or was taken; the queue never
      exceeds the capacity; what was published, followed by what is still in flight and queued,
      is an in-order subsequence of the updates handled, each used at most once. */
  lemma StreamIsConserved<T>(capacity: nat, es: seq<Event<T>>)
    requires Exec(Init<T>(capacity), es).Some?
    ensures var s := Exec(Init<T>(capacity), es).value;
            && |Updates(es)| == s.dropped + |s.queue| + s.taken
            && s.handled == |Updates(es)|
            && |s.queue| <= capacity
            && |s.published| <= s.taken
            && Subsequence(s.published, Updates(es))
            && Subsequence(s.published + Held(s.consumer) + s.queue, Updates(es))
  {
    var s0 := Init<T>(capacity);
    var tr := RunExplained(Trace([], [], []), s0, [], es);
    assert [] + Updates(es) == Updates(es);
    CapacityIsFixed(s0, es);
    ExplainedInOrder(tr, Exec(s0, es).value, Updates(es));
  }

  lemma ExplainedInOrder<T>(tr: Trace, s: State<T>, us: seq<T>)
    requires Explains(tr, s, us)
    ensures Subsequence(s.published, us) && Subsequence(s.published + Held(s.consumer) + s.queue, us)
  {
    forall i, j | 0 <= i < j < |tr.out|
      ensures tr.out[i] < tr.out[j]
    {
      assert tr.out[i] == (tr.out + tr.held + tr.waiting)[i] && tr.out[j] == (tr.out + tr.held + tr.waiting)[j];
    }
    assert Increasing(tr.out);
    assert Reads(tr.out + tr.held + tr.waiting, s.published + Held(s.consumer) + s.queue, us);
  }

  lemma {:induction false} CapacityIsFixed<T>(s: State<T>, es: seq<Event<T>>)
    requires Exec(s, es).Some?
    ensures Exec(s, es).value.capacity == s.capacity
    decreases |es|
  {
    if es != [] {
      CapacityIsFixed(Step(s, es[0]).value, es[1..]);
    }
  }

  ghost predicate AllFine<T>(es: seq<Event<T>>) {
    forall i | 0 <= i < |es| :: es[i].Publish? ==> es[i].marshaled && es[i].accepted
  }

  /** Everything past the handler that is not dropped: published, in flight, queued. */
  function Pipeline<T>(s: State<T>): seq<T> {
    s.published + Held(s.consumer) + s.queue
  }

  lemma PipelineStep<T>(s: State<T>, e: Event<T>)
    requires Step(s, e).Some? && (e.Publish? ==> e.marshaled && e.accepted)
    requires Step(s, e).value.dropped == s.dropped
    ensures Pipeline(Step(s, e).value) == Pipeline(s) + Now(e)
  {
    var s' := Step(s, e).value;
    if e.Take? {
      assert s.queue == [s.queue[0]] + s'.queue;
    } else if e.Update? {
      assert s'.queue == s.queue + [e.x];
    }
  }

  lemma {:induction false} PipelineRun<T>(s: State<T>, us: seq<T>, es: seq<Event<T>>)
    requires Exec(s, es).Some? && AllFine(es) && Exec(s, es).value.dropped == s.dropped
    requires Pipeline(s) == us
    ensures Pipeline(Exec(s, es).value) == us + Updates(es)
    decreases |es|
  {
    if es == [] {
      assert us + Updates(es) == us;
    } else {
      var s1 := Step(s, es[0]).value;
      DropsNeverShrink(s1, es[1..]);
      PipelineStep(s, es[0]);
      PipelineRun(s1, us + Now(es[0]), es[1..]);
      UpdatesSplit(us, es);
    }
  }

  predicate DoneRight<T>(s: State<T>) {
    s.consumer.Returned? && !s.stopped ==> s.closed && s.queue == []
  }

  lemma {:induction false} DoneRightRun<T>(s: State<T>, es: seq<Event<T>>)
    requires Exec(s, es).Some? && DoneRight(s)
    ensures DoneRight(Exec(s, es).value)
    decreases |es|
  {
    if es != [] {
      DoneRightRun(Step(s, es[0]).value, es[1..]);
    }
  }

  /** Nothing else is lost: with no drop and no failed publish, what was published, in flight and
      queued is exactly the updates handled; and a loop that returned because the channel was
      closed, not because it was stopped, has published all of them. */
  lemma NothingElseIsLost<T>(capacity: nat, es: seq<Event<T>>)
    requires Exec(Init<T>(capacity), es).Some? && AllFine(es)
    requires Exec(Init<T>(capacity), es).value.dropped == 0
    ensures var s := Exec(Init<T>(capacity), es).value;
            && Pipeline(s) == Updates(es)
            && (s.consumer.Returned? && !s.stopped ==> s.published == Updates(es))
  {
    var s0 := Init<T>(capacity);
    PipelineRun(s0, [], es);
    DoneRightRun(s0, es);
    assert [] + Updates(es) == Updates(es);
    var s := Exec(s0, es).value;
    if s.consumer.Returned? && !s.stopped {
      assert Pipeline(s) == s.published;
    }
  }

  lemma {:induction false} DropsNeverShrink<T>(s: State<T>, es: seq<Event<T>>)
    requires Exec(s, es).Some?
    ensures Exec(s, es).value.dropped >= s.dropped
    decreases |es|
  {
    if es != [] {
      DropsNeverShrink(Step(s, es[0]).value, es[1..]);
    }
  }

  // ---------------------------------------------------------------- the stream in closed form

  /** How often the loop took an update. */
  function Takes<T>(es: seq<Event<T>>): nat {
    if es == [] then 0 else Takes(es[..|es| - 1]) + if es[|es| - 1].Take? then 1 else 0
  }

  /** The updates that found room, when the channel holds what found room and was not taken yet. */
  function Accepted<T>(es: seq<Event<T>>, capacity: nat): seq<T> {
    if es == [] then []
    else
      var front, e := es[..|es| - 1], es[|es| - 1];
      Accepted(front, capacity)
      + if e.Update? && |Accepted(front, capacity)| < Takes(front) + capacity then [e.x] else []
  }

  /** Which of the updates taken made it to Kafka. */
  function Outcomes<T>(es: seq<Event<T>>): seq<bool> {
    if es == [] then []
    else
      var e := es[|es| - 1];
      Outcomes(es[..|es| - 1]) + if e.Publish? then [e.marshaled && e.accepted] else []
  }

  function Kept<T>(xs: seq<T>, oks: seq<bool>): seq<T>
    requires |oks| <= |xs|
  {
    if oks == [] then []
    else
      var n := |oks| - 1;
      Kept(xs, oks[..n]) + if oks[n] then [xs[n]] else []
  }

  /** The state a schedule leads to, from the schedule alone. */
  ghost predicate Exact<T>(s: State<T>, es: seq<Event<T>>, capacity: nat) {
    var acc, taken, done := Accepted(es, capacity), Takes(es), |Outcomes(es)|;
    && done <= taken <= |acc|
    && s.capacity == capacity && s.taken == taken && s.handled == |Updates(es)|
    && s.dropped == |Updates(es)| - |acc|
    && s.queue == acc[taken..] && Held(s.consumer) == acc[done..taken]
    && s.published == Kept(acc, Outcomes(es))
  }

  lemma {:induction false} UpdatesSnoc<T>(es: seq<Event<T>>, e: Event<T>)
    ensures Updates(es + [e]) == Updates(es) + Now(e)
  {
    if es == [] {
      assert ([] + [e])[1..] == [] && Updates([e]) == Now(e) + Updates([]);
    } else {
      assert (es + [e])[1..] == es[1..] + [e];
      UpdatesSnoc(es[1..], e);
    }
  }

  lemma {:induction false} KeptIgnoresRest<T>(xs: seq<T>, more: seq<T>, oks: seq<bool>)
    requires |oks| <= |xs|
    ensures Kept(xs + more, oks) == Kept(xs, oks)
  {
    if oks != [] {
      KeptIgnoresRest(xs, more, oks[..|oks| - 1]);
    }
  }

  /** One more event, on the schedule's functions. */
  lemma ScheduleSnoc<T>(es: seq<Event<T>>, e: Event<T>, capacity: nat)
    ensures Takes(es + [e]) == Takes(es) + if e.Take? then 1 else 0
    ensures Outcomes(es + [e]) == Outcomes(es) + if e.Publish? then [e.marshaled && e.accepted] else []
    ensures Accepted(es + [e], capacity)
            == Accepted(es, capacity)
               + if e.Update? && |Accepted(es, capacity)| < Takes(es) + capacity then [e.x] else []
    ensures Updates(es + [e]) == Updates(es) + Now(e)
  {
    assert (es + [e])[..|es|] == es;
    UpdatesSnoc(es, e);
  }

  lemma ExactUpdate<T>(s: State<T>, es: seq<Event<T>>, x: T, capacity: nat)
    requires Exact(s, es, capacity) && Step(s, Update(x)).Some?
    ensures Exact(Step(s, Update(x)).value, es + [Update(x)], capacity)
  {
    ScheduleSnoc(es, Update(x), capacity);
    KeptIgnoresRest(Accepted(es, capacity), [x], Outcomes(es));
    assert Outcomes(es) + [] == Outcomes(es);
    var acc, taken, done := Accepted(es, capacity), Takes(es), |Outcomes(es)|;
    if |acc| < taken + capacity {
      assert (acc + [x])[taken..] == acc[taken..] + [x] && (acc + [x])[done..taken] == acc[done..taken];
    } else {
      assert acc + [] == acc;
    }
  }

  lemma ExactTake<T>(s: State<T>, es: seq<Event<T>>, capacity: nat)
    requires Exact(s, es, capacity) && Step(s, Take).Some?
    ensures Exact(Step(s, Take).value, es + [Take], capacity)
  {
    ScheduleSnoc(es, Take, capacity);
    var acc, taken := Accepted(es, capacity), Takes(es);
    assert acc + [] == acc && Outcomes(es) + [] == Outcomes(es) && Updates(es) + [] == Updates(es);
    assert acc[taken..][1..] == acc[taken + 1..] && acc[taken..taken + 1] == [acc[taken]];
  }

  lemma ExactPublish<T>(s: State<T>, es: seq<Event<T>>, e: Event<T>, capacity: nat)
    requires Exact(s, es, capacity) && e.Publish? && Step(s, e).Some?
    ensures Exact(Step(s, e).value, es + [e], capacity)
  {
    ScheduleSnoc(es, e, capacity);
    var acc, done, oks := Accepted(es, capacity), |Outcomes(es)|, Outcomes(es + [e]);
    assert acc + [] == acc && Updates(es) + [] == Updates(es);
    assert oks[..done] == Outcomes(es) && s.consumer.x == Held(s.consumer)[0] == acc[done];
  }

  lemma ExactStep<T>(s: State<T>, es: seq<Event<T>>, e: Event<T>, capacity: nat)
    requires Exact(s, es, capacity) && Step(s, e).Some?
    ensures Exact(Step(s, e).value, es + [e], capacity)
  {
    match e
    case Update(x) => ExactUpdate(s, es, x, capacity);
    case Take => ExactTake(s, es, capacity);
    case Publish(_, _) => ExactPublish(s, es, e, capacity);
    case _ =>
      ScheduleSnoc(es, e, capacity);
      assert Accepted(es, capacity) + [] == Accepted(es, capacity) && Updates(es) + [] == Updates(es);
      assert Outcomes(es) + [] == Outcomes(es);
  }

  lemma {:induction false} ExactRun<T>(s: State<T>, past: seq<Event<T>>, es: seq<Event<T>>, capacity: nat)
    requires Exact(s, past, capacity) && Exec(s, es).Some?
    ensures Exact(Exec(s, es).value, past + es, capacity)
    decreases |es|
  {
    if es == [] {
      assert past + es == past;
    } else {
      ExactStep(s, past, es[0], capacity);
      ExactRun(Step(s, es[0]).value, past + [es[0]], es[1..], capacity);
      assert past + [es[0]] + es[1..] == past + es;
    }
  }

  /** Every schedule decides the stream: an update is kept exactly when fewer than capacity updates that
      found room before it have not been taken yet; what was published are the kept ones, in order,
      whose marshalling and publishing worked. */
  lemma StreamIsExact<T>(capacity: nat, es: seq<Event<T>>)
    requires Exec(Init<T>(capacity), es).Some?
    ensures Exact(Exec(Init<T>(capacity), es).value, es, capacity)
  {
    assert Exact(Init<T>(capacity), [], capacity);
    ExactRun(Init<T>(capacity), [], es, capacity);
    assert [] + es == es;
  }

  /** Never more than capacity updates ahead of the loop. */
  ghost predicate KeepsUp<T>(es: seq<Event<T>>, capacity: nat) {
    forall k | 0 <= k <= |es| :: |Updates(es[..k])| - Takes(es[..k]) <= capacity
  }

  lemma KeepsUpSnoc<T>(es: seq<Event<T>>, e: Event<T>, capacity: nat)
    ensures KeepsUp(es + [e], capacity)
            <==> KeepsUp(es, capacity) && |Updates(es + [e])| - Takes(es + [e]) <= capacity
  {
    var all := es + [e];
    assert all[..|all|] == all;
    forall k | 0 <= k <= |es|
      ensures all[..k] == es[..k]
    {
    }
    if KeepsUp(all, capacity) {
      forall k | 0 <= k <= |es|
        ensures |Updates(es[..k])| - Takes(es[..k]) <= capacity
      {
        assert |Updates(all[..k])| - Takes(all[..k]) <= capacity;
      }
    }
  }

  lemma {:induction false} AllAcceptedIff<T>(es: seq<Event<T>>, capacity: nat)
    ensures |Accepted(es, capacity)| <= |Updates(es)|
    ensures |Accepted(es, capacity)| == |Updates(es)| <==> KeepsUp(es, capacity)
  {
    if es != [] {
      var front, e := es[..|es| - 1], es[|es| - 1];
      assert es == front + [e];
      AllAcceptedIff(front, capacity);
      ScheduleSnoc(front, e, capacity);
      KeepsUpSnoc(front, e, capacity);
      if KeepsUp(front, capacity) {
        assert front[..|front|] == front;
      }
    }
  }

  /** Nothing is dropped exactly when the loop keeps up at every moment. */
  lemma NothingIsDroppedIff<T>(capacity: nat, es: seq<Event<T>>)
    requires Exec(Init<T>(capacity), es).Some?
    ensures Exec(Init<T>(capacity), es).value.dropped == 0 <==> KeepsUp(es, capacity)
  {
    StreamIsExact(capacity, es);
    AllAcceptedIff(es, capacity);
  }

  /** A handler drops its update exactly when capacity updates are waiting: handled, and neither
      dropped nor taken. */
  lemma DropsWhenFullIff<T>(capacity: nat, es: seq<Event<T>>, x: T)
    requires Exec(Init<T>(capacity), es).Some? && !Exec(Init<T>(capacity), es).value.closed
    ensures var s := Exec(Init<T>(capacity), es).value;
            && Step(s, Update(x)).Some?
            && (Step(s, Update(x)).value.dropped > s.dropped <==> s.handled - s.dropped - s.taken >= capacity)
  {
    StreamIsConserved(capacity, es);
    CapacityIsFixed(Init<T>(capacity), es);
  }

  // ---------------------------------------------------------------- the loop can catch up

  /** Finishing the update in flight and then every queued one, each published. */
  function Draining<T>(s: State<T>): seq<Event<T>> {
    (if s.consumer.Publishing? then [Publish(true, true)] else []) + Cycles(|s.queue|)
  }

  function Cycles<T>(n: nat): seq<Event<T>> {
    if n == 0 then [] else [Take, Publish(true, true)] + Cycles(n - 1)
  }

  lemma {:induction false} CyclesDrain<T>(s: State<T>)
    requires s.consumer.Idle?
    ensures var r := Exec(s, Cycles(|s.queue|));
            r == Some(s.(queue := [], taken := s.taken + |s.queue|, published := s.published + s.queue))
    decreases |s.queue|
  {
    if s.queue == [] {
      assert s.published + [] == s.published;
    } else {
      var rest := Cycles<T>(|s.queue| - 1);
      var es := [Take, Publish(true, true)] + rest;
      var s1 := Step(s, Take).value;
      var s2 := Step(s1, Publish(true, true)).value;
      assert es[1..] == [Publish(true, true)] + rest && es[1..][1..] == rest;
      CyclesDrain(s2);
      assert s.published + [s.queue[0]] + s.queue[1..] == s.published + s.queue;
    }
  }

  /** Until the loop has returned it can always publish all that is in flight and queued. */
  lemma CanCatchUp<T>(s: State<T>)
    requires !s.consumer.Returned?
    ensures var r := Exec(s, Draining(s));
            && r.Some? && r.value.queue == [] && r.value.consumer.Idle?
            && r.value.published == s.published + Held(s.consumer) + s.queue && r.value.dropped == s.dropped
  {
    if s.consumer.Publishing? {
      var s1 := Step(s, Publish(true, true)).value;
      CyclesDrain(s1);
      assert Draining(s)[1..] == Cycles(|s.queue|);
    } else {
      CyclesDrain(s);
      assert [] + Cycles<T>(|s.queue|) == Cycles(|s.queue|);
      assert s.published + [] == s.published;
    }
  }

  /** The loop can return exactly when it is waiting and has been stopped, or the channel is closed and
      empty. */
  lemma ReturnsIff<T>(s: State<T>)
    requires !s.consumer.Returned?
    ensures (exists e :: Step(s, e).Some? && Step(s, e).value.consumer.Returned?)
            <==> s.consumer.Idle? && (s.stopped || (s.closed && s.queue == []))
  {
    if s.consumer.Idle? && s.stopped {
      assert Step(s, ReturnOnStop).Some?;
    }
    if s.consumer.Idle? && s.closed && s.queue == [] {
      assert Step(s, ReturnOnClosed).Some?;
    }
  }

  function Closes<T>(es: seq<Event<T>>): nat {
    if es == [] then 0 else (if es[0].CloseChannel? then 1 else 0) + Closes(es[1..])
  }

  /** The channel is closed at most once, and nothing is handled after that. */
  lemma {:induction false} ClosedOnce<T>(s: State<T>, es: seq<Event<T>>)
    requires Exec(s, es).Some?
    ensures Closes(es) == if Exec(s, es).value.closed && !s.closed then 1 else 0
    ensures s.closed ==> Updates(es) == [] && Exec(s, es).value.closed
    decreases |es|
  {
    if es != [] {
      ClosedOnce(Step(s, es[0]).value, es[1..]);
    }
  }
}
