/** The collector's shared caches of funding schedules and premium-index rates. Every account's
    goroutine decides under the mutex whether a cache is stale, fetches without it, and stores under
    it again; the caches are then merged afresh for every account. */
module FundingCache {
  import opened Prelude
  import opened SentinelTypes
  import P = PositionRules

  const REFRESH_MS: int := 5 * MINUTE_MS

  predicate Stale(last: Option<int>, now: int) {
    last.None? || now - last.value > REFRESH_MS
  }

  // ---------------------------------------------------------------- one cache, many accounts

  /** A store, with its history: whose it was, its account's clock, and how many stores the decision
      to fetch had seen. */
  datatype Store = Store(owner: nat, now: int, seen: nat)

  /** Where an account's goroutine is with one cache. */
  datatype Account<T> = Idle | Fetching(now: int, seen: nat) | Holding(now: int, seen: nat, answer: T)

  datatype State<T> = State(
    last: Option<int>,                // the clock of the last check, as stored
    value: Option<T>,
    stores: seq<Store>,               // history
    accounts: map<nat, Account<T>>)

  datatype Event<T> = Decide(t: nat, now: int) | Answered(t: nat, answer: Option<T>) | Save(t: nat)

  function Init<T>(): State<T> {
    State(None, None, [], map[])
  }

  function At<T>(s: State<T>, t: nat): Account<T> {
    if t in s.accounts then s.accounts[t] else Idle
  }

  /** One critical section, or one fetch's outcome; a failed fetch leaves everything to the next. */
  function Step<T>(s: State<T>, e: Event<T>): Option<State<T>> {
    match (e, At(s, e.t))
    case (Decide(t, now), Idle) =>
      Some(if Stale(s.last, now) then s.(accounts := s.accounts[t := Fetching(now, |s.stores|)]) else s)
    case (Answered(t, answer), Fetching(now, seen)) =>
      Some(s.(accounts := s.accounts[t := match answer case Some(v) => Holding(now, seen, v) case None => Idle]))
    case (Save(t), Holding(now, seen, v)) =>
      Some(State(Some(now), Some(v), s.stores + [Store(t, now, seen)], s.accounts[t := Idle]))
    case _ => None
  }

  function Exec<T>(s: State<T>, es: seq<Event<T>>): Option<State<T>>
    decreases |es|
  {
    if es == [] then Some(s)
    else match Step(s, es[0])
      case None => None
      case Some(s1) => Exec(s1, es[1..])
  }

  /** The last check as it stood after n stores. */
  function LastAfter(stores: seq<Store>, n: nat): Option<int>
    requires n <= |stores|
  {
    if n == 0 then None else Some(stores[n - 1].now)
  }

  /** A decision saw an earlier state of the cache, and found it stale. */
  ghost predicate Decided(stores: seq<Store>, now: int, seen: nat) {
    seen <= |stores| && Stale(LastAfter(stores, seen), now)
  }

  ghost predicate StoreOk(stores: seq<Store>, k: nat)
    requires k < |stores|
  {
    stores[k].seen <= k && Stale(LastAfter(stores, stores[k].seen), stores[k].now)
  }

  /** An account has seen its own earlier stores. */
  ghost predicate OwnStoresSeen(stores: seq<Store>) {
    forall i, j | 0 <= i < j < |stores| && stores[i].owner == stores[j].owner :: stores[j].seen > i
  }

  ghost predicate AccountOk<T>(s: State<T>, t: nat) {
    var a := At(s, t);
    a.Idle?
    || (&& Decided(s.stores, a.now, a.seen)
        && forall k | 0 <= k < |s.stores| && s.stores[k].owner == t :: a.seen > k)
  }

  ghost predicate Inv<T>(s: State<T>) {
    && s.last == LastAfter(s.stores, |s.stores|)
    && (forall k | 0 <= k < |s.stores| :: StoreOk(s.stores, k))
    && OwnStoresSeen(s.stores)
    && forall t: nat :: AccountOk(s, t)
  }

  lemma SaveKeepsAccounts<T>(s: State<T>, t: nat, u: nat)
    requires Inv(s) && At(s, t).Holding?
    ensures AccountOk(Step(s, Save(t)).value, u)
  {
    assert AccountOk(s, t) && AccountOk(s, u);
  }

  lemma StepKeepsInv<T>(s: State<T>, e: Event<T>)
    requires Inv(s) && Step(s, e).Some?
    ensures Inv(Step(s, e).value)
  {
    var s' := Step(s, e).value;
    assert AccountOk(s, e.t);
    if e.Save? {
      forall k | 0 <= k < |s'.stores|
        ensures StoreOk(s'.stores, k)
      {
        assert k < |s.stores| ==> StoreOk(s.stores, k);
      }
      forall u: nat
        ensures AccountOk(s', u)
      {
        SaveKeepsAccounts(s, e.t, u);
      }
    } else {
      forall u: nat
        ensures AccountOk(s', u)
      {
        assert AccountOk(s, u);
      }
    }
  }

  lemma {:induction false} RunKeepsInv<T>(s: State<T>, es: seq<Event<T>>)
    requires Inv(s) && Exec(s, es).Some?
    ensures Inv(Exec(s, es).value)
    decreases |es|
  {
    if es != [] {
      StepKeepsInv(s, es[0]);
      RunKeepsInv(Step(s, es[0]).value, es[1..]);
    }
  }

  /** What the five minutes do mean, for any number of accounts in any interleaving: every store's
      clock is more than five minutes after that of the store its decision saw as the last one, and
      a decision has seen all of its account's own stores. */
  lemma StoresFollowTheirView<T>(es: seq<Event<T>>, k: nat)
    requires Exec(Init<T>(), es).Some? && k < |Exec(Init<T>(), es).value.stores|
    ensures var stores := Exec(Init<T>(), es).value.stores;
            && stores[k].seen <= k
            && (stores[k].seen > 0 ==> stores[k].now - stores[stores[k].seen - 1].now > REFRESH_MS)
            && forall i | 0 <= i < k && stores[i].owner == stores[k].owner :: stores[k].seen > i
  {
    RunKeepsInv(Init<T>(), es);
    assert StoreOk(Exec(Init<T>(), es).value.stores, k);
  }

  /** Two stores in a row are at most five minutes apart only if they are two accounts' and the second
      decided before the first had stored, so that both decided before either stored. */
  lemma CloseStoresOverlap<T>(es: seq<Event<T>>, k: nat)
    requires Exec(Init<T>(), es).Some? && 0 < k < |Exec(Init<T>(), es).value.stores|
    ensures var stores := Exec(Init<T>(), es).value.stores;
            stores[k].now - stores[k - 1].now <= REFRESH_MS
            ==> stores[k].seen < k && stores[k - 1].seen < k && stores[k].owner != stores[k - 1].owner
  {
    StoresFollowTheirView(es, k);
    StoresFollowTheirView(es, k - 1);
  }

  // ---------------------------------------------------------------- when the next store is early

  /** An account that decided before the last store and whose own store, should it come next, would be
      at most five minutes after that one. */
  predicate InFlight<T>(s: State<T>, t: nat, l: int) {
    !At(s, t).Idle? && At(s, t).now - l <= REFRESH_MS
  }

  ghost predicate SaveFree<T>(es: seq<Event<T>>) {
    forall i | 0 <= i < |es| :: !es[i].Save?
  }

  /** Account t's store comes next after the events es, none of them a store, and is an early one. */
  ghost predicate EarlyStore<T>(s: State<T>, es: seq<Event<T>>, t: nat, l: int) {
    && SaveFree(es) && Exec(s, es).Some?
    && Step(Exec(s, es).value, Save(t)).Some?
    && var stores := Step(Exec(s, es).value, Save(t)).value.stores;
       stores[|stores| - 1].now - l <= REFRESH_MS
  }

  /** Until the next store nobody new decides on a clock within five minutes of the last one. */
  lemma {:induction false} EarlyStoreWasInFlight<T>(s: State<T>, es: seq<Event<T>>, t: nat, l: int)
    requires s.last == Some(l) && EarlyStore(s, es, t, l)
    ensures InFlight(s, t, l)
    decreases |es|
  {
    if es != [] {
      EarlyStoreWasInFlight(Step(s, es[0]).value, es[1..], t, l);
    }
  }

  lemma InFlightStoresEarly<T>(s: State<T>, t: nat, l: int, v: T) returns (es: seq<Event<T>>)
    requires InFlight(s, t, l)
    ensures EarlyStore(s, es, t, l)
  {
    es := if At(s, t).Holding? then [] else [Answered(t, Some(v))];
    if es != [] {
      assert Exec(s, es) == Exec(Step(s, es[0]).value, []);
    }
  }

  /** The next store can be at most five minutes after the last one exactly when, as the last one was
      made, another decision on such a clock was already under way. */
  lemma NextStoreEarlyIff<T>(s: State<T>, l: int, v: T)
    requires s.last == Some(l)
    ensures (exists es, t: nat :: EarlyStore(s, es, t, l)) <==> exists t: nat :: InFlight(s, t, l)
  {
    if es, t: nat :| EarlyStore(s, es, t, l) {
      EarlyStoreWasInFlight(s, es, t, l);
    }
    if t: nat :| InFlight(s, t, l) {
      var es := InFlightStoresEarly(s, t, l, v);
    }
  }

  /** It happens in ordinary operation: two accounts of one round store at gaps of any size. */
  lemma TwoAccountsStore<T>(v: T, now: int, later: int) returns (es: seq<Event<T>>, s: State<T>)
    ensures Exec(Init<T>(), es) == Some(s) && s.stores == [Store(0, now, 0), Store(1, later, 0)]
  {
    es, s := [], Init<T>();
    es, s := Then(es, s, Decide(0, now));
    es, s := Then(es, s, Decide(1, later));
    es, s := Then(es, s, Answered(0, Some(v)));
    es, s := Then(es, s, Answered(1, Some(v)));
    es, s := Then(es, s, Save(0));
    es, s := Then(es, s, Save(1));
  }

  lemma Then<T>(es: seq<Event<T>>, s: State<T>, e: Event<T>) returns (es': seq<Event<T>>, s': State<T>)
    requires Exec(Init<T>(), es) == Some(s) && Step(s, e).Some?
    ensures es' == es + [e] && Step(s, e) == Some(s') && Exec(Init<T>(), es') == Some(s')
  {
    es', s' := es + [e], Step(s, e).value;
    ExecSnoc(Init<T>(), es, e);
  }

  lemma {:induction false} ExecSnoc<T>(s: State<T>, es: seq<Event<T>>, e: Event<T>)
    requires Exec(s, es).Some?
    ensures Exec(s, es + [e]) == Step(Exec(s, es).value, e)
    decreases |es|
  {
    if es == [] {
      assert ([] + [e])[1..] == [];
    } else {
      assert (es + [e])[1..] == es[1..] + [e];
      ExecSnoc(Step(s, es[0]).value, es[1..], e);
    }
  }

  /** A cache as the program holds it: its critical sections are the machine's steps. */
  class SharedCache<T(==)> {
    var last: Option<int>
    var value: Option<T>
    ghost var state: State<T>

    ghost predicate Valid()
      reads this
    {
      Inv(state) && state.last == last && state.value == value
    }

    constructor ()
      ensures Valid() && value == None && last == None && state == Init<T>()
    {
      last, value, state := None, None, Init<T>();
    }

    method IsStale(t: nat, now: int) returns (stale: bool)
      requires Valid() && At(state, t).Idle?
      modifies this`state
      ensures Valid() && Some(state) == Step(old(state), Decide(t, now))
      ensures stale == Stale(last, now) == At(state, t).Fetching?
    {
      stale := last.None? || now - last.value > REFRESH_MS;
      StepKeepsInv(state, Decide(t, now));
      state := Step(state, Decide(t, now)).value;
    }

    ghost method Fetched(t: nat, answer: Option<T>)
      requires Valid() && At(state, t).Fetching?
      modifies this`state
      ensures Valid() && Some(state) == Step(old(state), Answered(t, answer))
    {
      StepKeepsInv(state, Answered(t, answer));
      state := Step(state, Answered(t, answer)).value;
    }

    method Put(t: nat, now: int, answer: T)
      requires Valid() && At(state, t).Holding? && At(state, t).now == now && At(state, t).answer == answer
      modifies this
      ensures Valid() && Some(state) == Step(old(state), Save(t)) && value == Some(answer) && last == Some(now)
    {
      StepKeepsInv(state, Save(t));
      state := Step(state, Save(t)).value;
      value, last := Some(answer), Some(now);
    }
  }

  // ---------------------------------------------------------------- merging the two caches

  datatype Premium = Premium(rate: real, nextTime: int, markPrice: real)

  type Rates = map<string, Premium>

  /** A schedule entry as merging leaves it. */
  function Repriced(f: Funding, premium: Option<Rates>): Funding {
    if premium.Some? && f.symbol in premium.value
    then f.(rate := premium.value[f.symbol].rate, nextTime := premium.value[f.symbol].nextTime)
    else f
  }

  /** A private copy of the funding cache, repriced in place; the caches stay as they are. */
  method Merge(funding: SharedCache<seq<Funding>>, premium: SharedCache<Rates>) returns (merged: array<Funding>)
    ensures fresh(merged) && merged.Length == |funding.value.GetOr([])|
    ensures forall i | 0 <= i < merged.Length :: merged[i] == Repriced(funding.value.value[i], premium.value)
  {
    var cached := funding.value.GetOr([]);
    merged := new Funding[|cached|](i requires 0 <= i < |cached| => cached[i]);
    if premium.value.Some? {
      var rates := premium.value.value;
      for i := 0 to merged.Length
        invariant forall j | 0 <= j < i :: merged[j] == Repriced(cached[j], Some(rates))
        invariant forall j | i <= j < merged.Length :: merged[j] == cached[j]
      {
        if merged[i].symbol in rates {
          var p := rates[merged[i].symbol];
          merged[i] := merged[i].(rate := p.rate, nextTime := p.nextTime);
        }
      }
    }
  }

  function MergedOf(fs: seq<Funding>, premium: Option<Rates>): seq<Funding> {
    if fs == [] then [] else MergedOf(fs[..|fs| - 1], premium) + [Repriced(fs[|fs| - 1], premium)]
  }

  /** What E-008 is charged with after merging: a symbol on the funding schedule pays the premium
      index's rate whenever the index has a non-zero one, at the schedule's own interval. */
  lemma {:induction false} PremiumRateWins(fs: seq<Funding>, premium: Rates, i: nat)
    requires i < |fs| && fs[i].symbol in premium && premium[fs[i].symbol].rate != 0.0
    ensures var rates := P.FundingOf(MergedOf(fs, Some(premium)));
            && fs[i].symbol in rates && rates[fs[i].symbol].rate == premium[fs[i].symbol].rate
            && exists j ::
                0 <= j < |fs| && fs[j].symbol == fs[i].symbol && rates[fs[i].symbol].interval == fs[j].interval
  {
    var n := |fs| - 1;
    var symbol := fs[i].symbol;
    var front := MergedOf(fs[..n], Some(premium));
    assert (front + [Repriced(fs[n], Some(premium))])[..|front|] == front;
    if fs[n].symbol == symbol {
      assert fs[n].symbol == symbol;
    } else {
      PremiumRateWins(fs[..n], premium, i);
      var j :| 0 <= j < n && fs[..n][j].symbol == symbol && P.FundingOf(front)[symbol].interval == fs[..n][j].interval;
      assert fs[j].symbol == symbol;
    }
  }
}
