/** Everything that writes the metrics keys of Redis: the handlers of the engine's three consumers, and
    the ingestor's reconciler, which refreshes the same hashes and the same last activity over REST. */
module SharedRedis {
  import opened Prelude
  import opened RedisStore
  import opened MetricsEngine
  import opened Redelivery

  const REST_TTL_MS: int := 2 * 60 * 1000

  /** One effect on the common store: a handler call, the reconciler's write of one hash, possibly
      cut before its EXPIRE, or the reconciler's activity stamp, which carries its own clock. */
  datatype Act =
    | Call(a: Attempt)
    | RestHash(hash: HashKey, amounts: seq<string>, updatedAt: string, at: int, half: bool)
    | RestActivity(account: string, at: int)

  predicate ActOk(x: Act) {
    x.Call? ==> Valid(x.a)
  }

  function RestFields(x: Act): Fields
    requires x.RestHash?
  {
    Fields(None, Some(x.amounts), Some(x.updatedAt))
  }

  function Do(st: Store, x: Act, window: int): Store
    requires ActOk(x)
  {
    match x
    case Call(a) => Handle(st, a, window)
    case RestHash(h, _, _, at, half) =>
      var written := Apply(st, HSet(h, RestFields(x), at));
      if half then written else Apply(written, ExpireHash(h, at, REST_TTL_MS))
    case RestActivity(account, at) => Apply(st, SetStamp(LastActivity(account), at / SECOND_MS, at + DAY_MS))
  }

  ghost predicate ActsOk(acts: seq<Act>) {
    forall i | 0 <= i < |acts| :: ActOk(acts[i])
  }

  ghost function RunActs(st: Store, acts: seq<Act>, window: int): Store
    requires ActsOk(acts)
  {
    if acts == [] then st else Do(RunActs(st, acts[..|acts| - 1], window), acts[|acts| - 1], window)
  }

  lemma RunActsSnoc(st: Store, acts: seq<Act>, x: Act, window: int)
    requires ActsOk(acts) && ActOk(x)
    ensures ActsOk(acts + [x]) && RunActs(st, acts + [x], window) == Do(RunActs(st, acts, window), x, window)
  {
    assert (acts + [x])[..|acts|] == acts;
  }

  lemma {:induction false} RunActsAppend(st: Store, a: seq<Act>, b: seq<Act>, window: int)
    requires ActsOk(a) && ActsOk(b)
    ensures ActsOk(a + b) && RunActs(st, a + b, window) == RunActs(RunActs(st, a, window), b, window)
  {
    if b == [] {
      assert a + b == a;
    } else {
      assert (a + b)[..|a| + |b| - 1] == a + b[..|b| - 1];
      RunActsAppend(st, a, b[..|b| - 1], window);
    }
  }

  // ---------------------------------------------------------------- the reconciler

  /** A row of a REST answer with the fate of its write. */
  datatype RestRow = RestRow(hash: HashKey, amounts: seq<string>, updatedAt: string, at: int, reply: Reply)

  function RowAct(r: RestRow): Act {
    RestHash(r.hash, r.amounts, r.updatedAt, r.at, r.reply.HalfApplied?)
  }

  function RowsActs(rows: seq<RestRow>): (acts: seq<Act>)
    ensures ActsOk(acts)
  {
    if rows == [] then []
    else
      var r := rows[|rows| - 1];
      RowsActs(rows[..|rows| - 1]) + if r.reply.NotApplied? then [] else [RowAct(r)]
  }

  function ReconcileActs(account: string, positions: Option<seq<RestRow>>, balances: Option<seq<RestRow>>, now: int,
                         reply: Reply): (acts: seq<Act>)
    ensures ActsOk(acts)
  {
    RowsActs(positions.GetOr([])) + RowsActs(balances.GetOr([]))
    + if reply.NotApplied? then [] else [RestActivity(account, now)]
  }

  lemma ActsThen(st: Store, acts: seq<Act>, applied: bool, x: Act, window: int)
    requires ActsOk(acts) && ActOk(x)
    ensures var all := acts + if applied then [x] else [];
            && ActsOk(all)
            && RunActs(st, all, window)
               == if applied then Do(RunActs(st, acts, window), x, window) else RunActs(st, acts, window)
  {
    if applied {
      RunActsSnoc(st, acts, x, window);
    } else {
      assert acts + [] == acts;
    }
  }

  method WriteRow(redis: Redis, r: RestRow, ghost window: int)
    modifies redis
    ensures redis.st == if r.reply.NotApplied? then old(redis.st) else Do(old(redis.st), RowAct(r), window)
  {
    var ok := redis.SetHash(r.hash, Fields(None, Some(r.amounts), Some(r.updatedAt)), r.at, REST_TTL_MS, r.reply);
  }

  method StampActivity(redis: Redis, account: string, now: int, reply: Reply, ghost window: int)
    modifies redis
    ensures redis.st
            == if reply.NotApplied? then old(redis.st) else Do(old(redis.st), RestActivity(account, now), window)
  {
    var ok := redis.SetLastActivity(account, now, now, reply);
  }

  method WriteRows(redis: Redis, rows: seq<RestRow>, ghost window: int)
    modifies redis
    ensures redis.st == RunActs(old(redis.st), RowsActs(rows), window)
  {
    ghost var st0 := redis.st;
    for i := 0 to |rows|
      invariant redis.st == RunActs(st0, RowsActs(rows[..i]), window)
    {
      assert rows[..i + 1][..i] == rows[..i];
      ActsThen(st0, RowsActs(rows[..i]), !rows[i].reply.NotApplied?, RowAct(rows[i]), window);
      WriteRow(redis, rows[i], window);
    }
    assert rows[..|rows|] == rows;
  }

  method WriteAnswer(redis: Redis, rows: Option<seq<RestRow>>, ghost window: int)
    modifies redis
    ensures redis.st == RunActs(old(redis.st), RowsActs(rows.GetOr([])), window)
  {
    if rows.Some? {
      WriteRows(redis, rows.value, window);
    }
  }

  method WriteAnswers(redis: Redis, positions: Option<seq<RestRow>>, balances: Option<seq<RestRow>>, ghost window: int)
    modifies redis
    ensures redis.st == RunActs(old(redis.st), RowsActs(positions.GetOr([])) + RowsActs(balances.GetOr([])), window)
  {
    RunActsAppend(redis.st, RowsActs(positions.GetOr([])), RowsActs(balances.GetOr([])), window);
    WriteAnswer(redis, positions, window);
    WriteAnswer(redis, balances, window);
  }

  /** doReconcile: every row of both answers, whatever becomes of each, and then the activity stamp,
      even when neither answer came. */
  method DoReconcile(redis: Redis, account: string, positions: Option<seq<RestRow>>, balances: Option<seq<RestRow>>,
                     now: int, reply: Reply, ghost window: int)
    modifies redis
    ensures redis.st == RunActs(old(redis.st), ReconcileActs(account, positions, balances, now, reply), window)
  {
    ghost var acts := RowsActs(positions.GetOr([])) + RowsActs(balances.GetOr([]));
    ActsThen(redis.st, acts, !reply.NotApplied?, RestActivity(account, now), window);
    WriteAnswers(redis, positions, balances, window);
    StampActivity(redis, account, now, reply, window);
  }

  /** What the reconciler leaves: its amounts and its own field over what is alive in the hash, for two
      minutes, and the account's activity at its own clock's second, for a day. */
  lemma ReconcilerWrites(st: Store, h: HashKey, amounts: seq<string>, updatedAt: string, account: string, at: int,
                         window: int)
    ensures var st' := Do(st, RestHash(h, amounts, updatedAt, at, false), window);
            var kept := if h in st.hashes && Alive(st.hashes[h].expiry, at) then st.hashes[h].value.identity else None;
            st' == st.(hashes := st.hashes[h := Expiring(Fields(kept, Some(amounts), Some(updatedAt)),
                                                         At(at + 120000))])
    ensures Do(st, RestActivity(account, at), window)
            == st.(stamps := st.stamps[LastActivity(account) := Expiring(at / 1000, At(at + 86400000))])
  {
  }

  // ---------------------------------------------------------------- what one topic writes alone

  /** The keys only one topic's handler writes, when the reconciler writes at most the hashes in `rest`.
      Last activity is nobody's: all three handlers and the reconciler write it. */
  predicate OfTopic(k: CellKey, topic: Dim, rest: set<HashKey>) {
    match k
    case HashCell(h) => h !in rest && topic == if h.PositionKey? then PositionDim else BalanceDim
    case StampCell(s) => s.Freshness? && s.dim == topic
  }

  ghost predicate AgreeOn(x: Store, y: Store, topic: Dim, rest: set<HashKey>) {
    && (topic == TradeDim ==> forall account :: WindowOf(x, account) == WindowOf(y, account))
    && (forall k | OfTopic(k, topic, rest) :: CellOf(x, k) == CellOf(y, k))
  }

  /** Not this topic's handler, and the reconciler only within its hashes. */
  predicate Foreign(x: Act, topic: Dim, rest: set<HashKey>) {
    match x
    case Call(a) => DimOf(a.m) != topic
    case RestHash(h, _, _, _, _) => h in rest
    case RestActivity(_, _) => true
  }

  ghost predicate RestWithin(acts: seq<Act>, rest: set<HashKey>) {
    forall i | 0 <= i < |acts| && acts[i].RestHash? :: acts[i].hash in rest
  }

  /** One topic's handler calls, in order. */
  function Only(acts: seq<Act>, topic: Dim): seq<Attempt> {
    if acts == [] then []
    else
      var x := acts[|acts| - 1];
      Only(acts[..|acts| - 1], topic) + if x.Call? && DimOf(x.a.m) == topic then [x.a] else []
  }

  lemma {:induction false} OnlyValid(acts: seq<Act>, topic: Dim)
    requires ActsOk(acts)
    ensures AllValid(Only(acts, topic))
  {
    if acts != [] {
      OnlyValid(acts[..|acts| - 1], topic);
    }
  }

  lemma ForeignCall(x: Store, a: Attempt, topic: Dim, rest: set<HashKey>, window: int)
    requires Valid(a) && DimOf(a.m) != topic
    ensures AgreeOn(Handle(x, a, window), x, topic, rest)
  {
    if topic == TradeDim {
      forall account
        ensures WindowOf(Handle(x, a, window), account) == WindowOf(x, account)
      {
        WindowOfHandle(x, a, account, window);
      }
    }
    forall k | OfTopic(k, topic, rest)
      ensures CellOf(Handle(x, a, window), k) == CellOf(x, k)
    {
      CellOfHandle(x, x, a, k, window);
    }
  }

  lemma ForeignAct(x: Store, act: Act, topic: Dim, rest: set<HashKey>, window: int)
    requires ActOk(act) && Foreign(act, topic, rest)
    ensures AgreeOn(Do(x, act, window), x, topic, rest)
  {
    match act
    case Call(a) => ForeignCall(x, a, topic, rest, window);
    case _ =>
  }

  lemma OwnCall(x: Store, y: Store, a: Attempt, topic: Dim, rest: set<HashKey>, window: int)
    requires Valid(a) && AgreeOn(x, y, topic, rest)
    ensures AgreeOn(Handle(x, a, window), Handle(y, a, window), topic, rest)
  {
    if topic == TradeDim {
      forall account
        ensures WindowOf(Handle(x, a, window), account) == WindowOf(Handle(y, a, window), account)
      {
        WindowOfHandle(x, a, account, window);
        WindowOfHandle(y, a, account, window);
      }
    }
    forall k | OfTopic(k, topic, rest)
      ensures CellOf(Handle(x, a, window), k) == CellOf(Handle(y, a, window), k)
    {
      CellOfHandle(x, y, a, k, window);
    }
  }

  /** On a topic's own keys, what everybody else does in between cannot be seen. */
  lemma {:induction false} ForeignIsInvisible(x: Store, y: Store, acts: seq<Act>, topic: Dim, rest: set<HashKey>,
                                              window: int)
    requires ActsOk(acts) && RestWithin(acts, rest) && AgreeOn(x, y, topic, rest)
    ensures AllValid(Only(acts, topic))
    ensures AgreeOn(RunActs(x, acts, window), Run(y, Only(acts, topic), window), topic, rest)
  {
    OnlyValid(acts, topic);
    if acts != [] {
      var front, act := acts[..|acts| - 1], acts[|acts| - 1];
      ForeignIsInvisible(x, y, front, topic, rest, window);
      if Foreign(act, topic, rest) {
        ForeignAct(RunActs(x, front, window), act, topic, rest, window);
        assert Only(front, topic) + [] == Only(front, topic);
      } else {
        OnlyValid(front, topic);
        OwnCall(RunActs(x, front, window), Run(y, Only(front, topic), window), act.a, topic, rest, window);
        RunSnoc(y, Only(front, topic), act.a, window);
      }
    }
  }

  /** The store without the hashes in `rest`. */
  function Without(st: Store, rest: set<HashKey>): Store {
    st.(hashes := map h | h in st.hashes && h !in rest :: st.hashes[h])
  }

  lemma WithoutAgrees(st: Store, topic: Dim, rest: set<HashKey>)
    ensures AgreeOn(st, Without(st, rest), topic, rest)
  {
  }

  /** Crash safety of the handlers, one topic among all writers. In one history a topic's messages are
      attempted in any way, cut short anywhere, and then handled in order; in the other they are
      handled once. Whatever the other handlers and the reconciler do in either history, every key
      this topic's handler alone writes ends up the same. */
  lemma RedeliveryErasesAttempts(st: Store, twice: seq<Act>, once: seq<Act>, tries: seq<Attempt>, batch: seq<Attempt>,
                                 topic: Dim, rest: set<HashKey>, window: int)
    requires Plain(Without(st, rest))
    requires ActsOk(twice) && RestWithin(twice, rest) && Only(twice, topic) == tries + batch
    requires ActsOk(once) && RestWithin(once, rest) && Only(once, topic) == batch
    requires AllValid(tries) && AllComplete(batch) && Ordered(batch) && AttemptsAt(tries, batch)
    requires forall i | 0 <= i < |batch| :: ClocksUpTo(tries, batch[i].now)
    ensures AgreeOn(RunActs(st, twice, window), RunActs(st, once, window), topic, rest)
  {
    var y := Without(st, rest);
    WithoutAgrees(st, topic, rest);
    ForeignIsInvisible(st, y, twice, topic, rest, window);
    ForeignIsInvisible(st, y, once, topic, rest, window);
    RunAppend(y, tries, batch, window);
    AloneRedeliveryErases(y, tries, batch, window);
  }

  /** The trade window against the full log, whoever else writes: after a handled trade the account's
      sorted set is exactly the distinct IDs of the trade handler's calls so far whose last recorded
      time is later than this call's cutoff. */
  lemma SharedWindowIsRecentLog(acts: seq<Act>, last: Attempt, window: int)
    requires ActsOk(acts) && last.m.Trade? && Complete(last) && ClocksUpTo(Only(acts, TradeDim), last.now)
    ensures ActsOk(acts + [Call(last)])
    ensures var empty := Store(map[], map[], map[], map[]);
            var w := WindowOf(RunActs(empty, acts + [Call(last)], window), last.m.account);
            var log := Only(acts, TradeDim) + [last];
            w.Keys == RecentIds(log, last.m.account, last.now - window)
            && forall id | id in w :: Some(w[id]) == LastTime(log, last.m.account, id)
  {
    var empty := Store(map[], map[], map[], map[]);
    var all := acts + [Call(last)];
    assert all[..|acts|] == acts;
    OnlyValid(acts, TradeDim);
    var rest := set i | 0 <= i < |all| && all[i].RestHash? :: all[i].hash;
    ForeignIsInvisible(empty, empty, all, TradeDim, rest, window);
    WindowIsRecentLog(Only(acts, TradeDim), last, window);
  }

  // ---------------------------------------------------------------- hashes the reconciler writes too

  /** Nobody's handler call touches the hash. */
  ghost predicate NoCallAt(acts: seq<Act>, h: HashKey) {
    forall i | 0 <= i < |acts| && acts[i].Call? :: !Touches(acts[i].a.m, HashCell(h))
  }

  ghost predicate NoRestAt(acts: seq<Act>, h: HashKey) {
    forall i | 0 <= i < |acts| && acts[i].RestHash? :: acts[i].hash != h
  }

  lemma HashOfAct(st: Store, x: Act, h: HashKey, window: int)
    requires ActOk(x) && (x.Call? ==> !Touches(x.a.m, HashCell(h)))
    ensures x.RestHash? && x.hash == h ==>
              h in Do(st, x, window).hashes && Do(st, x, window).hashes[h].value.updatedAt.Some?
    ensures !(x.RestHash? && x.hash == h) ==> CellOf(Do(st, x, window), HashCell(h)) == CellOf(st, HashCell(h))
  {
    if x.Call? {
      CellOfHandle(st, st, x.a, HashCell(h), window);
    }
  }

  /** Without a handler call at it, a hash stays what it is exactly until the reconciler writes it,
      and then carries the reconciler's own field. */
  lemma {:induction false} HashBetweenCalls(st: Store, acts: seq<Act>, h: HashKey, window: int)
    requires ActsOk(acts) && NoCallAt(acts, h)
    ensures NoRestAt(acts, h) ==> CellOf(RunActs(st, acts, window), HashCell(h)) == CellOf(st, HashCell(h))
    ensures !NoRestAt(acts, h) ==>
              h in RunActs(st, acts, window).hashes && RunActs(st, acts, window).hashes[h].value.updatedAt.Some?
  {
    if acts != [] {
      var front, x := acts[..|acts| - 1], acts[|acts| - 1];
      assert acts == front + [x];
      HashBetweenCalls(st, front, h, window);
      HashOfAct(RunActs(st, front, window), x, h, window);
    }
  }

  /** Exactly when a hash holds what its last complete handling alone would have left: the reconciler
      has not written it since, and no field of the reconciler's was alive in it at that moment. */
  lemma HashSurvivesIff(st: Store, front: seq<Act>, a: Attempt, back: seq<Act>, window: int)
    requires ActsOk(front) && ActsOk(back) && !a.m.Trade? && Complete(a) && NoCallAt(back, HashOf(a.m))
    ensures ActsOk(front + [Call(a)] + back)
    ensures var k := HashCell(HashOf(a.m));
            CellOf(RunActs(st, front + [Call(a)] + back, window), k) == CellWritten(a, k)
            <==> NoRestAt(back, HashOf(a.m))
                 && LiveFields(RunActs(st, front, window), HashOf(a.m), a.now).updatedAt.None?
  {
    var h := HashOf(a.m);
    var before := RunActs(st, front, window);
    RunActsSnoc(st, front, Call(a), window);
    RunActsAppend(st, front + [Call(a)], back, window);
    CompleteHashIff(before, a, window);
    HashBetweenCalls(Handle(before, a, window), back, h, window);
  }

  // ---------------------------------------------------------------- last activity has four writers

  /** The account's stored activity, in seconds, live or not. */
  function Activity(st: Store, account: string): Option<int> {
    if LastActivity(account) in st.stamps then Some(st.stamps[LastActivity(account)].value) else None
  }

  /** A write of the activity: the time it carries and the clock it was made at. */
  datatype Mark = Mark(time: int, at: int)

  function SecondOf(m: Mark): int {
    m.time / SECOND_MS
  }

  function StampOf(m: Mark): Cell {
    Stamp(Expiring(SecondOf(m), At(m.at + DAY_MS)))
  }

  /** The attempt got as far as the activity command. */
  predicate ReachesActivity(a: Attempt, account: string) {
    a.m.account == account && a.done >= |Writes(a.m, a.now, 0)| - 1
  }

  /** How an act marks the account's activity, if it does; the reconciler's mark is its own clock. */
  function MarkOf(x: Act, account: string): Option<Mark> {
    match x
    case Call(a) => if ReachesActivity(a, account) then Some(Mark(a.m.time, a.now)) else None
    case RestHash(_, _, _, _, _) => None
    case RestActivity(whose, at) => if whose == account then Some(Mark(at, at)) else None
  }

  /** The last mark of a history, whoever made it. */
  function LastMark(acts: seq<Act>, account: string): Option<Mark> {
    if acts == [] then None
    else
      var mark := MarkOf(acts[|acts| - 1], account);
      if mark.Some? then mark else LastMark(acts[..|acts| - 1], account)
  }

  lemma {:induction false} ActivityOfPrefix(st: Store, a: Attempt, n: nat, window: int)
    requires n <= |Writes(a.m, a.now, window)|
    ensures var k := StampCell(LastActivity(a.m.account));
            CellOf(ApplyAll(st, Writes(a.m, a.now, window)[..n]), k)
            == if n >= |Writes(a.m, a.now, window)| - 1 then StampOf(Mark(a.m.time, a.now)) else CellOf(st, k)
  {
    if n > 0 {
      var ws := Writes(a.m, a.now, window);
      ActivityOfPrefix(st, a, n - 1, window);
      CellOfNext(st, st, ws, StampCell(LastActivity(a.m.account)), n);
      if n == |ws| - 1 {
        assert ws[..n] == ws[..n - 1] + [ws[n - 1]];
        ApplySnoc(st, ws[..n - 1], ws[n - 1]);
      }
    }
  }

  lemma ActivityOfAct(st: Store, x: Act, account: string, window: int)
    requires ActOk(x)
    ensures var k := StampCell(LastActivity(account));
            CellOf(Do(st, x, window), k)
            == match MarkOf(x, account)
               case Some(m) => StampOf(m)
               case None => CellOf(st, k)
  {
    if x.Call? {
      if x.a.m.account != account {
        CellOfHandle(st, st, x.a, StampCell(LastActivity(account)), window);
      } else {
        ActivityOfPrefix(st, x.a, x.a.done, window);
      }
    }
  }

  /** The last writer wins, whoever it is. */
  lemma {:induction false} ActivityIsLastMarks(st: Store, acts: seq<Act>, account: string, window: int)
    requires ActsOk(acts)
    ensures var k := StampCell(LastActivity(account));
            CellOf(RunActs(st, acts, window), k)
            == match LastMark(acts, account)
               case Some(m) => StampOf(m)
               case None => CellOf(st, k)
  {
    if acts != [] {
      ActivityIsLastMarks(st, acts[..|acts| - 1], account, window);
      ActivityOfAct(RunActs(st, acts[..|acts| - 1], window), acts[|acts| - 1], account, window);
    }
  }

  lemma {:induction false} LastMarkIn(a: seq<Act>, b: seq<Act>, account: string)
    ensures LastMark(a + b, account)
            == if LastMark(b, account).Some? then LastMark(b, account) else LastMark(a, account)
  {
    if b == [] {
      assert a + b == a;
    } else {
      assert (a + b)[..|a| + |b| - 1] == a + b[..|b| - 1];
      LastMarkIn(a, b[..|b| - 1], account);
    }
  }

  /** Exactly when the account's last activity survives what is done again, redeliveries included:
      none of it marked the account, or its last mark carries the same second as the last mark
      before, whichever writers made the two. It goes back exactly when that second is smaller. */
  lemma ActivitySurvivesIff(st: Store, done: seq<Act>, again: seq<Act>, account: string, window: int)
    requires ActsOk(done) && ActsOk(again) && LastMark(done, account).Some?
    ensures var before := Activity(RunActs(st, done, window), account);
            var after := Activity(RunActs(RunActs(st, done, window), again, window), account);
            var l, r := LastMark(done, account).value, LastMark(again, account);
            && before == Some(SecondOf(l)) && after.Some?
            && (after == before <==> r.None? || SecondOf(r.value) == SecondOf(l))
            && (after.value < before.value <==> r.Some? && SecondOf(r.value) < SecondOf(l))
  {
    ActivityIsLastMarks(st, done, account, window);
    ActivityIsLastMarks(RunActs(st, done, window), again, account, window);
  }
}
