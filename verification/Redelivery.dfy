/** At-least-once delivery into Redis: the trade window holds exactly the recent part of the full
    log, and a redelivered batch erases whatever its earlier, possibly partial, attempts left. */
module Redelivery {
  import opened Prelude
  import opened RedisStore
  import opened MetricsEngine

  /** One handler call: the message, its clock reading, and how many of its writes were applied. */
  datatype Attempt = Attempt(m: Message, now: int, done: nat)

  predicate Valid(a: Attempt) {
    a.done <= |Writes(a.m, a.now, 0)|
  }

  predicate Complete(a: Attempt) {
    a.done == |Writes(a.m, a.now, 0)|
  }

  function Handle(st: Store, a: Attempt, window: int): Store
    requires Valid(a)
  {
    ApplyAll(st, Writes(a.m, a.now, window)[..a.done])
  }

  ghost predicate AllValid(log: seq<Attempt>) {
    forall i | 0 <= i < |log| :: Valid(log[i])
  }

  function Run(st: Store, log: seq<Attempt>, window: int): Store
    requires AllValid(log)
    decreases |log|
  {
    if log == [] then st else Run(Handle(st, log[0], window), log[1..], window)
  }

  // ---------------------------------------------------------------- one account's trade window

  predicate Adds(a: Attempt, account: string) {
    a.m.Trade? && a.m.account == account && a.done >= 1
  }

  predicate Trims(a: Attempt, account: string) {
    a.m.Trade? && a.m.account == account && a.done >= 2
  }

  /** The sorted set after all the additions of a log and none of its trims. */
  function AddAll(z: Window, log: seq<Attempt>, account: string): Window
    decreases |log|
  {
    if log == [] then z
    else AddAll(if Adds(log[0], account) then z[log[0].m.id := log[0].m.time] else z, log[1..], account)
  }

  /** The effect of one attempt on one account's window. */
  function WindowStep(z: Window, a: Attempt, account: string, window: int): Window {
    var z1 := if Adds(a, account) then z[a.m.id := a.m.time] else z;
    if Trims(a, account) then Keep(z1, a.now - window) else z1
  }

  function WindowRun(z: Window, log: seq<Attempt>, account: string, window: int): Window
    decreases |log|
  {
    if log == [] then z else WindowRun(WindowStep(z, log[0], account, window), log[1..], account, window)
  }

  lemma WindowOfApply(st: Store, w: Write, account: string)
    ensures WindowOf(Apply(st, w), account) ==
            if w.ZAdd? && w.account == account then WindowOf(st, account)[w.id := w.score]
            else if w.Trim? && w.account == account then Keep(WindowOf(st, account), w.cutoff)
            else WindowOf(st, account)
  {
  }

  lemma {:induction false} WindowOfPrefix(st: Store, a: Attempt, k: nat, account: string, window: int)
    requires k <= |Writes(a.m, a.now, window)|
    ensures WindowOf(ApplyAll(st, Writes(a.m, a.now, window)[..k]), account)
         == WindowStep(WindowOf(st, account), a.(done := k), account, window)
  {
    var ws := Writes(a.m, a.now, window);
    if k > 0 {
      WindowOfPrefix(st, a, k - 1, account, window);
      assert ws[..k] == ws[..k - 1] + [ws[k - 1]];
      ApplySnoc(st, ws[..k - 1], ws[k - 1]);
      WindowOfApply(ApplyAll(st, ws[..k - 1]), ws[k - 1], account);
    }
  }

  lemma WindowOfHandle(st: Store, a: Attempt, account: string, window: int)
    requires Valid(a)
    ensures WindowOf(Handle(st, a, window), account) == WindowStep(WindowOf(st, account), a, account, window)
  {
    WindowOfPrefix(st, a, a.done, account, window);
  }

  lemma {:induction false} WindowOfRun(st: Store, log: seq<Attempt>, account: string, window: int)
    requires AllValid(log)
    ensures WindowOf(Run(st, log, window), account) == WindowRun(WindowOf(st, account), log, account, window)
    decreases |log|
  {
    if log != [] {
      WindowOfHandle(st, log[0], account, window);
      WindowOfRun(Handle(st, log[0], window), log[1..], account, window);
    }
  }

  lemma {:induction false} AddAllRespectsKeep(y: Window, z: Window, log: seq<Attempt>, account: string, c: int)
    requires Keep(y, c) == Keep(z, c)
    ensures Keep(AddAll(y, log, account), c) == Keep(AddAll(z, log, account), c)
    decreases |log|
  {
    if log != [] {
      var a := log[0];
      if Adds(a, account) {
        var y1, z1 := y[a.m.id := a.m.time], z[a.m.id := a.m.time];
        KeepAfterAdd(y, z, a.m.id, a.m.time, c);
        AddAllRespectsKeep(y1, z1, log[1..], account, c);
      } else {
        AddAllRespectsKeep(y, z, log[1..], account, c);
      }
    }
  }

  lemma KeepAfterAdd(y: Window, z: Window, id: string, score: int, c: int)
    requires Keep(y, c) == Keep(z, c)
    ensures Keep(y[id := score], c) == Keep(z[id := score], c)
  {
    forall k
      ensures (k in y && y[k] > c) <==> (k in z && z[k] > c)
      ensures k in y && y[k] > c ==> y[k] == z[k]
    {
      assert k in Keep(y, c) <==> k in Keep(z, c);
      if k in Keep(y, c) {
        assert Keep(y, c)[k] == Keep(z, c)[k];
      }
    }
  }

  lemma KeepTwice(z: Window, d: int, c: int)
    requires d <= c
    ensures Keep(Keep(z, d), c) == Keep(z, c)
  {
  }

  ghost predicate CutoffsUpTo(log: seq<Attempt>, account: string, window: int, c: int) {
    forall i | 0 <= i < |log| :: Trims(log[i], account) ==> log[i].now - window <= c
  }

  /** Above a cutoff no earlier trim exceeds, trimming along the way changes nothing. */
  lemma {:induction false} TrimsAreInvisible(z: Window, log: seq<Attempt>, account: string, window: int, c: int)
    requires CutoffsUpTo(log, account, window, c)
    ensures Keep(WindowRun(z, log, account, window), c) == Keep(AddAll(z, log, account), c)
    decreases |log|
  {
    if log != [] {
      var a := log[0];
      var z1 := if Adds(a, account) then z[a.m.id := a.m.time] else z;
      var z2 := WindowStep(z, a, account, window);
      if Trims(a, account) {
        KeepTwice(z1, a.now - window, c);
      }
      TrimsAreInvisible(z2, log[1..], account, window, c);
      AddAllRespectsKeep(z2, z1, log[1..], account, c);
    }
  }

  lemma {:induction false} WindowRunAppend(z: Window, a: seq<Attempt>, b: seq<Attempt>, account: string, window: int)
    ensures WindowRun(z, a + b, account, window) == WindowRun(WindowRun(z, a, account, window), b, account, window)
    decreases |a|
  {
    if a == [] {
      assert a + b == b;
    } else {
      assert (a + b)[1..] == a[1..] + b;
      WindowRunAppend(WindowStep(z, a[0], account, window), a[1..], b, account, window);
    }
  }

  lemma {:induction false} AddAllAppend(z: Window, a: seq<Attempt>, b: seq<Attempt>, account: string)
    ensures AddAll(z, a + b, account) == AddAll(AddAll(z, a, account), b, account)
    decreases |a|
  {
    if a == [] {
      assert a + b == b;
    } else {
      assert (a + b)[1..] == a[1..] + b;
      AddAllAppend(if Adds(a[0], account) then z[a[0].m.id := a[0].m.time] else z, a[1..], b, account);
    }
  }

  /** After an attempt whose trim was applied, the window is the full log above that cutoff. */
  lemma WindowAfterTrim(z: Window, log: seq<Attempt>, last: Attempt, account: string, window: int)
    requires Trims(last, account) && CutoffsUpTo(log, account, window, last.now - window)
    ensures WindowRun(z, log + [last], account, window) == Keep(AddAll(z, log + [last], account), last.now - window)
  {
    var c := last.now - window;
    WindowRunAppend(z, log, [last], account, window);
    AddAllAppend(z, log, [last], account);
    TrimsAreInvisible(z, log, account, window, c);
    var y := WindowRun(z, log, account, window);
    var x := AddAll(z, log, account);
    KeepAfterAdd(y, x, last.m.id, last.m.time, c);
    assert [last][1..] == [];
    assert WindowRun(y, [last], account, window)
        == WindowRun(WindowStep(y, last, account, window), [], account, window);
    assert AddAll(x, [last], account) == AddAll(x[last.m.id := last.m.time], [], account);
  }

  // ---------------------------------------------------------------- the window against the full log

  /** The time last recorded for a trade ID, if the log added it at all. */
  function LastTime(log: seq<Attempt>, account: string, id: string): Option<int>
    decreases |log|
  {
    if log == [] then None
    else
      var l := log[|log| - 1];
      if Adds(l, account) && l.m.id == id then Some(l.m.time) else LastTime(log[..|log| - 1], account, id)
  }

  lemma {:induction false} AddAllIsLastTime(log: seq<Attempt>, account: string)
    ensures forall id :: id in AddAll(map[], log, account) <==> LastTime(log, account, id).Some?
    ensures forall id | id in AddAll(map[], log, account) ::
              AddAll(map[], log, account)[id] == LastTime(log, account, id).value
    decreases |log|
  {
    if log != [] {
      var front, l := log[..|log| - 1], log[|log| - 1];
      assert log == front + [l];
      AddAllIsLastTime(front, account);
      AddAllAppend(map[], front, [l], account);
      var x := AddAll(map[], front, account);
      assert [l][1..] == [];
      assert AddAll(x, [l], account) == AddAll(if Adds(l, account) then x[l.m.id := l.m.time] else x, [], account);
    }
  }

  ghost predicate ClocksUpTo(log: seq<Attempt>, now: int) {
    forall i | 0 <= i < |log| :: log[i].now <= now
  }

  /** The distinct trade IDs of a log whose last recorded time is after the cutoff. */
  function RecentIds(log: seq<Attempt>, account: string, cutoff: int): set<string> {
    set i | 0 <= i < |log| && Adds(log[i], account) && LastTime(log, account, log[i].m.id).GetOr(cutoff) > cutoff
      :: log[i].m.id
  }

  lemma {:induction false} LastTimeIsInLog(log: seq<Attempt>, account: string, id: string)
    requires LastTime(log, account, id).Some?
    ensures exists i :: 0 <= i < |log| && Adds(log[i], account) && log[i].m.id == id
    decreases |log|
  {
    var l := log[|log| - 1];
    if Adds(l, account) && l.m.id == id {
    } else {
      LastTimeIsInLog(log[..|log| - 1], account, id);
    }
  }

  /** Whatever was delivered before, in any order, late, repeatedly or cut short by errors, after
      a successfully handled trade the account's sorted set holds exactly the trade IDs added so
      far whose time is later than this call's cutoff, each with its last recorded time. */
  lemma WindowIsRecentLog(log: seq<Attempt>, last: Attempt, window: int)
    requires AllValid(log) && last.m.Trade? && Complete(last) && ClocksUpTo(log, last.now)
    ensures AllValid(log + [last])
    ensures var w := WindowOf(Run(Store(map[], map[], map[], map[]), log + [last], window), last.m.account);
            var c := last.now - window;
            && (forall id :: id in w <==>
                  LastTime(log + [last], last.m.account, id).Some?
                  && LastTime(log + [last], last.m.account, id).value > c)
            && (forall id | id in w :: w[id] == LastTime(log + [last], last.m.account, id).value)
            && w.Keys == RecentIds(log + [last], last.m.account, c)
            && |w| == |RecentIds(log + [last], last.m.account, c)|
  {
    var all := log + [last];
    WindowOfRun(Store(map[], map[], map[], map[]), all, last.m.account, window);
    WindowAfterTrim(map[], log, last, last.m.account, window);
    AddAllIsLastTime(all, last.m.account);
    var w := WindowOf(Run(Store(map[], map[], map[], map[]), all, window), last.m.account);
    forall id | id in w
      ensures id in RecentIds(all, last.m.account, last.now - window)
    {
      LastTimeIsInLog(all, last.m.account, id);
    }
    assert w.Keys == RecentIds(all, last.m.account, last.now - window);
  }

  // ---------------------------------------------------------------- keys that are overwritten

  datatype CellKey = HashCell(hash: HashKey) | StampCell(stamp: StampKey)

  datatype Cell = Absent | Hash(fields: Expiring<Fields>) | Stamp(seconds: Expiring<int>)

  function CellOf(st: Store, k: CellKey): Cell {
    match k
    case HashCell(h) => if h in st.hashes then Hash(st.hashes[h]) else Absent
    case StampCell(s) => if s in st.stamps then Stamp(st.stamps[s]) else Absent
  }

  predicate Touches(m: Message, k: CellKey) {
    match k
    case HashCell(h) => !m.Trade? && HashOf(m) == h
    case StampCell(s) => s == LastActivity(m.account) || s == Freshness(m.account, DimOf(m))
  }

  predicate WritesCell(w: Write, k: CellKey) {
    ((w.HSet? || w.ExpireHash?) && k == HashCell(w.hash)) || (w.SetStamp? && k == StampCell(w.stamp))
  }

  /** What a complete handling of a message leaves in a cell it touches, unless a hash still held a
      field the handlers do not write. */
  function CellWritten(a: Attempt, k: CellKey): Cell
    requires Touches(a.m, k)
  {
    match k
    case HashCell(_) => Hash(Expiring(FieldsOf(a.m), At(a.now + HASH_TTL_MS)))
    case StampCell(_) => Stamp(Expiring(a.m.time / SECOND_MS, At(a.now + DAY_MS)))
  }

  lemma CellOfApply(st1: Store, st2: Store, w: Write, k: CellKey)
    ensures !WritesCell(w, k) ==> CellOf(Apply(st1, w), k) == CellOf(st1, k)
    ensures CellOf(st1, k) == CellOf(st2, k) ==> CellOf(Apply(st1, w), k) == CellOf(Apply(st2, w), k)
  {
  }

  lemma WritesTouch(m: Message, now: int, window: int, i: nat, k: CellKey)
    requires i < |Writes(m, now, window)| && WritesCell(Writes(m, now, window)[i], k)
    ensures Touches(m, k)
  {
  }

  /** A prefix of commands leaves an untouched cell alone, and acts on any cell by what it holds. */
  lemma {:induction false} CellOfPrefix(st1: Store, st2: Store, a: Attempt, k: CellKey, n: nat, window: int)
    requires n <= |Writes(a.m, a.now, window)|
    ensures var ws := Writes(a.m, a.now, window)[..n];
            && (!Touches(a.m, k) ==> CellOf(ApplyAll(st1, ws), k) == CellOf(st1, k))
            && (CellOf(st1, k) == CellOf(st2, k) ==> CellOf(ApplyAll(st1, ws), k) == CellOf(ApplyAll(st2, ws), k))
  {
    if n > 0 {
      var ws := Writes(a.m, a.now, window);
      CellOfPrefix(st1, st2, a, k, n - 1, window);
      if WritesCell(ws[n - 1], k) {
        WritesTouch(a.m, a.now, window, n - 1, k);
      }
      CellOfNext(st1, st2, ws, k, n);
    }
  }

  lemma CellOfNext(st1: Store, st2: Store, ws: seq<Write>, k: CellKey, n: nat)
    requires 0 < n <= |ws|
    ensures var x1, x2 := ApplyAll(st1, ws[..n - 1]), ApplyAll(st2, ws[..n - 1]);
            && (!WritesCell(ws[n - 1], k) ==> CellOf(ApplyAll(st1, ws[..n]), k) == CellOf(x1, k))
            && (CellOf(x1, k) == CellOf(x2, k)
                ==> CellOf(ApplyAll(st1, ws[..n]), k) == CellOf(ApplyAll(st2, ws[..n]), k))
  {
    assert ws[..n] == ws[..n - 1] + [ws[n - 1]];
    ApplySnoc(st1, ws[..n - 1], ws[n - 1]);
    ApplySnoc(st2, ws[..n - 1], ws[n - 1]);
    CellOfApply(ApplyAll(st1, ws[..n - 1]), ApplyAll(st2, ws[..n - 1]), ws[n - 1], k);
  }

  /** No hash holds a field the handlers do not write. */
  ghost predicate Plain(st: Store) {
    forall h | h in st.hashes :: st.hashes[h].value.updatedAt.None?
  }

  lemma {:induction false} HandlePlain(st: Store, ws: seq<Write>)
    requires Plain(st) && forall i | 0 <= i < |ws| && ws[i].HSet? :: ws[i].fields.updatedAt.None?
    ensures Plain(ApplyAll(st, ws))
    decreases |ws|
  {
    if ws != [] {
      ApplyPlain(st, ws[0]);
      HandlePlain(Apply(st, ws[0]), ws[1..]);
    }
  }

  lemma ApplyPlain(st: Store, w: Write)
    requires Plain(st) && (w.HSet? ==> w.fields.updatedAt.None?)
    ensures Plain(Apply(st, w))
  {
  }

  lemma HandledPlain(st: Store, a: Attempt, window: int)
    requires Plain(st) && Valid(a)
    ensures Plain(Handle(st, a, window))
  {
    HandlePlain(st, Writes(a.m, a.now, window)[..a.done]);
  }

  lemma {:induction false} RunPlain(st: Store, log: seq<Attempt>, window: int)
    requires Plain(st) && AllValid(log)
    ensures Plain(Run(st, log, window))
    decreases |log|
  {
    if log != [] {
      HandledPlain(st, log[0], window);
      RunPlain(Handle(st, log[0], window), log[1..], window);
    }
  }

  lemma CompleteTrade(st: Store, a: Attempt, k: CellKey, window: int)
    requires a.m.Trade? && Complete(a) && Touches(a.m, k)
    ensures CellOf(Handle(st, a, window), k) == CellWritten(a, k)
  {
    TradePrefixes(st, a.m, a.now, window);
  }

  lemma CompleteStamp(st: Store, a: Attempt, k: CellKey, window: int)
    requires !a.m.Trade? && Complete(a) && Touches(a.m, k) && k.StampCell?
    ensures CellOf(Handle(st, a, window), k) == CellWritten(a, k)
  {
    SnapshotPrefixes(st, a.m, a.now, window);
  }

  /** A complete handling of a snapshot overlays what is alive in its hash and renews the lifetime. */
  lemma CompleteHash(st: Store, a: Attempt, window: int)
    requires !a.m.Trade? && Complete(a)
    ensures var h := HashOf(a.m);
            CellOf(Handle(st, a, window), HashCell(h))
            == Hash(Expiring(Overlay(LiveFields(st, h, a.now), FieldsOf(a.m)), At(a.now + HASH_TTL_MS)))
  {
    SnapshotPrefixes(st, a.m, a.now, window);
  }

  /** So it leaves just its own fields exactly when no other writer's field was alive. */
  lemma CompleteHashIff(st: Store, a: Attempt, window: int)
    requires !a.m.Trade? && Complete(a)
    ensures var k := HashCell(HashOf(a.m));
            CellOf(Handle(st, a, window), k) == CellWritten(a, k)
            <==> LiveFields(st, HashOf(a.m), a.now).updatedAt.None?
  {
    CompleteHash(st, a, window);
  }

  lemma CellOfHandle(st1: Store, st2: Store, a: Attempt, k: CellKey, window: int)
    requires Valid(a)
    ensures !Touches(a.m, k) ==> CellOf(Handle(st1, a, window), k) == CellOf(st1, k)
    ensures CellOf(st1, k) == CellOf(st2, k) ==> CellOf(Handle(st1, a, window), k) == CellOf(Handle(st2, a, window), k)
    ensures Complete(a) && Touches(a.m, k) && (k.StampCell? || Plain(st1)) ==>
              CellOf(Handle(st1, a, window), k) == CellWritten(a, k)
  {
    CellOfPrefix(st1, st2, a, k, a.done, window);
    if Complete(a) && Touches(a.m, k) {
      if a.m.Trade? {
        CompleteTrade(st1, a, k, window);
      } else if k.StampCell? {
        CompleteStamp(st1, a, k, window);
      } else {
        CompleteHashIff(st1, a, window);
      }
    }
  }

  // ---------------------------------------------------------------- one handling, key by key

  /** The last activity and the freshness of one kind of data, at the message's second, for a day. */
  function Stamped(stamps: map<StampKey, Expiring<int>>, account: string, dim: Dim, time: int, now: int)
    : map<StampKey, Expiring<int>>
  {
    stamps[LastActivity(account) := Expiring(time / 1000, At(now + 86400000))]
          [Freshness(account, dim) := Expiring(time / 1000, At(now + 86400000))]
  }

  predicate Alive(e: Expiry, now: int) {
    match e
    case Never => true
    case At(time) => now < time
  }

  /** The field the handlers do not write, if a hash that is alive holds it. */
  function KeptField(st: Store, h: HashKey, now: int): Option<string> {
    if h in st.hashes && Alive(st.hashes[h].expiry, now) then st.hashes[h].value.updatedAt else None
  }

  /** Everything one successful handling of a trade leaves: the trade in its account's window and that
      window trimmed, its symbol among the live ones of its account with a new lifetime, and the
      account's activity and trade freshness. */
  lemma TradeHandled(st: Store, account: string, symbol: string, id: string, time: int, now: int, window: int)
    ensures var a := Attempt(Trade(account, symbol, id, time), now, 6);
            && Complete(a)
            && var st' := Handle(st, a, window);
            && st'.hashes == st.hashes && st'.stamps == Stamped(st.stamps, account, TradeDim, time, now)
            && (forall other | other != account :: WindowOf(st', other) == WindowOf(st, other))
            && WindowOf(st', account) == Keep(WindowOf(st, account)[id := time], now - window)
            && st'.symbols
               == st.symbols[account := Expiring((if account in st.symbols && Alive(st.symbols[account].expiry, now)
                                                  then st.symbols[account].value else {}) + {symbol},
                                                 At(now + window))]
  {
    TradePrefixes(st, Trade(account, symbol, id, time), now, window);
  }

  /** The same for a position: the hash of that account and symbol, for two hours. */
  lemma PositionHandled(st: Store, account: string, symbol: string, identity: seq<string>, amounts: seq<string>,
                        time: int, now: int, window: int)
    ensures var a := Attempt(Position(account, symbol, identity, amounts, time), now, 4);
            var h := PositionKey(account, symbol);
            && Complete(a)
            && var st' := Handle(st, a, window);
            && st'.windows == st.windows && st'.symbols == st.symbols
            && st'.stamps == Stamped(st.stamps, account, PositionDim, time, now)
            && st'.hashes == st.hashes[h := Expiring(Fields(Some(identity), Some(amounts), KeptField(st, h, now)),
                                                     At(now + 7200000))]
  {
    SnapshotPrefixes(st, Position(account, symbol, identity, amounts, time), now, window);
  }

  /** And for a balance: the hash of that account and asset. */
  lemma BalanceHandled(st: Store, account: string, asset: string, identity: seq<string>, amounts: seq<string>,
                       time: int, now: int, window: int)
    ensures var a := Attempt(Balance(account, asset, identity, amounts, time), now, 4);
            var h := BalanceKey(account, asset);
            && Complete(a)
            && var st' := Handle(st, a, window);
            && st'.windows == st.windows && st'.symbols == st.symbols
            && st'.stamps == Stamped(st.stamps, account, BalanceDim, time, now)
            && st'.hashes == st.hashes[h := Expiring(Fields(Some(identity), Some(amounts), KeptField(st, h, now)),
                                                     At(now + 7200000))]
  {
    SnapshotPrefixes(st, Balance(account, asset, identity, amounts, time), now, window);
  }

  /** A snapshot cut between its HSET and its EXPIRE has no lifetime of its own: exactly when no live
      hash was there before, what it wrote stays for good until the hash is written again. */
  lemma CutSnapshotStaysIff(st: Store, m: Message, now: int, window: int)
    requires !m.Trade?
    ensures var st', h := Handle(st, Attempt(m, now, 1), window), HashOf(m);
            && h in st'.hashes
            && (st'.hashes[h].expiry.Never?
                <==> !(h in st.hashes && st.hashes[h].expiry.At? && now < st.hashes[h].expiry.time))
  {
    SnapshotPrefixes(st, m, now, window);
  }

  ghost predicate AllComplete(log: seq<Attempt>) {
    forall i | 0 <= i < |log| :: Complete(log[i])
  }

  ghost predicate SomeTouches(log: seq<Attempt>, k: CellKey) {
    exists i :: 0 <= i < |log| && Touches(log[i].m, k)
  }

  lemma {:induction false} CellOfRun(st1: Store, st2: Store, log: seq<Attempt>, k: CellKey, window: int)
    requires AllComplete(log) && (CellOf(st1, k) == CellOf(st2, k) || SomeTouches(log, k))
    requires k.HashCell? ==> Plain(st1) && Plain(st2)
    ensures CellOf(Run(st1, log, window), k) == CellOf(Run(st2, log, window), k)
    decreases |log|
  {
    if log != [] {
      if k.HashCell? {
        HandledPlain(st1, log[0], window);
        HandledPlain(st2, log[0], window);
      }
      CellOfHandle(st1, st2, log[0], k, window);
      CellOfHandle(st2, st1, log[0], k, window);
      if CellOf(st1, k) != CellOf(st2, k) && !Touches(log[0].m, k) {
        var i :| 0 <= i < |log| && Touches(log[i].m, k);
        assert Touches(log[1..][i - 1].m, k);
      }
      CellOfRun(Handle(st1, log[0], window), Handle(st2, log[0], window), log[1..], k, window);
    }
  }

  lemma {:induction false} CellUntouched(st: Store, log: seq<Attempt>, k: CellKey, window: int)
    requires AllValid(log) && !SomeTouches(log, k)
    ensures CellOf(Run(st, log, window), k) == CellOf(st, k)
    decreases |log|
  {
    if log != [] {
      CellOfHandle(st, st, log[0], k, window);
      assert Touches(log[0].m, k) ==> SomeTouches(log, k);
      forall i | 0 <= i < |log[1..]|
        ensures !Touches(log[1..][i].m, k)
      {
        assert log[1..][i] == log[i + 1];
      }
      CellUntouched(Handle(st, log[0], window), log[1..], k, window);
    }
  }

  // ---------------------------------------------------------------- redelivery erases earlier attempts

  /** Every attempt was made at a message of the batch. */
  ghost predicate AttemptsAt(tries: seq<Attempt>, batch: seq<Attempt>) {
    forall i | 0 <= i < |tries| :: exists j :: 0 <= j < |batch| && batch[j].m == tries[i].m
  }

  ghost predicate ReaddedIn(tries: seq<Attempt>, batch: seq<Attempt>, account: string) {
    forall i | 0 <= i < |tries| && Adds(tries[i], account) ::
      exists j :: 0 <= j < |batch| && Adds(batch[j], account) && batch[j].m.id == tries[i].m.id
  }

  lemma {:induction false} AddAbsorbed(z: Window, id: string, score: int, batch: seq<Attempt>, account: string, j: nat)
    requires j < |batch| && Adds(batch[j], account) && batch[j].m.id == id
    ensures AddAll(z[id := score], batch, account) == AddAll(z, batch, account)
    decreases |batch|
  {
    var b := batch[0];
    if j == 0 {
      assert z[id := score][id := b.m.time] == z[id := b.m.time];
    } else if Adds(b, account) && b.m.id != id {
      assert z[id := score][b.m.id := b.m.time] == z[b.m.id := b.m.time][id := score];
      AddAbsorbed(z[b.m.id := b.m.time], id, score, batch[1..], account, j - 1);
    } else if Adds(b, account) {
      assert z[id := score][id := b.m.time] == z[id := b.m.time];
    } else {
      AddAbsorbed(z, id, score, batch[1..], account, j - 1);
    }
  }

  lemma {:induction false} AddsAbsorbed(z: Window, tries: seq<Attempt>, batch: seq<Attempt>, account: string)
    requires ReaddedIn(tries, batch, account)
    ensures AddAll(AddAll(z, tries, account), batch, account) == AddAll(z, batch, account)
    decreases |tries|
  {
    if tries != [] {
      var a := tries[0];
      var z1 := if Adds(a, account) then z[a.m.id := a.m.time] else z;
      assert ReaddedIn(tries[1..], batch, account) by {
        forall i | 0 <= i < |tries[1..]| && Adds(tries[1..][i], account)
          ensures exists j :: 0 <= j < |batch| && Adds(batch[j], account) && batch[j].m.id == tries[1..][i].m.id
        {
          assert tries[1..][i] == tries[i + 1];
        }
      }
      AddsAbsorbed(z1, tries[1..], batch, account);
      if Adds(a, account) {
        var j :| 0 <= j < |batch| && Adds(batch[j], account) && batch[j].m.id == a.m.id;
        AddAbsorbed(z, a.m.id, a.m.time, batch, account, j);
      }
    }
  }

  ghost predicate NoneFor(log: seq<Attempt>, account: string) {
    forall i | 0 <= i < |log| :: !Adds(log[i], account)
  }

  lemma {:induction false} WindowUntouched(z: Window, log: seq<Attempt>, account: string, window: int)
    requires NoneFor(log, account)
    ensures WindowRun(z, log, account, window) == z
    decreases |log|
  {
    if log != [] {
      assert !Adds(log[0], account);
      WindowUntouched(z, log[1..], account, window);
    }
  }

  ghost predicate Ordered(log: seq<Attempt>) {
    forall i, j | 0 <= i < j < |log| :: log[i].now <= log[j].now
  }

  lemma {:induction false} WindowErased(z: Window, tries: seq<Attempt>, batch: seq<Attempt>, account: string,
                                        window: int)
    requires AllComplete(batch) && Ordered(batch) && ReaddedIn(tries, batch, account)
    requires forall i | 0 <= i < |batch| :: ClocksUpTo(tries, batch[i].now)
    ensures WindowRun(WindowRun(z, tries, account, window), batch, account, window)
            == WindowRun(z, batch, account, window)
    decreases |batch|
  {
    var y := WindowRun(z, tries, account, window);
    if batch == [] {
      WindowUntouched(z, tries, account, window);
    } else {
      var front, l := batch[..|batch| - 1], batch[|batch| - 1];
      assert batch == front + [l];
      if Adds(l, account) {
        var c := l.now - window;
        assert ClocksUpTo(tries, batch[|batch| - 1].now);
        WindowAfterTrim(y, front, l, account, window);
        WindowAfterTrim(z, front, l, account, window);
        TrimsAreInvisible(z, tries, account, window, c);
        AddAllRespectsKeep(y, AddAll(z, tries, account), batch, account, c);
        AddsAbsorbed(z, tries, batch, account);
      } else {
        WindowRunAppend(y, front, [l], account, window);
        WindowRunAppend(z, front, [l], account, window);
        ReaddedInFront(tries, front, l, account);
        WindowErased(z, tries, front, account, window);
      }
    }
  }

  lemma ReaddedInFront(tries: seq<Attempt>, front: seq<Attempt>, l: Attempt, account: string)
    requires ReaddedIn(tries, front + [l], account) && !Adds(l, account)
    ensures ReaddedIn(tries, front, account)
  {
    forall i | 0 <= i < |tries| && Adds(tries[i], account)
      ensures exists j :: 0 <= j < |front| && Adds(front[j], account) && front[j].m.id == tries[i].m.id
    {
      var j :| 0 <= j < |front + [l]| && Adds((front + [l])[j], account) && (front + [l])[j].m.id == tries[i].m.id;
      assert j < |front|;
    }
  }

  /** One stream alone in the store. Let any attempts be made at the messages of a batch: in any
      order, repeated, each cut short after any number of commands. When the batch is then handled
      in order at clocks not before those attempts, every trade window, every stamp and every hash
      is what handling the batch once, at the same clocks, would have left. */
  lemma AloneRedeliveryErases(st: Store, tries: seq<Attempt>, batch: seq<Attempt>, window: int)
    requires Plain(st) && AllValid(tries) && AllComplete(batch) && Ordered(batch) && AttemptsAt(tries, batch)
    requires forall i | 0 <= i < |batch| :: ClocksUpTo(tries, batch[i].now)
    ensures var twice := Run(Run(st, tries, window), batch, window);
            var once := Run(st, batch, window);
            && (forall account :: WindowOf(twice, account) == WindowOf(once, account))
            && (forall k :: CellOf(twice, k) == CellOf(once, k))
  {
    var twice := Run(Run(st, tries, window), batch, window);
    var once := Run(st, batch, window);
    forall account
      ensures WindowOf(twice, account) == WindowOf(once, account)
    {
      WindowOfRun(st, tries, account, window);
      WindowOfRun(st, batch, account, window);
      WindowOfRun(Run(st, tries, window), batch, account, window);
      AttemptsReadded(tries, batch, account);
      WindowErased(WindowOf(st, account), tries, batch, account, window);
    }
    RunPlain(st, tries, window);
    forall k
      ensures CellOf(twice, k) == CellOf(once, k)
    {
      if !SomeTouches(batch, k) {
        if SomeTouches(tries, k) {
          AttemptsTouchNoMore(tries, batch, k);
        }
        CellUntouched(st, tries, k, window);
      }
      CellOfRun(Run(st, tries, window), st, batch, k, window);
    }
  }

  lemma AttemptsReadded(tries: seq<Attempt>, batch: seq<Attempt>, account: string)
    requires AllComplete(batch) && AttemptsAt(tries, batch)
    ensures ReaddedIn(tries, batch, account)
  {
    forall i | 0 <= i < |tries| && Adds(tries[i], account)
      ensures exists j :: 0 <= j < |batch| && Adds(batch[j], account) && batch[j].m.id == tries[i].m.id
    {
      var j :| 0 <= j < |batch| && batch[j].m == tries[i].m;
      assert Complete(batch[j]);
    }
  }

  lemma AttemptsTouchNoMore(tries: seq<Attempt>, batch: seq<Attempt>, k: CellKey)
    requires AttemptsAt(tries, batch) && SomeTouches(tries, k)
    ensures SomeTouches(batch, k)
  {
    var i :| 0 <= i < |tries| && Touches(tries[i].m, k);
    var j :| 0 <= j < |batch| && batch[j].m == tries[i].m;
    assert Touches(batch[j].m, k);
  }

  lemma {:induction false} RunAppend(st: Store, a: seq<Attempt>, b: seq<Attempt>, window: int)
    requires AllValid(a) && AllValid(b)
    ensures AllValid(a + b) && Run(st, a + b, window) == Run(Run(st, a, window), b, window)
    decreases |a|
  {
    assert AllValid(a + b);
    if a == [] {
      assert a + b == b;
    } else {
      assert (a + b)[1..] == a[1..] + b;
      RunAppend(Handle(st, a[0], window), a[1..], b, window);
    }
  }

  lemma RunSnoc(st: Store, log: seq<Attempt>, a: Attempt, window: int)
    requires AllValid(log) && Valid(a)
    ensures AllValid(log + [a]) && Run(st, log + [a], window) == Handle(Run(st, log, window), a, window)
  {
    RunAppend(st, log, [a], window);
    assert [a][1..] == [];
    assert Run(Run(st, log, window), [a], window) == Run(Handle(Run(st, log, window), a, window), [], window);
  }

  // ---------------------------------------------------------------- the traded-symbols set

  predicate SymbolsAlive(st: Store, account: string, now: int) {
    account in st.symbols && Live(st.symbols[account], now)
  }

  /** What a trade's attempt does to its account's symbol set: nothing before SADD, and SADD alone
      keeps whatever lifetime the set has. */
  lemma SymbolsOfAttempt(st: Store, a: Attempt, window: int)
    requires a.m.Trade? && Valid(a)
    ensures var st' := Handle(st, a, window);
            var x := a.m.account;
            if a.done < 3 then st'.symbols == st.symbols
            else
              && x in st'.symbols
              && st'.symbols[x] == Expiring(LiveSymbols(st, x, a.now) + {a.m.symbol},
                                            if a.done >= 4 then At(a.now + window)
                                            else if SymbolsAlive(st, x, a.now) then st.symbols[x].expiry
                                            else Never)
  {
    TradePrefixes(st, a.m, a.now, window);
  }

  /** Exactly when attempting a trade at t0 and redelivering it at t1 leaves the symbol set a single
      handling at t1 would have, at every later moment: the attempt did not get as far as EXPIRE, or
      no other symbol was alive at t0, or at t1 the set would have been alive exactly if the
      attempt's lifetime was not over. */
  lemma SymbolsSurviveIff(st: Store, m: Message, t0: int, done: nat, t1: int, window: int)
    requires m.Trade? && t0 <= t1 && window > 0 && Valid(Attempt(m, t0, done))
    ensures var redelivery := Attempt(m, t1, 6);
            var twice := Handle(Handle(st, Attempt(m, t0, done), window), redelivery, window);
            var once := Handle(st, redelivery, window);
            (forall now | now >= t1 :: LiveSymbols(twice, m.account, now) == LiveSymbols(once, m.account, now))
            <==> done < 4 || LiveSymbols(st, m.account, t0) <= {m.symbol}
                 || (SymbolsAlive(st, m.account, t1) <==> t1 < t0 + window)
  {
    var tried := Handle(st, Attempt(m, t0, done), window);
    var twice, once := Handle(tried, Attempt(m, t1, 6), window), Handle(st, Attempt(m, t1, 6), window);
    SymbolsOfAttempt(st, Attempt(m, t0, done), window);
    SymbolsOfAttempt(tried, Attempt(m, t1, 6), window);
    SymbolsOfAttempt(st, Attempt(m, t1, 6), window);
    assert twice.symbols[m.account].expiry == At(t1 + window) == once.symbols[m.account].expiry;
    var x, y := twice.symbols[m.account].value, once.symbols[m.account].value;
    assert forall now | now >= t1 :: LiveSymbols(twice, m.account, now) == if now < t1 + window then x else {};
    assert LiveSymbols(twice, m.account, t1) == x && LiveSymbols(once, m.account, t1) == y;
    SameSymbolsIff(st, tried, m, t0, done, t1, window);
  }

  lemma SameSymbolsIff(st: Store, tried: Store, m: Message, t0: int, done: nat, t1: int, window: int)
    requires m.Trade? && t0 <= t1 && window > 0 && Valid(Attempt(m, t0, done))
    requires tried == Handle(st, Attempt(m, t0, done), window)
    ensures LiveSymbols(tried, m.account, t1) + {m.symbol} == LiveSymbols(st, m.account, t1) + {m.symbol}
            <==> done < 4 || LiveSymbols(st, m.account, t0) <= {m.symbol}
                 || (SymbolsAlive(st, m.account, t1) <==> t1 < t0 + window)
  {
    SymbolsOfAttempt(st, Attempt(m, t0, done), window);
    var old0, old1 := LiveSymbols(st, m.account, t0), LiveSymbols(st, m.account, t1);
    assert old1 == if SymbolsAlive(st, m.account, t1) then old0 else {};
    assert old0 + {m.symbol} + {m.symbol} == old0 + {m.symbol};
    assert {m.symbol} == {} + {m.symbol} == {m.symbol} + {m.symbol};
    if old0 <= {m.symbol} {
      assert old0 + {m.symbol} == {m.symbol};
    } else {
      var z :| z in old0 && z != m.symbol;
      assert z in old0 + {m.symbol};
    }
  }

  /** It happens: an attempt that is later repeated keeps another symbol alive past the moment the
      whole set would have expired. */
  lemma SymbolsCanSurvive() returns (st: Store, m: Message, t0: int, t1: int, window: int)
    ensures m.Trade? && t0 <= t1 && window > 0
    ensures exists now :: now >= t1 &&
              LiveSymbols(Handle(Handle(st, Attempt(m, t0, 6), window), Attempt(m, t1, 6), window), m.account, now)
              != LiveSymbols(Handle(st, Attempt(m, t1, 6), window), m.account, now)
  {
    st := Store(map[], map["a" := Expiring({"X"}, At(150))], map[], map[]);
    m := Trade("a", "Y", "1", 140);
    t0, t1, window := 140, 200, 100;
    assert "X" in LiveSymbols(st, "a", 140);
    SymbolsSurviveIff(st, m, t0, 6, t1, window);
  }

  // A whole batch, after any two pasts.

  function SymbolsCell(st: Store, account: string): Option<Expiring<set<string>>> {
    if account in st.symbols then Some(st.symbols[account]) else None
  }

  function LiveSet(c: Option<Expiring<set<string>>>, now: int): set<string> {
    if c.Some? && Live(c.value, now) then c.value.value else {}
  }

  /** The account's trades in a batch. */
  function Trades(batch: seq<Attempt>, account: string): (trades: seq<Attempt>)
    ensures forall i | 0 <= i < |trades| :: trades[i] in batch && trades[i].m.Trade? && trades[i].m.account == account
  {
    if batch == [] then []
    else
      var a := batch[|batch| - 1];
      Trades(batch[..|batch| - 1], account) + if a.m.Trade? && a.m.account == account then [a] else []
  }

  /** The symbol set's cell after complete trades of the account. */
  function SymbolsRun(c: Option<Expiring<set<string>>>, trades: seq<Attempt>,
                      window: int): Option<Expiring<set<string>>>
    requires forall i | 0 <= i < |trades| :: trades[i].m.Trade?
  {
    if trades == [] then c
    else
      var l := trades[|trades| - 1];
      Some(Expiring(LiveSet(SymbolsRun(c, trades[..|trades| - 1], window), l.now) + {l.m.symbol}, At(l.now + window)))
  }

  lemma SymbolsOfHandle(st: Store, a: Attempt, account: string, window: int)
    requires Complete(a)
    ensures SymbolsCell(Handle(st, a, window), account)
            == if a.m.Trade? && a.m.account == account
               then Some(Expiring(LiveSet(SymbolsCell(st, account), a.now) + {a.m.symbol}, At(a.now + window)))
               else SymbolsCell(st, account)
  {
    if a.m.Trade? {
      SymbolsOfAttempt(st, a, window);
      OtherSymbols(st, a, account, a.done, window);
    } else {
      SnapshotPrefixes(st, a.m, a.now, window);
    }
  }

  lemma {:induction false} OtherSymbols(st: Store, a: Attempt, account: string, n: nat, window: int)
    requires a.m.Trade? && n <= |Writes(a.m, a.now, window)|
    ensures a.m.account != account ==>
              SymbolsCell(ApplyAll(st, Writes(a.m, a.now, window)[..n]), account) == SymbolsCell(st, account)
  {
    if n > 0 {
      var ws := Writes(a.m, a.now, window);
      OtherSymbols(st, a, account, n - 1, window);
      assert ws[..n] == ws[..n - 1] + [ws[n - 1]];
      ApplySnoc(st, ws[..n - 1], ws[n - 1]);
    }
  }

  lemma {:induction false} SymbolsOfRun(st: Store, batch: seq<Attempt>, account: string, window: int)
    requires AllComplete(batch)
    ensures SymbolsCell(Run(st, batch, window), account)
            == SymbolsRun(SymbolsCell(st, account), Trades(batch, account), window)
  {
    if batch != [] {
      var front, a := batch[..|batch| - 1], batch[|batch| - 1];
      assert batch == front + [a];
      RunSnoc(st, front, a, window);
      SymbolsOfRun(st, front, account, window);
      SymbolsOfHandle(Run(st, front, window), a, account, window);
      if a.m.Trade? && a.m.account == account {
        SymbolsRunSnoc(SymbolsCell(st, account), Trades(front, account), a, window);
      } else {
        assert Trades(front, account) + [] == Trades(front, account);
      }
    }
  }

  lemma SymbolsRunSnoc(c: Option<Expiring<set<string>>>, trades: seq<Attempt>, a: Attempt, window: int)
    requires (forall i | 0 <= i < |trades| :: trades[i].m.Trade?) && a.m.Trade?
    ensures SymbolsRun(c, trades + [a], window)
            == Some(Expiring(LiveSet(SymbolsRun(c, trades, window), a.now) + {a.m.symbol}, At(a.now + window)))
  {
    assert (trades + [a])[..|trades|] == trades;
  }

  /** Two of the account's trades in a row are a whole window apart. */
  ghost predicate Broken(trades: seq<Attempt>, window: int) {
    exists i :: 0 < i < |trades| && trades[i].now >= trades[i - 1].now + window
  }

  function SymbolsIn(trades: seq<Attempt>): set<string>
    requires forall i | 0 <= i < |trades| :: trades[i].m.Trade?
  {
    if trades == [] then {} else SymbolsIn(trades[..|trades| - 1]) + {trades[|trades| - 1].m.symbol}
  }

  lemma {:induction false} BrokenForgets(c: Option<Expiring<set<string>>>, d: Option<Expiring<set<string>>>,
                                         trades: seq<Attempt>, window: int)
    requires (forall i | 0 <= i < |trades| :: trades[i].m.Trade?) && Broken(trades, window)
    ensures SymbolsRun(c, trades, window) == SymbolsRun(d, trades, window)
  {
    var n := |trades| - 1;
    if trades[n].now < trades[n - 1].now + window {
      var i :| 0 < i < |trades| && trades[i].now >= trades[i - 1].now + window;
      assert trades[..n][i].now >= trades[..n][i - 1].now + window;
      BrokenForgets(c, d, trades[..n], window);
    }
  }

  lemma UnbrokenFront(trades: seq<Attempt>, window: int)
    requires |trades| > 1 && !Broken(trades, window)
    ensures !Broken(trades[..|trades| - 1], window) && trades[|trades| - 1].now < trades[|trades| - 2].now + window
  {
    var front := trades[..|trades| - 1];
    forall i | 0 < i < |front|
      ensures front[i].now < front[i - 1].now + window
    {
      assert trades[i].now < trades[i - 1].now + window;
    }
  }

  lemma {:induction false} UnbrokenAccumulates(c: Option<Expiring<set<string>>>, trades: seq<Attempt>, window: int)
    requires (forall i | 0 <= i < |trades| :: trades[i].m.Trade?) && trades != [] && !Broken(trades, window)
    ensures SymbolsRun(c, trades, window).value.value == LiveSet(c, trades[0].now) + SymbolsIn(trades)
  {
    var n := |trades| - 1;
    if n > 0 {
      UnbrokenFront(trades, window);
      UnbrokenAccumulates(c, trades[..n], window);
    } else {
      assert trades[..0] == [];
    }
  }

  lemma SameUnion(a: set<string>, b: set<string>, s: set<string>)
    ensures a + s == b + s <==> a - s == b - s
  {
    if a + s == b + s {
      assert a - s == (a + s) - s && b - s == (b + s) - s;
    }
    if a - s == b - s {
      assert a + s == (a - s) + s && b + s == (b - s) + s;
    }
  }

  /** Exactly when a batch handled in full leaves the account's symbol set the same after two pasts, at
      every later moment: two of the account's trades are a window apart, or at the first of them the
      two pasts differ in no symbol the batch does not trade. With any attempts at the batch for one
      past and none for the other, this is when a redelivery shows. */
  lemma SymbolsOfBatchIff(x: Store, y: Store, batch: seq<Attempt>, account: string, window: int)
    requires AllComplete(batch) && window > 0 && Trades(batch, account) != []
    ensures var trades := Trades(batch, account);
            var s := SymbolsIn(trades);
            (forall now | now >= trades[|trades| - 1].now ::
               LiveSymbols(Run(x, batch, window), account, now) == LiveSymbols(Run(y, batch, window), account, now))
            <==> Broken(trades, window)
                 || LiveSymbols(x, account, trades[0].now) - s == LiveSymbols(y, account, trades[0].now) - s
  {
    SameAfterIff(x, y, batch, account, window);
    SameSetIff(SymbolsCell(x, account), SymbolsCell(y, account), Trades(batch, account), window);
  }

  lemma SameAfterIff(x: Store, y: Store, batch: seq<Attempt>, account: string, window: int)
    requires AllComplete(batch) && window > 0 && Trades(batch, account) != []
    ensures (forall now | now >= Trades(batch, account)[|Trades(batch, account)| - 1].now ::
               LiveSymbols(Run(x, batch, window), account, now) == LiveSymbols(Run(y, batch, window), account, now))
            <==> SetAfter(x, batch, account, window) == SetAfter(y, batch, account, window)
  {
    var last := Trades(batch, account)[|Trades(batch, account)| - 1].now;
    LiveAfterBatch(x, batch, account, window);
    LiveAfterBatch(y, batch, account, window);
    assert LiveSymbols(Run(x, batch, window), account, last) == SetAfter(x, batch, account, window);
    assert LiveSymbols(Run(y, batch, window), account, last) == SetAfter(y, batch, account, window);
  }

  function SetAfter(st: Store, batch: seq<Attempt>, account: string, window: int): set<string>
    requires Trades(batch, account) != []
  {
    SymbolsRun(SymbolsCell(st, account), Trades(batch, account), window).value.value
  }

  lemma LiveAfterBatch(st: Store, batch: seq<Attempt>, account: string, window: int)
    requires AllComplete(batch) && Trades(batch, account) != []
    ensures var last := Trades(batch, account)[|Trades(batch, account)| - 1].now;
            forall now :: LiveSymbols(Run(st, batch, window), account, now)
                          == if now < last + window then SetAfter(st, batch, account, window) else {}
  {
    SymbolsOfRun(st, batch, account, window);
  }

  lemma SameSetIff(c: Option<Expiring<set<string>>>, d: Option<Expiring<set<string>>>, trades: seq<Attempt>,
                   window: int)
    requires (forall i | 0 <= i < |trades| :: trades[i].m.Trade?) && trades != []
    ensures SymbolsRun(c, trades, window).value.value == SymbolsRun(d, trades, window).value.value
            <==> Broken(trades, window)
                 || LiveSet(c, trades[0].now) - SymbolsIn(trades) == LiveSet(d, trades[0].now) - SymbolsIn(trades)
  {
    if Broken(trades, window) {
      BrokenForgets(c, d, trades, window);
    } else {
      UnbrokenAccumulates(c, trades, window);
      UnbrokenAccumulates(d, trades, window);
      SameUnion(LiveSet(c, trades[0].now), LiveSet(d, trades[0].now), SymbolsIn(trades));
    }
  }
}
