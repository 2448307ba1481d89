/** The Redis server state the metrics engine writes, and the client operations on it.
    Times are integer milliseconds; a key with an expiry is gone from that moment on. */
module RedisStore {
  import opened Prelude

  const DAY_MS: int := 24 * 60 * 60 * 1000
  const SECOND_MS: int := 1000

  datatype Dim = TradeDim | PositionDim | BalanceDim

  /** metrics.{account}.last_activity and freshness.{account}.{dim} */
  datatype StampKey = LastActivity(account: string) | Freshness(account: string, dim: Dim)

  /** position.{account}.{symbol} and balance.{account}.{asset} */
  datatype HashKey = PositionKey(account: string, symbol: string) | BalanceKey(account: string, asset: string)

  /** A hash, in the groups its field names are always written in: those only the metrics handlers
      write (exchange_id, symbol or asset, snapshot_time, source), those the ingestor's reconciler
      writes too (the amounts), and the reconciler's own updated_at. */
  datatype Fields = Fields(identity: Option<seq<string>>, amounts: Option<seq<string>>, updatedAt: Option<string>)

  const NO_FIELDS: Fields := Fields(None, None, None)

  function Over<T>(x: Option<T>, y: Option<T>): Option<T> {
    if y.Some? then y else x
  }

  /** HSET of y: the fields given replace theirs in x, the others stay. */
  function Overlay(x: Fields, y: Fields): Fields {
    Fields(Over(x.identity, y.identity), Over(x.amounts, y.amounts), Over(x.updatedAt, y.updatedAt))
  }

  /** When a key goes away; a key written without a lifetime stays. */
  datatype Expiry = Never | At(time: int)

  datatype Expiring<T> = Expiring(value: T, expiry: Expiry)

  type Window = map<string, int>   // sorted set: trade ID -> trade time

  /** What the server holds. */
  datatype Store = Store(
    windows: map<string, Window>,
    symbols: map<string, Expiring<set<string>>>,
    hashes: map<HashKey, Expiring<Fields>>,
    stamps: map<StampKey, Expiring<int>>)

  /** One write command. SADD and HSET keep the lifetime of a key that is there and create one
      without a lifetime otherwise; EXPIRE does nothing to a key that is gone. */
  datatype Write =
    | ZAdd(account: string, id: string, score: int)
    | Trim(account: string, cutoff: int)
    | SAdd(account: string, symbol: string, at: int)
    | ExpireSymbols(account: string, at: int, ttl: int)
    | HSet(hash: HashKey, fields: Fields, at: int)
    | ExpireHash(hash: HashKey, at: int, ttl: int)
    | SetStamp(stamp: StampKey, seconds: int, expiresAt: int)

  function WindowOf(st: Store, account: string): Window {
    if account in st.windows then st.windows[account] else map[]
  }

  predicate Live<T>(e: Expiring<T>, now: int) {
    e.expiry.Never? || now < e.expiry.time
  }

  /** Writing a value over what is stored, at a clock: a live key keeps its lifetime. */
  function Put<K, T>(m: map<K, Expiring<T>>, k: K, v: T, now: int): map<K, Expiring<T>> {
    m[k := Expiring(v, if k in m && Live(m[k], now) then m[k].expiry else Never)]
  }

  function Expire<K, T>(m: map<K, Expiring<T>>, k: K, now: int, ttl: int): map<K, Expiring<T>> {
    if k in m && Live(m[k], now) then m[k := m[k].(expiry := At(now + ttl))] else m
  }

  /** The members of a sorted set with a score above the cutoff. */
  function Keep(w: Window, cutoff: int): Window {
    map id | id in w && w[id] > cutoff :: w[id]
  }

  function LiveSymbols(st: Store, account: string, now: int): set<string> {
    if account in st.symbols && Live(st.symbols[account], now) then st.symbols[account].value else {}
  }

  function LiveFields(st: Store, key: HashKey, now: int): Fields {
    if key in st.hashes && Live(st.hashes[key], now) then st.hashes[key].value else NO_FIELDS
  }

  function Apply(st: Store, w: Write): Store {
    match w
    case ZAdd(a, id, score) => st.(windows := st.windows[a := WindowOf(st, a)[id := score]])
    case Trim(a, cutoff) => st.(windows := st.windows[a := Keep(WindowOf(st, a), cutoff)])
    case SAdd(a, sym, now) => st.(symbols := Put(st.symbols, a, LiveSymbols(st, a, now) + {sym}, now))
    case ExpireSymbols(a, now, ttl) => st.(symbols := Expire(st.symbols, a, now, ttl))
    case HSet(k, fields, now) => st.(hashes := Put(st.hashes, k, Overlay(LiveFields(st, k, now), fields), now))
    case ExpireHash(k, now, ttl) => st.(hashes := Expire(st.hashes, k, now, ttl))
    case SetStamp(k, seconds, expiresAt) => st.(stamps := st.stamps[k := Expiring(seconds, At(expiresAt))])
  }

  function ApplyAll(st: Store, ws: seq<Write>): Store
    decreases |ws|
  {
    if ws == [] then st else ApplyAll(Apply(st, ws[0]), ws[1..])
  }

  /** How a request ends for the caller: acknowledged, applied but the reply was lost, never
      applied, or, for a pipeline of two commands, cut after the first. All but the first are errors. */
  datatype Reply = Done | LostReply | NotApplied | HalfApplied

  /** The connection to the server. */
  class Redis {
    var st: Store

    constructor ()
      ensures st == Store(map[], map[], map[], map[])
    {
      st := Store(map[], map[], map[], map[]);
    }

    method Request(w: Write, reply: Reply) returns (ok: bool)
      modifies this
      ensures ok == reply.Done?
      ensures st == if reply.NotApplied? then old(st) else Apply(old(st), w)
    {
      if !reply.NotApplied? {
        st := Apply(st, w);
      }
      ok := reply.Done?;
    }

    /** Two commands sent together, but not as one transaction. */
    method Pipeline(first: Write, second: Write, reply: Reply) returns (ok: bool)
      modifies this
      ensures ok == reply.Done?
      ensures st == if reply.NotApplied? then old(st)
                    else if reply.HalfApplied? then Apply(old(st), first)
                    else Apply(Apply(old(st), first), second)
    {
      if !reply.NotApplied? {
        st := Apply(st, first);
        if !reply.HalfApplied? {
          st := Apply(st, second);
        }
      }
      ok := reply.Done?;
    }

    method AddTradedSymbol(account: string, symbol: string, now: int, ttl: int, reply: Reply) returns (ok: bool)
      modifies this
      ensures ok == reply.Done?
      ensures st == if reply.NotApplied? then old(st)
                    else if reply.HalfApplied? then Apply(old(st), SAdd(account, symbol, now))
                    else Apply(Apply(old(st), SAdd(account, symbol, now)), ExpireSymbols(account, now, ttl))
    {
      ok := Pipeline(SAdd(account, symbol, now), ExpireSymbols(account, now, ttl), reply);
    }

    /** SetPosition and SetBalance. */
    method SetHash(key: HashKey, fields: Fields, now: int, ttl: int, reply: Reply) returns (ok: bool)
      modifies this
      ensures ok == reply.Done?
      ensures st == if reply.NotApplied? then old(st)
                    else if reply.HalfApplied? then Apply(old(st), HSet(key, fields, now))
                    else Apply(Apply(old(st), HSet(key, fields, now)), ExpireHash(key, now, ttl))
    {
      ok := Pipeline(HSet(key, fields, now), ExpireHash(key, now, ttl), reply);
    }

    method AddTradeToWindow(account: string, id: string, timestamp: int, reply: Reply) returns (ok: bool)
      modifies this
      ensures ok == reply.Done?
      ensures st == if reply.NotApplied? then old(st) else Apply(old(st), ZAdd(account, id, timestamp))
    {
      ok := Request(ZAdd(account, id, timestamp), reply);
    }

    /** Removes every member whose score is at most minTimestamp. */
    method TrimTradeWindow(account: string, minTimestamp: int, reply: Reply) returns (ok: bool)
      modifies this
      ensures ok == reply.Done?
      ensures st == if reply.NotApplied? then old(st) else Apply(old(st), Trim(account, minTimestamp))
    {
      ok := Request(Trim(account, minTimestamp), reply);
    }

    method GetTradeWindowCount(account: string) returns (n: nat)
      ensures n == |WindowOf(st, account)|
    {
      n := |WindowOf(st, account)|;
    }

    /** Stores whole seconds; the key lives for 24 hours from the write. */
    method SetLastActivity(account: string, t: int, now: int, reply: Reply) returns (ok: bool)
      modifies this
      ensures ok == reply.Done?
      ensures st == if reply.NotApplied? then old(st)
                    else Apply(old(st), SetStamp(LastActivity(account), t / SECOND_MS, now + DAY_MS))
    {
      ok := Request(SetStamp(LastActivity(account), t / SECOND_MS, now + DAY_MS), reply);
    }

    /** The stored second as a time, or None when the key is absent or expired. */
    method GetLastActivity(account: string, now: int) returns (r: Option<int>)
      ensures r == ReadStamp(st, LastActivity(account), now)
    {
      r := ReadStamp(st, LastActivity(account), now);
    }
  }

  function ReadStamp(st: Store, key: StampKey, now: int): Option<int> {
    if key in st.stamps && Live(st.stamps[key], now) then Some(st.stamps[key].value * SECOND_MS) else None
  }
}
