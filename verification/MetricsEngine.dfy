/** The metrics engine's message handlers: each is an ordered sequence of Redis writes that
    stops at the first error, and must survive being delivered again. */
module MetricsEngine {
  import opened Prelude
  import opened RedisStore

  const HASH_TTL_MS: int := 2 * 60 * 60 * 1000

  datatype Message =
    | Trade(account: string, symbol: string, id: string, time: int)
    | Position(account: string, symbol: string, identity: seq<string>, amounts: seq<string>, time: int)
    | Balance(account: string, asset: string, identity: seq<string>, amounts: seq<string>, time: int)

  function DimOf(m: Message): Dim {
    match m
    case Trade(_, _, _, _) => TradeDim
    case Position(_, _, _, _, _) => PositionDim
    case Balance(_, _, _, _, _) => BalanceDim
  }

  function HashOf(m: Message): HashKey
    requires !m.Trade?
  {
    if m.Position? then PositionKey(m.account, m.symbol) else BalanceKey(m.account, m.asset)
  }

  /** The fields a snapshot's handler writes. */
  function FieldsOf(m: Message): Fields
    requires !m.Trade?
  {
    Fields(Some(m.identity), Some(m.amounts), None)
  }

  /** The commands of one message handled at clock `now`, in order. */
  function Writes(m: Message, now: int, window: int): (ws: seq<Write>)
    ensures |ws| == if m.Trade? then 6 else 4
  {
    var last := SetStamp(LastActivity(m.account), m.time / SECOND_MS, now + DAY_MS);
    var seen := SetStamp(Freshness(m.account, DimOf(m)), m.time / SECOND_MS, now + DAY_MS);
    if m.Trade? then
      [ZAdd(m.account, m.id, m.time), Trim(m.account, now - window),
       SAdd(m.account, m.symbol, now), ExpireSymbols(m.account, now, window), last, seen]
    else
      [HSet(HashOf(m), FieldsOf(m), now), ExpireHash(HashOf(m), now, HASH_TTL_MS), last, seen]
  }

  /** How many commands each of a message's requests sends; pipelines send two. */
  function Sizes(m: Message): (sizes: seq<nat>)
    ensures |sizes| == if m.Trade? then 5 else 3
  {
    if m.Trade? then [1, 1, 2, 1, 1] else [2, 1, 1]
  }

  /** How many commands of one request reach the server. */
  function Reaching(reply: Reply, size: nat): (k: nat)
    ensures k <= size
  {
    if reply.NotApplied? || size == 0 then 0 else if reply.HalfApplied? then 1 else size
  }

  /** How many commands are applied when the requests are answered by `net`, one after the other up
      to the first error. */
  function Applied(net: seq<Reply>, sizes: seq<nat>): nat
    requires |net| == |sizes|
  {
    if net == [] then 0
    else if net[0].Done? then sizes[0] + Applied(net[1..], sizes[1..])
    else Reaching(net[0], sizes[0])
  }

  /** How many commands of a message are applied. */
  function Delivered(m: Message, net: seq<Reply>): (k: nat)
    requires |net| == |Sizes(m)|
    ensures k <= |Writes(m, 0, 0)|
  {
    AppliedIsDelivered(net, m);
    Applied(net, Sizes(m))
  }

  predicate AllDone(net: seq<Reply>) {
    forall i | 0 <= i < |net| :: net[i].Done?
  }

  class Engine {
    const redis: Redis
    const metricsWindow: int

    constructor (redis: Redis, metricsWindow: int)
      ensures this.redis == redis && this.metricsWindow == metricsWindow
    {
      this.redis, this.metricsWindow := redis, metricsWindow;
    }

    /** Applies a prefix of the trade's commands, all of them when it reports success. */
    method HandleTradeEvent(trade: Message, now: int, net: seq<Reply>) returns (ok: bool)
      requires trade.Trade? && |net| == 5
      modifies redis
      ensures ok == AllDone(net)
      ensures redis.st == ApplyAll(old(redis.st), Writes(trade, now, metricsWindow)[..Delivered(trade, net)])
    {
      ghost var st0 := redis.st;
      AppliedToTrade(net, trade);
      TradePrefixes(st0, trade, now, metricsWindow);
      ok := redis.AddTradeToWindow(trade.account, trade.id, trade.time, net[0]);
      if !ok { return; }
      ok := redis.TrimTradeWindow(trade.account, now - metricsWindow, net[1]);
      if !ok { return; }
      ok := redis.AddTradedSymbol(trade.account, trade.symbol, now, metricsWindow, net[2]);
      if !ok { return; }
      ok := redis.SetLastActivity(trade.account, trade.time, now, net[3]);
      if !ok { return; }
      ok := SetFreshness(trade.account, TradeDim, trade.time, now, net[4]);
    }

    /** handlePositionSnapshot and handleBalanceSnapshot. */
    method HandleSnapshot(snap: Message, now: int, net: seq<Reply>) returns (ok: bool)
      requires !snap.Trade? && |net| == 3
      modifies redis
      ensures ok == AllDone(net)
      ensures redis.st == ApplyAll(old(redis.st), Writes(snap, now, metricsWindow)[..Delivered(snap, net)])
    {
      ghost var st0 := redis.st;
      AppliedToSnapshot(net, snap);
      SnapshotPrefixes(st0, snap, now, metricsWindow);
      ok := redis.SetHash(HashOf(snap), FieldsOf(snap), now, HASH_TTL_MS, net[0]);
      if !ok { return; }
      ok := redis.SetLastActivity(snap.account, snap.time, now, net[1]);
      if !ok { return; }
      ok := SetFreshness(snap.account, DimOf(snap), snap.time, now, net[2]);
    }

    method SetFreshness(account: string, dim: Dim, t: int, now: int, reply: Reply) returns (ok: bool)
      modifies redis
      ensures ok == reply.Done?
      ensures redis.st == if reply.NotApplied? then old(redis.st)
                          else Apply(old(redis.st), SetStamp(Freshness(account, dim), t / SECOND_MS, now + DAY_MS))
    {
      ok := redis.Request(SetStamp(Freshness(account, dim), t / SECOND_MS, now + DAY_MS), reply);
    }
  }

  lemma AppliedFrom(net: seq<Reply>, sizes: seq<nat>, i: nat)
    requires i < |net| == |sizes|
    ensures Applied(net[i..], sizes[i..])
            == if net[i].Done? then sizes[i] + Applied(net[i + 1..], sizes[i + 1..]) else Reaching(net[i], sizes[i])
  {
    assert net[i..][1..] == net[i + 1..] && sizes[i..][1..] == sizes[i + 1..];
  }

  lemma AppliedToTrade(net: seq<Reply>, trade: Message)
    requires trade.Trade? && |net| == 5
    ensures Applied(net, Sizes(trade))
            == if !net[0].Done? then Reaching(net[0], 1)
               else if !net[1].Done? then 1 + Reaching(net[1], 1)
               else if !net[2].Done? then 2 + Reaching(net[2], 2)
               else if !net[3].Done? then 4 + Reaching(net[3], 1)
               else if !net[4].Done? then 5 + Reaching(net[4], 1)
               else 6
  {
    var sizes := Sizes(trade);
    AppliedFrom(net, sizes, 0);
    AppliedFrom(net, sizes, 1);
    AppliedFrom(net, sizes, 2);
    AppliedFrom(net, sizes, 3);
    AppliedFrom(net, sizes, 4);
    assert net[0..] == net && sizes[0..] == sizes;
  }

  lemma AppliedToSnapshot(net: seq<Reply>, snap: Message)
    requires !snap.Trade? && |net| == 3
    ensures Applied(net, Sizes(snap))
            == if !net[0].Done? then Reaching(net[0], 2)
               else if !net[1].Done? then 2 + Reaching(net[1], 1)
               else if !net[2].Done? then 3 + Reaching(net[2], 1)
               else 4
  {
    var sizes := Sizes(snap);
    AppliedFrom(net, sizes, 0);
    AppliedFrom(net, sizes, 1);
    AppliedFrom(net, sizes, 2);
    assert net[0..] == net && sizes[0..] == sizes;
  }

  lemma {:induction false} ApplySnoc(st: Store, ws: seq<Write>, w: Write)
    ensures ApplyAll(st, ws + [w]) == Apply(ApplyAll(st, ws), w)
    decreases |ws|
  {
    if ws == [] {
      assert ([] + [w])[1..] == [];
    } else {
      assert (ws + [w])[1..] == ws[1..] + [w];
      ApplySnoc(Apply(st, ws[0]), ws[1..], w);
    }
  }

  lemma ApplyPrefixes(st: Store, ws: seq<Write>)
    ensures ApplyAll(st, ws[..0]) == st
    ensures forall i | 0 <= i < |ws| :: ApplyAll(st, ws[..i + 1]) == Apply(ApplyAll(st, ws[..i]), ws[i])
  {
    forall i | 0 <= i < |ws|
      ensures ApplyAll(st, ws[..i + 1]) == Apply(ApplyAll(st, ws[..i]), ws[i])
    {
      ApplySnoc(st, ws[..i], ws[i]);
      assert ws[..i + 1] == ws[..i] + [ws[i]];
    }
  }

  lemma AppliedIsDelivered(net: seq<Reply>, m: Message)
    requires |net| == |Sizes(m)|
    ensures Applied(net, Sizes(m)) <= |Writes(m, 0, 0)|
  {
    if m.Trade? {
      AppliedToTrade(net, m);
    } else {
      AppliedToSnapshot(net, m);
    }
  }

  lemma TradePrefixes(st: Store, m: Message, now: int, window: int)
    requires m.Trade?
    ensures var ws := Writes(m, now, window);
            && ApplyAll(st, ws[..0]) == st
            && ApplyAll(st, ws[..1]) == Apply(st, ZAdd(m.account, m.id, m.time))
            && ApplyAll(st, ws[..2]) == Apply(ApplyAll(st, ws[..1]), Trim(m.account, now - window))
            && ApplyAll(st, ws[..3]) == Apply(ApplyAll(st, ws[..2]), SAdd(m.account, m.symbol, now))
            && ApplyAll(st, ws[..4]) == Apply(ApplyAll(st, ws[..3]), ExpireSymbols(m.account, now, window))
            && ApplyAll(st, ws[..5])
               == Apply(ApplyAll(st, ws[..4]), SetStamp(LastActivity(m.account), m.time / SECOND_MS, now + DAY_MS))
            && ApplyAll(st, ws[..6])
               == Apply(ApplyAll(st, ws[..5]),
                        SetStamp(Freshness(m.account, TradeDim), m.time / SECOND_MS, now + DAY_MS))
  {
    ApplyPrefixes(st, Writes(m, now, window));
  }

  lemma SnapshotPrefixes(st: Store, m: Message, now: int, window: int)
    requires !m.Trade?
    ensures var ws := Writes(m, now, window);
            && ApplyAll(st, ws[..0]) == st
            && ApplyAll(st, ws[..1]) == Apply(st, HSet(HashOf(m), FieldsOf(m), now))
            && ApplyAll(st, ws[..2]) == Apply(ApplyAll(st, ws[..1]), ExpireHash(HashOf(m), now, HASH_TTL_MS))
            && ApplyAll(st, ws[..3])
               == Apply(ApplyAll(st, ws[..2]), SetStamp(LastActivity(m.account), m.time / SECOND_MS, now + DAY_MS))
            && ApplyAll(st, ws[..4])
               == Apply(ApplyAll(st, ws[..3]),
                        SetStamp(Freshness(m.account, DimOf(m)), m.time / SECOND_MS, now + DAY_MS))
  {
    ApplyPrefixes(st, Writes(m, now, window));
  }
}
