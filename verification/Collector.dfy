/** The collector's price history: appended to by every account's collection round, under one
    mutex but with each account's own clock reading, and trimmed to two hours as it grows. */
module Collector {
  import opened Prelude
  import opened SentinelTypes

  const RETENTION_MS: int := 2 * HOUR_MS

  /** The largest time in a log. */
  function MaxTime(log: seq<PricePoint>): (m: int)
    requires log != []
    ensures exists i :: 0 <= i < |log| && log[i].time == m
    ensures forall i | 0 <= i < |log| :: log[i].time <= m
  {
    var n := |log| - 1;
    if n == 0 then log[0].time
    else
      var m := MaxTime(log[..n]);
      if m < log[n].time then log[n].time else m
  }

  /** `h` is a suffix of everything recorded, and what was dropped is old. */
  ghost predicate Refines(h: seq<PricePoint>, log: seq<PricePoint>) {
    && 0 < |h| <= |log|
    && h == log[|log| - |h|..]
    && (forall i | 0 <= i < |log| - |h| :: log[i].time < MaxTime(log) - RETENTION_MS)
    && (forall i | 0 <= i < |log| :: log[i].price > 0.0)
  }

  function HistoryOf(m: map<string, seq<PricePoint>>, symbol: string): seq<PricePoint> {
    if symbol in m then m[symbol] else []
  }

  /** The symbols a round takes from the premium index: the target, if it has a positive price. */
  function FromPremium(target: string, premium: Option<real>): set<string> {
    if target != "" && premium.Some? && premium.value > 0.0 then {target} else {}
  }

  function PremiumSamples(target: string, premium: Option<real>, now: int, symbol: string): seq<PricePoint> {
    if symbol in FromPremium(target, premium) then [PricePoint(premium.value, now)] else []
  }

  /** The samples one collection round records for a symbol, in order. */
  function Samples(target: string, premium: Option<real>, positions: seq<Position>, now: int, symbol: string)
    : (pts: seq<PricePoint>)
    ensures forall i | 0 <= i < |pts| :: pts[i].price > 0.0 && pts[i].time == now
  {
    PremiumSamples(target, premium, now, symbol)
    + PositionSamples(positions, now, symbol, symbol in FromPremium(target, premium))
  }

  function PositionSamples(positions: seq<Position>, now: int, symbol: string, recorded: bool): (pts: seq<PricePoint>)
    ensures forall i | 0 <= i < |pts| :: pts[i].price > 0.0 && pts[i].time == now
  {
    if positions == [] then []
    else
      var n := |positions| - 1;
      PositionSamples(positions[..n], now, symbol, recorded)
      + if positions[n].symbol == symbol && positions[n].markPrice > 0.0 && !recorded
        then [PricePoint(positions[n].markPrice, now)] else []
  }

  /** A history without the samples before its first one of the last two hours. */
  function Trimmed(h: seq<PricePoint>, now: int): seq<PricePoint> {
    h[FirstInWindow(h, now - RETENTION_MS)..]
  }

  type Histories = map<string, seq<PricePoint>>

  /** Every symbol's history refines everything recorded for it. */
  ghost predicate AllRefine(history: Histories, log: Histories) {
    history.Keys == log.Keys && forall s | s in log :: Refines(history[s], log[s])
  }

  lemma UpdateRefines(history: Histories, log: Histories, symbol: string, h: seq<PricePoint>, full: seq<PricePoint>)
    requires AllRefine(history, log) && Refines(h, full)
    ensures AllRefine(history[symbol := h], log[symbol := full])
  {
  }

  /** The log grew, for every symbol, by the samples of these positions. */
  ghost predicate Grown(before: Histories, log: Histories, positions: seq<Position>, now: int, recorded: set<string>) {
    forall s :: HistoryOf(log, s) == HistoryOf(before, s) + PositionSamples(positions, now, s, s in recorded)
  }

  lemma GrownStepAt(before: Histories, was: Histories, log: Histories, positions: seq<Position>, i: nat, now: int,
                    recorded: set<string>, s: string)
    requires i < |positions|
    requires HistoryOf(was, s) == HistoryOf(before, s) + PositionSamples(positions[..i], now, s, s in recorded)
    requires var p := positions[i];
             log == if p.markPrice > 0.0 && p.symbol !in recorded
                    then was[p.symbol := HistoryOf(was, p.symbol) + [PricePoint(p.markPrice, now)]] else was
    ensures HistoryOf(log, s) == HistoryOf(before, s) + PositionSamples(positions[..i + 1], now, s, s in recorded)
  {
    assert positions[..i + 1][..i] == positions[..i];
    var p := positions[i];
    if p.markPrice > 0.0 && p.symbol !in recorded && p.symbol == s {
      assert HistoryOf(log, s) == HistoryOf(was, s) + [PricePoint(p.markPrice, now)];
    } else {
      assert HistoryOf(log, s) == HistoryOf(was, s);
    }
  }

  lemma GrownStep(before: Histories, was: Histories, log: Histories, positions: seq<Position>, i: nat, now: int,
                  recorded: set<string>)
    requires i < |positions| && Grown(before, was, positions[..i], now, recorded)
    requires var p := positions[i];
             log == if p.markPrice > 0.0 && p.symbol !in recorded
                    then was[p.symbol := HistoryOf(was, p.symbol) + [PricePoint(p.markPrice, now)]] else was
    ensures Grown(before, log, positions[..i + 1], now, recorded)
  {
    forall s
      ensures HistoryOf(log, s) == HistoryOf(before, s) + PositionSamples(positions[..i + 1], now, s, s in recorded)
    {
      GrownStepAt(before, was, log, positions, i, now, recorded, s);
    }
  }

  /** The log grew, for every symbol, by the samples of one round. */
  ghost predicate GrownByRound(start: Histories, log: Histories, target: string, premium: Option<real>,
                               positions: seq<Position>, now: int) {
    forall s :: HistoryOf(log, s) == HistoryOf(start, s) + Samples(target, premium, positions, now, s)
  }

  lemma PremiumGrowth(start: Histories, target: string, premium: Option<real>, now: int, s: string)
    ensures HistoryOf(AfterPremium(start, target, premium, now), s)
            == HistoryOf(start, s) + PremiumSamples(target, premium, now, s)
  {
  }

  function AfterPremium(start: Histories, target: string, premium: Option<real>, now: int): Histories {
    if FromPremium(target, premium) == {} then start
    else start[target := HistoryOf(start, target) + [PricePoint(premium.value, now)]]
  }

  lemma RoundGrowth(start: Histories, log: Histories, target: string, premium: Option<real>, positions: seq<Position>,
                    now: int)
    requires Grown(AfterPremium(start, target, premium, now), log, positions, now, FromPremium(target, premium))
    ensures GrownByRound(start, log, target, premium, positions, now)
  {
    var mid := AfterPremium(start, target, premium, now);
    var recorded := FromPremium(target, premium);
    forall s
      ensures HistoryOf(log, s) == HistoryOf(start, s) + Samples(target, premium, positions, now, s)
    {
      PremiumGrowth(start, target, premium, now, s);
      var pre, post := PremiumSamples(target, premium, now, s), PositionSamples(positions, now, s, s in recorded);
      assert HistoryOf(log, s) == HistoryOf(mid, s) + post;
      Associates(HistoryOf(start, s), pre, post);
    }
  }

  lemma Associates<T>(a: seq<T>, b: seq<T>, c: seq<T>)
    ensures a + b + c == a + (b + c)
  {
  }

  class PriceCollector {
    var priceHistory: Histories
    ghost var log: Histories     // everything ever recorded, untrimmed

    ghost predicate Valid()
      reads this
    {
      AllRefine(priceHistory, log)
    }

    constructor ()
      ensures Valid() && log == map[]
    {
      priceHistory, log := map[], map[];
    }

    /** Appends one sample and trims the front; every other symbol's history is untouched. */
    method RecordPrice(symbol: string, price: real, now: int)
      requires Valid() && price > 0.0
      modifies this
      ensures Valid()
      ensures log == old(log)[symbol := HistoryOf(old(log), symbol) + [PricePoint(price, now)]]
      ensures var appended := HistoryOf(old(priceHistory), symbol) + [PricePoint(price, now)];
              priceHistory == old(priceHistory)[symbol := Trimmed(appended, now)]
    {
      RecordKeepsRefinement(priceHistory, log, symbol, PricePoint(price, now));
      var history := HistoryOf(priceHistory, symbol) + [PricePoint(price, now)];
      var start := FirstRecent(history, now - RETENTION_MS);
      priceHistory := priceHistory[symbol := history[start..]];
      log := log[symbol := HistoryOf(log, symbol) + [PricePoint(price, now)]];
    }

    /** The trimming loop. */
    method FirstRecent(history: seq<PricePoint>, cutoff: int) returns (start: nat)
      ensures start == FirstInWindow(history, cutoff)
    {
      start := 0;
      while start < |history| && history[start].time < cutoff
        invariant 0 <= start <= |history|
        invariant forall i | 0 <= i < start :: history[i].time < cutoff
      {
        start := start + 1;
      }
      FirstIsUnique(history, cutoff, start);
    }

    /** Samples every position that carries a mark price and is not already recorded. */
    method RecordPositions(positions: seq<Position>, now: int, recorded: set<string>)
      requires Valid()
      modifies this
      ensures Valid() && Grown(old(log), log, positions, now, recorded)
    {
      ghost var before := log;
      for i := 0 to |positions|
        invariant Valid() && Grown(before, log, positions[..i], now, recorded)
      {
        var p := positions[i];
        ghost var was := log;
        if p.markPrice > 0.0 && p.symbol !in recorded {
          RecordPrice(p.symbol, p.markPrice, now);
        }
        GrownStep(before, was, log, positions, i, now, recorded);
      }
      assert positions[..|positions|] == positions;
    }

    /** The price part of collectOne: the premium index wins for the account's target symbol, every
        other symbol is sampled from the positions that carry a mark price. */
    method CollectPrices(accountSymbol: string, defaultSymbol: string, premiumOf: map<string, real>,
                         positions: seq<Position>, now: int)
      returns (snapshot: Histories)
      requires Valid()
      modifies this
      ensures Valid() && snapshot == priceHistory
      ensures var target := if accountSymbol == "" then defaultSymbol else accountSymbol;
              var premium := if target in premiumOf then Some(premiumOf[target]) else None;
              GrownByRound(old(log), log, target, premium, positions, now)
    {
      var target := if accountSymbol == "" then defaultSymbol else accountSymbol;
      var premium := if target in premiumOf then Some(premiumOf[target]) else None;
      var recorded := FromPremium(target, premium);
      if recorded != {} {
        RecordPrice(target, premium.value, now);
      }
      RecordPositions(positions, now, recorded);
      RoundGrowth(old(log), log, target, premium, positions, now);
      snapshot := priceHistory;
    }
  }

  lemma MaxTimeSnoc(log: seq<PricePoint>, p: PricePoint)
    ensures MaxTime(log + [p]) >= p.time
    ensures log != [] ==> MaxTime(log + [p]) >= MaxTime(log)
  {
    var all := log + [p];
    assert all[|log|] == p;
    if log != [] {
      var i :| 0 <= i < |log| && log[i].time == MaxTime(log);
      assert all[i] == log[i];
    }
  }

  lemma SuffixGrows(h: seq<PricePoint>, log: seq<PricePoint>, p: PricePoint)
    requires |h| <= |log| && h == log[|log| - |h|..]
    ensures h + [p] == (log + [p])[|log + [p]| - |h + [p]|..]
  {
  }

  lemma AppendRefines(h: seq<PricePoint>, log: seq<PricePoint>, p: PricePoint)
    requires ((h == [] && log == []) || Refines(h, log)) && p.price > 0.0
    ensures Refines(h + [p], log + [p])
  {
    MaxTimeSnoc(log, p);
    if h != [] {
      SuffixGrows(h, log, p);
      forall i | 0 <= i < |log| - |h|
        ensures (log + [p])[i].time < MaxTime(log + [p]) - RETENTION_MS
      {
        assert (log + [p])[i] == log[i];
      }
    }
  }

  lemma DropOldRefines(h: seq<PricePoint>, log: seq<PricePoint>, n: nat)
    requires Refines(h, log) && n < |h|
    requires forall i | 0 <= i < n :: h[i].time < MaxTime(log) - RETENTION_MS
    ensures Refines(h[n..], log)
  {
    var d := |log| - |h|;
    assert h[n..] == log[d + n..];
    forall i | 0 <= i < d + n
      ensures log[i].time < MaxTime(log) - RETENTION_MS
    {
      assert i >= d ==> log[i] == h[i - d];
    }
  }

  lemma TrimRefines(h: seq<PricePoint>, log: seq<PricePoint>, now: int)
    requires Refines(h, log) && h[|h| - 1].time == now <= MaxTime(log)
    ensures Refines(Trimmed(h, now), log)
  {
    DropOldRefines(h, log, FirstInWindow(h, now - RETENTION_MS));
  }

  /** Trimming keeps the refinement, whatever order the clock readings arrive in. */
  lemma TrimmedStillRefines(h: seq<PricePoint>, log: seq<PricePoint>, p: PricePoint)
    requires ((h == [] && log == []) || Refines(h, log)) && p.price > 0.0
    ensures Refines(Trimmed(h + [p], p.time), log + [p])
  {
    AppendRefines(h, log, p);
    MaxTimeSnoc(log, p);
    assert (h + [p])[|h|] == p;
    TrimRefines(h + [p], log + [p], p.time);
  }

  lemma RecordKeepsRefinement(history: Histories, log: Histories, symbol: string, p: PricePoint)
    requires AllRefine(history, log) && p.price > 0.0
    ensures AllRefine(history[symbol := Trimmed(HistoryOf(history, symbol) + [p], p.time)],
                      log[symbol := HistoryOf(log, symbol) + [p]])
  {
    TrimmedStillRefines(HistoryOf(history, symbol), HistoryOf(log, symbol), p);
    UpdateRefines(history, log, symbol, Trimmed(HistoryOf(history, symbol) + [p], p.time),
                  HistoryOf(log, symbol) + [p]);
  }

  /** And it does trim: what is left begins within two hours of the sample just recorded, and ends with
      it. */
  lemma TrimmedIsRecent(h: seq<PricePoint>, p: PricePoint)
    ensures var t := Trimmed(h + [p], p.time);
            t != [] && t[0].time >= p.time - 2 * 60 * 60 * 1000 && t[|t| - 1] == p
  {
    assert (h + [p])[|h|] == p;
  }

  // ---------------------------------------------------------------- what a round samples

  /** The positions `at` lists, in order, are all those that carry a mark price for the symbol. */
  ghost predicate Marked(positions: seq<Position>, symbol: string, at: seq<nat>) {
    && (forall i, j | 0 <= i < j < |at| :: at[i] < at[j])
    && (forall i | 0 <= i < |at| :: at[i] < |positions|)
    && (forall k: nat | k < |positions| :: k in at <==> positions[k].symbol == symbol && positions[k].markPrice > 0.0)
  }

  lemma MarkedSnoc(positions: seq<Position>, p: Position, symbol: string, at: seq<nat>)
    requires Marked(positions, symbol, at)
    ensures Marked(positions + [p], symbol,
                   if p.symbol == symbol && p.markPrice > 0.0 then at + [|positions|] else at)
  {
    var all := positions + [p];
    var at' := if p.symbol == symbol && p.markPrice > 0.0 then at + [|positions|] else at;
    forall k: nat | k < |all|
      ensures k in at' <==> all[k].symbol == symbol && all[k].markPrice > 0.0
    {
      if k < |positions| {
        assert all[k] == positions[k];
      }
    }
  }

  /** The samples are those positions' mark prices. */
  ghost predicate SampledAt(positions: seq<Position>, now: int, pts: seq<PricePoint>, at: seq<nat>) {
    && |pts| == |at|
    && forall i | 0 <= i < |at| :: at[i] < |positions| && pts[i] == PricePoint(positions[at[i]].markPrice, now)
  }

  lemma SampledLater(positions: seq<Position>, p: Position, now: int, pts: seq<PricePoint>, at: seq<nat>)
    requires SampledAt(positions, now, pts, at)
    ensures SampledAt(positions + [p], now, pts, at)
    ensures SampledAt(positions + [p], now, pts + [PricePoint(p.markPrice, now)], at + [|positions|])
  {
  }

  lemma {:induction false} PositionSamplesAre(positions: seq<Position>, now: int, symbol: string) returns (at: seq<nat>)
    ensures Marked(positions, symbol, at)
    ensures SampledAt(positions, now, PositionSamples(positions, now, symbol, false), at)
  {
    if positions == [] {
      at := [];
    } else {
      var n := |positions| - 1;
      assert positions == positions[..n] + [positions[n]];
      at := PositionSamplesAre(positions[..n], now, symbol);
      var front := PositionSamples(positions[..n], now, symbol, false);
      MarkedSnoc(positions[..n], positions[n], symbol, at);
      SampledLater(positions[..n], positions[n], now, front, at);
      if positions[n].symbol == symbol && positions[n].markPrice > 0.0 {
        at := at + [n];
      } else {
        assert front + [] == front;
      }
    }
  }

  lemma {:induction false} RecordedIsSkipped(positions: seq<Position>, now: int, symbol: string)
    ensures PositionSamples(positions, now, symbol, true) == []
  {
    if positions != [] {
      RecordedIsSkipped(positions[..|positions| - 1], now, symbol);
    }
  }

  /** What a round records: for the target with a positive premium price that price alone, and for any
      other symbol the mark price of each of its positions that has one, in order. */
  lemma SamplesAre(target: string, premium: Option<real>, positions: seq<Position>, now: int, symbol: string)
      returns (at: seq<nat>)
    ensures var pts := Samples(target, premium, positions, now, symbol);
            if symbol == target && target != "" && premium.Some? && premium.value > 0.0 then
              pts == [PricePoint(premium.value, now)]
            else
              Marked(positions, symbol, at) && SampledAt(positions, now, pts, at)
  {
    at := PositionSamplesAre(positions, now, symbol);
    RecordedIsSkipped(positions, now, symbol);
    assert [] + PositionSamples(positions, now, symbol, false) == PositionSamples(positions, now, symbol, false);
  }

  // ---------------------------------------------------------------- M-001 on the trimmed history

  /** The first sample not before the window start, or the length when there is none. */
  function FirstInWindow(h: seq<PricePoint>, windowStart: int): (k: nat)
    ensures k <= |h|
    ensures forall i | 0 <= i < k :: h[i].time < windowStart
    ensures k < |h| ==> h[k].time >= windowStart
  {
    if h == [] || h[0].time >= windowStart then 0 else 1 + FirstInWindow(h[1..], windowStart)
  }

  /** M-001's start price: the first sample in the window, else the latest sample. */
  function StartPrice(h: seq<PricePoint>, windowStart: int): real
    requires h != []
  {
    var k := FirstInWindow(h, windowStart);
    if k < |h| && h[k].price > 0.0 then h[k].price else h[|h| - 1].price
  }

  function CurrentPrice(h: seq<PricePoint>, quoted: real): real
    requires h != []
  {
    if quoted <= 0.0 then h[|h| - 1].price else quoted
  }

  /** The relative distance of two prices. */
  function Ratio(current: real, start: real): real
    requires start != 0.0
  {
    AbsReal(current - start) / start
  }

  lemma FirstIsUnique(h: seq<PricePoint>, windowStart: int, k: nat)
    requires k <= |h| && (forall i | 0 <= i < k :: h[i].time < windowStart) && (k < |h| ==> h[k].time >= windowStart)
    ensures FirstInWindow(h, windowStart) == k
  {
  }

  /** M-001 starts from the same sample on the trimmed history as on the full log exactly when no
      dropped sample lies in the window. */
  lemma SameStartSampleIff(h: seq<PricePoint>, log: seq<PricePoint>, windowStart: int)
    requires Refines(h, log)
    ensures FirstInWindow(log, windowStart) == |log| - |h| + FirstInWindow(h, windowStart)
            <==> forall i | 0 <= i < |log| - |h| :: log[i].time < windowStart
  {
    var d := |log| - |h|;
    if forall i | 0 <= i < d :: log[i].time < windowStart {
      SkipsDropped(h, log, windowStart);
    }
  }

  lemma SkipsDropped(h: seq<PricePoint>, log: seq<PricePoint>, windowStart: int)
    requires |h| <= |log| && h == log[|log| - |h|..] && forall i | 0 <= i < |log| - |h| :: log[i].time < windowStart
    ensures FirstInWindow(log, windowStart) == |log| - |h| + FirstInWindow(h, windowStart)
  {
    var d := |log| - |h|;
    var k := FirstInWindow(h, windowStart);
    forall i | 0 <= i < d + k
      ensures log[i].time < windowStart
    {
      if i >= d {
        assert log[i] == h[i - d];
      }
    }
    assert d + k < |log| ==> log[d + k] == h[k];
    FirstIsUnique(log, windowStart, d + k);
  }

  lemma SameStart(h: seq<PricePoint>, log: seq<PricePoint>, windowStart: int)
    requires Refines(h, log) && windowStart >= MaxTime(log) - RETENTION_MS
    ensures StartPrice(h, windowStart) == StartPrice(log, windowStart) && StartPrice(h, windowStart) > 0.0
  {
    var d := |log| - |h|;
    SameStartSampleIff(h, log, windowStart);
    var k := FirstInWindow(h, windowStart);
    assert h[|h| - 1] == log[d..][|h| - 1];
    if k < |h| {
      assert h[k] == log[d..][k];
    }
  }

  lemma SameCurrent(h: seq<PricePoint>, log: seq<PricePoint>, quoted: real)
    requires Refines(h, log)
    ensures CurrentPrice(h, quoted) == CurrentPrice(log, quoted)
  {
    assert h[|h| - 1] == log[|log| - 1];
  }

  /** With a window that starts no earlier than the largest clock reading minus two hours, M-001
      sees on the trimmed history the start price, the current price and the jump it would see on
      the untrimmed log, and never divides by zero. */
  lemma TrimmingIsInvisible(h: seq<PricePoint>, log: seq<PricePoint>, quoted: real, windowStart: int)
    requires Refines(h, log) && windowStart >= MaxTime(log) - RETENTION_MS
    ensures StartPrice(h, windowStart) == StartPrice(log, windowStart) && StartPrice(h, windowStart) > 0.0
    ensures CurrentPrice(h, quoted) == CurrentPrice(log, quoted)
    ensures Ratio(CurrentPrice(h, quoted), StartPrice(h, windowStart))
            == Ratio(CurrentPrice(log, quoted), StartPrice(log, windowStart))
  {
    SameStart(h, log, windowStart);
    SameCurrent(h, log, quoted);
  }

  /** Every sample of the last two hours, by the largest clock reading, is still there. */
  lemma RecentSamplesAreKept(h: seq<PricePoint>, log: seq<PricePoint>, i: nat)
    requires Refines(h, log) && i < |log| && log[i].time >= MaxTime(log) - RETENTION_MS
    ensures i >= |log| - |h| && h[i - (|log| - |h|)] == log[i]
  {
    assert h == log[|log| - |h|..];
  }

  /** A longer window can start from a different price: the two-hour buffer is part of the
      guarantee. */
  lemma LongerWindowCanDiffer() returns (h: seq<PricePoint>, log: seq<PricePoint>, windowStart: int)
    ensures Refines(h, log) && |h| >= 2 && StartPrice(h, windowStart) != StartPrice(log, windowStart)
  {
    log := [PricePoint(1.0, 0), PricePoint(2.0, RETENTION_MS), PricePoint(2.0, RETENTION_MS + 1)];
    h := log[1..];
    windowStart := 0;
    assert MaxTime(log) == RETENTION_MS + 1 by {
      var i :| 0 <= i < |log| && log[i].time == MaxTime(log);
      assert log[2].time <= MaxTime(log);
    }
    FirstIsUnique(log, 0, 0);
    FirstIsUnique(h, 0, 0);
  }
}
