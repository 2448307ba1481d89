/** Rule M-001, the price jump over a window: the diagnostic evaluator and its alerting twin range
    over the same map of symbols, each in whatever order the map happens to give. */
module VolatilityRule {
  import opened Prelude
  import opened SentinelTypes
  import opened Collector

  datatype Input = Input(error: bool, symbol: string, positions: seq<Position>, histories: Histories, now: int)

  datatype Config = Config(windowMinutes: int, threshold: real, cooldown: int)

  datatype Alert = Alert(symbol: string, cooldownKey: string, cooldownSeconds: int)

  /** What the diagnostic reports about the top mover. */
  datatype Top = Top(symbol: string, jump: real, direction: string, current: real, start: real,
                     previous: Option<PricePoint>, latest: Option<PricePoint>)

  const NO_TOP: Top := Top("", 0.0, "", 0.0, 0.0, None, None)

  datatype Line = Line(symbol: string, jump: real)

  const PREVIEW_LINES: nat := 5

  datatype M001 = M001(skipReason: string, triggered: bool, symbolCount: nat, checked: nat, triggeredCount: nat,
                       preview: seq<Line>, top: Top)

  /** Every stored price is positive, which the collector guarantees. */
  ghost predicate Positive(d: Input) {
    forall s, i | s in d.histories && 0 <= i < |d.histories[s]| :: d.histories[s][i].price > 0.0
  }

  lemma CollectorIsPositive(history: Histories, log: Histories, d: Input)
    requires AllRefine(history, log) && d.histories == history
    ensures Positive(d)
  {
    forall s, i | s in d.histories && 0 <= i < |d.histories[s]|
      ensures d.histories[s][i].price > 0.0
    {
      assert Refines(history[s], log[s]);
      assert history[s][i] == log[s][|log[s]| - |history[s]| + i];
    }
  }

  /** Symbols to check with their quoted price: the account's own (0 without a quote), then every
      position with a mark price, the last one winning. */
  function Quotes(symbol: string, ps: seq<Position>): map<string, real> {
    if ps == [] then if symbol != "" then map[symbol := 0.0] else map[]
    else
      var p := ps[|ps| - 1];
      if p.markPrice > 0.0 then Quotes(symbol, ps[..|ps| - 1])[p.symbol := p.markPrice]
      else Quotes(symbol, ps[..|ps| - 1])
  }

  method BuildQuotes(symbol: string, ps: seq<Position>) returns (m: map<string, real>)
    ensures m == Quotes(symbol, ps)
  {
    m := if symbol != "" then map[symbol := 0.0] else map[];
    for i := 0 to |ps|
      invariant m == Quotes(symbol, ps[..i])
    {
      assert ps[..i + 1][..i] == ps[..i];
      if ps[i].markPrice > 0.0 {
        m := m[ps[i].symbol := ps[i].markPrice];
      }
    }
    assert ps[..|ps|] == ps;
  }

  predicate IsChecked(d: Input, s: string) {
    |HistoryOf(d.histories, s)| >= 2
  }

  function QuoteOf(d: Input, s: string): real {
    var quotes := Quotes(d.symbol, d.positions);
    if s in quotes then quotes[s] else 0.0
  }

  function WindowStart(d: Input, c: Config): int {
    d.now - c.windowMinutes * MINUTE_MS
  }

  /** The start and the current price M-001 compares for a symbol. */
  function StartOf(d: Input, c: Config, s: string): (p: real)
    requires Positive(d) && IsChecked(d, s)
    ensures p > 0.0
  {
    StartPrice(d.histories[s], WindowStart(d, c))
  }

  function CurrentOf(d: Input, s: string): real
    requires IsChecked(d, s)
  {
    CurrentPrice(d.histories[s], QuoteOf(d, s))
  }

  /** The relative move from the start of the window to the current price. */
  function JumpOf(d: Input, c: Config, s: string): real
    requires Positive(d) && IsChecked(d, s)
  {
    Ratio(CurrentOf(d, s), StartOf(d, c, s))
  }

  predicate Hit(d: Input, c: Config, s: string)
    requires Positive(d)
  {
    IsChecked(d, s) && JumpOf(d, c, s) >= c.threshold
  }

  ghost function Checked(d: Input): set<string> {
    set s | s in Quotes(d.symbol, d.positions) && IsChecked(d, s)
  }

  ghost function Hits(d: Input, c: Config): set<string>
    requires Positive(d)
  {
    set s | s in Quotes(d.symbol, d.positions) && Hit(d, c, s)
  }

  // ---------------------------------------------------------------- orders of visit

  ghost predicate Distinct(order: seq<string>) {
    forall i, j | 0 <= i < j < |order| :: order[i] != order[j]
  }

  /** One possible order of a range over a map with these keys. */
  ghost predicate Enumerates(order: seq<string>, keys: set<string>) {
    Distinct(order) && forall s :: s in order <==> s in keys
  }

  function CheckedIn(order: seq<string>, d: Input): seq<string> {
    if order == [] then []
    else CheckedIn(order[..|order| - 1], d) + if IsChecked(d, order[|order| - 1]) then [order[|order| - 1]] else []
  }

  function HitsIn(order: seq<string>, d: Input, c: Config): seq<string>
    requires Positive(d)
  {
    if order == [] then []
    else HitsIn(order[..|order| - 1], d, c) + if Hit(d, c, order[|order| - 1]) then [order[|order| - 1]] else []
  }

  lemma SnocDistinct(xs: seq<string>, x: string)
    requires Distinct(xs) && x !in xs
    ensures Distinct(xs + [x])
  {
  }

  lemma InitDistinct(order: seq<string>)
    requires Distinct(order) && order != []
    ensures Distinct(order[..|order| - 1]) && order[|order| - 1] !in order[..|order| - 1]
    ensures order == order[..|order| - 1] + [order[|order| - 1]]
  {
  }

  lemma {:induction false} CheckedInIsExact(order: seq<string>, d: Input)
    requires Distinct(order)
    ensures Distinct(CheckedIn(order, d))
    ensures forall s :: s in CheckedIn(order, d) <==> s in order && IsChecked(d, s)
  {
    if order != [] {
      InitDistinct(order);
      CheckedInIsExact(order[..|order| - 1], d);
      if IsChecked(d, order[|order| - 1]) {
        SnocDistinct(CheckedIn(order[..|order| - 1], d), order[|order| - 1]);
      }
    }
  }

  lemma {:induction false} HitsInIsExact(order: seq<string>, d: Input, c: Config)
    requires Distinct(order) && Positive(d)
    ensures Distinct(HitsIn(order, d, c))
    ensures forall s :: s in HitsIn(order, d, c) <==> s in order && Hit(d, c, s)
  {
    if order != [] {
      InitDistinct(order);
      HitsInIsExact(order[..|order| - 1], d, c);
      if Hit(d, c, order[|order| - 1]) {
        SnocDistinct(HitsIn(order[..|order| - 1], d, c), order[|order| - 1]);
      }
    }
  }

  lemma {:induction false} DistinctSize(xs: seq<string>, keys: set<string>)
    requires Enumerates(xs, keys)
    ensures |xs| == |keys|
  {
    if xs == [] {
      assert keys == {};
    } else {
      InitDistinct(xs);
      var x := xs[|xs| - 1];
      DistinctSize(xs[..|xs| - 1], keys - {x});
      assert x in xs;
    }
  }

  /** However the map is visited, the checked symbols and the hits are each met exactly once. */
  lemma OrderDoesNotMatter(order: seq<string>, d: Input, c: Config)
    requires Positive(d) && Enumerates(order, Quotes(d.symbol, d.positions).Keys)
    ensures |CheckedIn(order, d)| == |Checked(d)|
    ensures |HitsIn(order, d, c)| == |Hits(d, c)|
    ensures Enumerates(HitsIn(order, d, c), Hits(d, c))
  {
    CheckedInIsExact(order, d);
    HitsInIsExact(order, d, c);
    DistinctSize(CheckedIn(order, d), Checked(d));
    DistinctSize(HitsIn(order, d, c), Hits(d, c));
  }

  // ---------------------------------------------------------------- the twins

  /** The start price: the first sample in the window, or the latest one. */
  method FindStart(h: seq<PricePoint>, windowStart: int) returns (p: real)
    requires h != []
    ensures p == StartPrice(h, windowStart)
  {
    p := 0.0;
    var i := 0;
    while i < |h| && h[i].time < windowStart
      invariant 0 <= i <= |h|
      invariant forall j | 0 <= j < i :: h[j].time < windowStart
    {
      i := i + 1;
    }
    FirstIsUnique(h, windowStart, i);
    if i < |h| {
      p := h[i].price;
    }
    if p <= 0.0 {
      p := h[|h| - 1].price;
    }
  }

  /** What is reported about a symbol when it is the top mover. */
  function Report(d: Input, c: Config, s: string): Top
    requires Positive(d) && IsChecked(d, s)
  {
    var h := d.histories[s];
    Top(s, JumpOf(d, c, s), if CurrentOf(d, s) < StartOf(d, c, s) then "down" else "up", CurrentOf(d, s),
        StartOf(d, c, s),
        Some(h[|h| - 2]), Some(h[|h| - 1]))
  }

  method Measure(d: Input, c: Config, s: string, quoted: real) returns (report: Top)
    requires Positive(d) && IsChecked(d, s)
    requires s in Quotes(d.symbol, d.positions) && quoted == Quotes(d.symbol, d.positions)[s]
    ensures report == Report(d, c, s)
  {
    var h := d.histories[s];
    var previous, latest := h[|h| - 2], h[|h| - 1];
    var current := if quoted <= 0.0 then latest.price else quoted;
    var start := FindStart(h, WindowStart(d, c));
    assert start == StartOf(d, c, s) && current == CurrentOf(d, s);
    report := Top(s, Ratio(current, start), if current < start then "down" else "up", current, start, Some(previous),
                  Some(latest));
  }

  /** What the diagnostic reports as the top mover after visiting the symbols in this order. */
  function TopOf(order: seq<string>, d: Input, c: Config): Top
    requires Positive(d)
  {
    if order == [] then NO_TOP
    else NextTop(TopOf(order[..|order| - 1], d, c), order[|order| - 1], d, c)
  }

  function NextTop(top: Top, s: string, d: Input, c: Config): Top
    requires Positive(d)
  {
    if IsChecked(d, s) && (top.symbol == "" || JumpOf(d, c, s) > top.jump) then Report(d, c, s) else top
  }

  /** The lines are those of the first five of the checked symbols xs, in order, each with its own jump. */
  ghost predicate IsPreview(lines: seq<Line>, xs: seq<string>, d: Input, c: Config)
    requires Positive(d)
  {
    && |lines| == MinInt(PREVIEW_LINES, |xs|)
    && forall i | 0 <= i < |lines| :: IsChecked(d, xs[i]) && lines[i] == Line(xs[i], JumpOf(d, c, xs[i]))
  }

  lemma PreviewStep(lines: seq<Line>, xs: seq<string>, s: string, d: Input, c: Config)
    requires Positive(d) && IsPreview(lines, xs, d, c) && IsChecked(d, s)
    ensures IsPreview(if |lines| < PREVIEW_LINES then lines + [Line(s, JumpOf(d, c, s))] else lines, xs + [s], d, c)
  {
    var all := xs + [s];
    assert forall i | 0 <= i < |lines| :: all[i] == xs[i];
  }

  /** `order` is how the map happens to be ranged over. */
  method EvalM001(d: Input, c: Config, order: seq<string>) returns (r: M001)
    requires Positive(d) && Enumerates(order, Quotes(d.symbol, d.positions).Keys)
    ensures d.error ==> r.skipReason == "data_error"
    ensures !d.error && d.histories == map[] ==> r.skipReason == "no_price_history"
    ensures d.error || d.histories == map[] ==> !r.triggered && r.triggeredCount == 0
    ensures !d.error && d.histories != map[] ==>
              && r.symbolCount == |Quotes(d.symbol, d.positions)| && r.checked == |Checked(d)|
              && r.triggeredCount == |Hits(d, c)| && (r.triggered <==> Hits(d, c) != {})
              && IsPreview(r.preview, CheckedIn(order, d), d, c) && r.top == TopOf(order, d, c)
              && r.skipReason
                  == (if Checked(d) == {} then "insufficient_price_samples" else if r.triggered then ""
                      else "below_threshold")
  {
    if d.error {
      return M001("data_error", false, 0, 0, 0, [], NO_TOP);
    }
    if d.histories == map[] {
      return M001("no_price_history", false, 0, 0, 0, [], NO_TOP);
    }
    var quotes := BuildQuotes(d.symbol, d.positions);
    var checked, count, preview, top := 0, 0, [], NO_TOP;
    for i := 0 to |order|
      invariant checked == |CheckedIn(order[..i], d)| && count == |HitsIn(order[..i], d, c)|
      invariant IsPreview(preview, CheckedIn(order[..i], d), d, c)
      invariant top == TopOf(order[..i], d, c)
    {
      assert order[..i + 1][..i] == order[..i];
      var s := order[i];
      if !IsChecked(d, s) {
        continue;
      }
      checked := checked + 1;
      var report := Measure(d, c, s, quotes[s]);
      PreviewStep(preview, CheckedIn(order[..i], d), s, d, c);
      if |preview| < PREVIEW_LINES {
        preview := preview + [Line(s, report.jump)];
      }
      if top.symbol == "" || report.jump > top.jump {
        top := report;
      }
      if report.jump >= c.threshold {
        count := count + 1;
      }
    }
    assert order[..|order|] == order;
    OrderDoesNotMatter(order, d, c);
    r := M001(if checked == 0 then "insufficient_price_samples" else if count > 0 then "" else "below_threshold",
              count > 0, |quotes|, checked, count, preview, top);
  }

  const KEY_PREFIX: string := "sentinel:cooldown:M-001:"

  /** The cooldown key names the symbol only, so every account shares it. */
  function AlertFor(s: string, c: Config): Alert {
    Alert(s, KEY_PREFIX + s, c.cooldown)
  }

  function AlertsFor(symbols: seq<string>, c: Config): seq<Alert> {
    if symbols == [] then [] else AlertsFor(symbols[..|symbols| - 1], c) + [AlertFor(symbols[|symbols| - 1], c)]
  }

  lemma {:induction false} AlertsForAt(symbols: seq<string>, c: Config)
    ensures |AlertsFor(symbols, c)| == |symbols|
    ensures forall k | 0 <= k < |symbols| :: AlertsFor(symbols, c)[k] == AlertFor(symbols[k], c)
  {
    if symbols != [] {
      AlertsForAt(symbols[..|symbols| - 1], c);
    }
  }

  lemma AlertsForSnoc(symbols: seq<string>, s: string, c: Config)
    ensures AlertsFor(symbols + [s], c) == AlertsFor(symbols, c) + [AlertFor(s, c)]
  {
    assert (symbols + [s])[..|symbols|] == symbols;
  }

  lemma VisitHit(order: seq<string>, i: nat, d: Input, c: Config)
    requires Positive(d) && i < |order|
    ensures AlertsFor(HitsIn(order[..i + 1], d, c), c)
            == AlertsFor(HitsIn(order[..i], d, c), c) + if Hit(d, c, order[i]) then [AlertFor(order[i], c)] else []
  {
    assert order[..i + 1][..i] == order[..i];
    var hits := HitsIn(order[..i], d, c);
    assert hits + [] == hits;
    AlertsForSnoc(hits, order[i], c);
  }

  /** A hit makes the diagnostic's gate open. */
  lemma GateIsOpen(d: Input, c: Config, order: seq<string>)
    requires Positive(d) && Enumerates(order, Quotes(d.symbol, d.positions).Keys)
    ensures Hits(d, c) == {} ==> HitsIn(order, d, c) == []
    ensures Hits(d, c) != {} ==> Checked(d) != {}
  {
    OrderDoesNotMatter(order, d, c);
    HitsAreChecked(d, c);
    if Hits(d, c) == {} {
      assert |HitsIn(order, d, c)| == 0;
    }
  }

  method RuleM001(d: Input, c: Config, evalOrder: seq<string>, order: seq<string>) returns (alerts: seq<Alert>)
    requires Positive(d) && Enumerates(evalOrder, Quotes(d.symbol, d.positions).Keys)
    requires Enumerates(order, Quotes(d.symbol, d.positions).Keys)
    ensures alerts == if d.error || d.histories == map[] then [] else AlertsFor(HitsIn(order, d, c), c)
  {
    var result := EvalM001(d, c, evalOrder);
    GateIsOpen(d, c, order);
    alerts := [];
    if result.skipReason != "" || !result.triggered {
      return;
    }
    var quotes := BuildQuotes(d.symbol, d.positions);
    for i := 0 to |order|
      invariant alerts == AlertsFor(HitsIn(order[..i], d, c), c)
    {
      VisitHit(order, i, d, c);
      var s := order[i];
      if !IsChecked(d, s) {
        continue;
      }
      var report := Measure(d, c, s, quotes[s]);
      if report.jump < c.threshold {
        continue;
      }
      alerts := alerts + [AlertFor(s, c)];
    }
    assert order[..|order|] == order;
  }

  lemma HitsAreChecked(d: Input, c: Config)
    requires Positive(d)
    ensures Hits(d, c) <= Checked(d)
  {
  }

  /** One alert per hit symbol, each with that symbol's own cooldown key. */
  ghost predicate OnePerHit(alerts: seq<Alert>, hits: set<string>, c: Config) {
    && |alerts| == |hits|
    && (forall s | s in hits :: exists k :: 0 <= k < |alerts| && alerts[k] == AlertFor(s, c))
    && (forall j, k | 0 <= j < k < |alerts| :: alerts[j].cooldownKey != alerts[k].cooldownKey)
  }

  lemma KeysDiffer(a: string, b: string)
    requires a != b
    ensures KEY_PREFIX + a != KEY_PREFIX + b
  {
    var n := |KEY_PREFIX|;
    assert (KEY_PREFIX + a)[n..] == a && (KEY_PREFIX + b)[n..] == b;
  }

  lemma AlertsAreOnePerHit(symbols: seq<string>, hits: set<string>, c: Config)
    requires Enumerates(symbols, hits)
    ensures OnePerHit(AlertsFor(symbols, c), hits, c)
  {
    DistinctSize(symbols, hits);
    AlertsForAt(symbols, c);
    var alerts := AlertsFor(symbols, c);
    forall s | s in hits
      ensures exists k :: 0 <= k < |alerts| && alerts[k] == AlertFor(s, c)
    {
      var k :| 0 <= k < |symbols| && symbols[k] == s;
      assert alerts[k] == AlertFor(s, c);
    }
    forall j, k | 0 <= j < k < |alerts|
      ensures alerts[j].cooldownKey != alerts[k].cooldownKey
    {
      KeysDiffer(symbols[j], symbols[k]);
    }
  }

  /** M-001's twins agree on every input, although the three ranges over the symbol map may each
      visit it in a different order. */
  method M001TwinsAgree(d: Input, c: Config, o1: seq<string>, o2: seq<string>, o3: seq<string>)
    returns (r: M001, alerts: seq<Alert>)
    requires Positive(d)
    requires forall o | o in [o1, o2, o3] :: Enumerates(o, Quotes(d.symbol, d.positions).Keys)
    ensures |alerts| == r.triggeredCount && (alerts != [] <==> r.triggered)
    ensures !d.error && d.histories != map[] ==> OnePerHit(alerts, Hits(d, c), c)
  {
    assert o1 in [o1, o2, o3] && o2 in [o1, o2, o3] && o3 in [o1, o2, o3];
    r := EvalM001(d, c, o1);
    alerts := RuleM001(d, c, o2, o3);
    OrderDoesNotMatter(o3, d, c);
    AlertsAreOnePerHit(HitsIn(o3, d, c), Hits(d, c), c);
  }

  // ---------------------------------------------------------------- the rule in prices

  /** The samples before i lie before the window; i is the first in it, or there is none. */
  ghost predicate FirstOf(h: seq<PricePoint>, windowStart: int, i: nat) {
    && i <= |h| && (forall j | 0 <= j < i :: h[j].time < windowStart)
    && (i < |h| ==> h[i].time >= windowStart)
  }

  /** The last position with a mark price for the symbol has this one, or there is none and it is 0. */
  ghost predicate QuotedAt(ps: seq<Position>, s: string, quoted: real) {
    || (exists i :: 0 <= i < |ps| && IsQuote(ps, s, i) && ps[i].markPrice == quoted
                    && forall j | i < j < |ps| :: !IsQuote(ps, s, j))
    || (quoted == 0.0 && forall j | 0 <= j < |ps| :: !IsQuote(ps, s, j))
  }

  predicate IsQuote(ps: seq<Position>, s: string, i: int)
    requires 0 <= i < |ps|
  {
    ps[i].symbol == s && ps[i].markPrice > 0.0
  }

  lemma {:induction false} QuotesAre(symbol: string, ps: seq<Position>, s: string)
    ensures s in Quotes(symbol, ps)
            <==> (s == symbol && s != "") || exists i :: 0 <= i < |ps| && IsQuote(ps, s, i)
    ensures QuotedAt(ps, s, if s in Quotes(symbol, ps) then Quotes(symbol, ps)[s] else 0.0)
  {
    if ps != [] {
      var n := |ps| - 1;
      var front := ps[..n];
      QuotesAre(symbol, front, s);
      assert forall i | 0 <= i < n :: IsQuote(front, s, i) == IsQuote(ps, s, i);
      if IsQuote(ps, s, n) {
        assert Quotes(symbol, ps)[s] == ps[n].markPrice;
      } else {
        QuotedStays(ps, s, if s in Quotes(symbol, front) then Quotes(symbol, front)[s] else 0.0);
      }
    }
  }

  lemma QuotedStays(ps: seq<Position>, s: string, quoted: real)
    requires ps != [] && !IsQuote(ps, s, |ps| - 1) && QuotedAt(ps[..|ps| - 1], s, quoted)
    ensures QuotedAt(ps, s, quoted)
  {
    var n := |ps| - 1;
    assert forall i | 0 <= i < n :: IsQuote(ps[..n], s, i) == IsQuote(ps, s, i);
    if i :| 0 <= i < n && IsQuote(ps[..n], s, i) && ps[..n][i].markPrice == quoted
            && forall j | i < j < n :: !IsQuote(ps[..n], s, j)
    {
      assert IsQuote(ps, s, i) && ps[i].markPrice == quoted;
    }
  }

  /** The price the window starts at: its first sample's, or the latest one's. */
  ghost predicate StartsAt(h: seq<PricePoint>, windowStart: int, start: real)
    requires h != []
  {
    exists i: nat :: FirstOf(h, windowStart, i) && start == if i < |h| then h[i].price else h[|h| - 1].price
  }

  /** The price now: the quote, or the latest sample's. */
  ghost predicate NowAt(ps: seq<Position>, s: string, h: seq<PricePoint>, current: real)
    requires h != []
  {
    exists quoted :: QuotedAt(ps, s, quoted) && current == if quoted > 0.0 then quoted else h[|h| - 1].price
  }

  /** The two prices a jump compares. */
  ghost predicate Compares(d: Input, c: Config, s: string, start: real, current: real)
    requires s in d.histories && d.histories[s] != []
  {
    && StartsAt(d.histories[s], d.now - c.windowMinutes * 60000, start)
    && NowAt(d.positions, s, d.histories[s], current)
  }

  lemma PricesCompared(d: Input, c: Config, s: string)
    requires Positive(d) && IsChecked(d, s)
    ensures Compares(d, c, s, StartOf(d, c, s), CurrentOf(d, s))
  {
    var h := d.histories[s];
    assert FirstOf(h, d.now - c.windowMinutes * 60000, FirstInWindow(h, WindowStart(d, c)));
    QuotesAre(d.symbol, d.positions, s);
    assert QuotedAt(d.positions, s, QuoteOf(d, s));
  }

  /** The current price is at least the share above or below the start. */
  predicate MovesBy(start: real, current: real, share: real) {
    current >= start + share || current <= start - share
  }

  lemma RatioReaches(current: real, start: real, t: real)
    requires start > 0.0
    ensures Ratio(current, start) >= t <==> MovesBy(start, current, t * start)
  {
    var r := Ratio(current, start);
    assert r * start == AbsReal(current - start);
    if r >= t {
      assert (r - t) * start >= 0.0;
    } else {
      assert (t - r) * start > 0.0;
    }
  }

  lemma QuoteIsUnique(ps: seq<Position>, s: string, q: real, q': real)
    requires QuotedAt(ps, s, q) && QuotedAt(ps, s, q')
    ensures q == q'
  {
    if i, j :| 0 <= i < |ps| && 0 <= j < |ps| && IsQuote(ps, s, i) && IsQuote(ps, s, j)
               && ps[i].markPrice == q && ps[j].markPrice == q'
               && (forall k | i < k < |ps| :: !IsQuote(ps, s, k)) && (forall k | j < k < |ps| :: !IsQuote(ps, s, k))
    {
      assert i == j;
    }
  }

  lemma StartOnce(h: seq<PricePoint>, windowStart: int, start: real)
    requires h != [] && (forall i | 0 <= i < |h| :: h[i].price > 0.0) && StartsAt(h, windowStart, start)
    ensures start == StartPrice(h, windowStart)
  {
    var i: nat :| FirstOf(h, windowStart, i) && start == if i < |h| then h[i].price else h[|h| - 1].price;
    FirstIsUnique(h, windowStart, i);
  }

  lemma NowOnce(d: Input, s: string, current: real)
    requires IsChecked(d, s) && NowAt(d.positions, s, d.histories[s], current)
    ensures current == CurrentOf(d, s)
  {
    var h := d.histories[s];
    var quoted :| QuotedAt(d.positions, s, quoted) && current == if quoted > 0.0 then quoted else h[|h| - 1].price;
    QuotesAre(d.symbol, d.positions, s);
    QuoteIsUnique(d.positions, s, quoted, QuoteOf(d, s));
  }

  lemma ComparedOnce(d: Input, c: Config, s: string, start: real, current: real)
    requires Positive(d) && IsChecked(d, s) && Compares(d, c, s, start, current)
    ensures start == StartOf(d, c, s) && current == CurrentOf(d, s)
  {
    StartOnce(d.histories[s], WindowStart(d, c), start);
    NowOnce(d, s, current);
  }

  lemma HitOf(d: Input, c: Config, s: string, start: real, current: real)
    requires Positive(d) && IsChecked(d, s) && start == StartOf(d, c, s) && current == CurrentOf(d, s)
    ensures Hit(d, c, s) <==> Ratio(current, start) >= c.threshold
    ensures Report(d, c, s).jump == Ratio(current, start)
  {
  }

  lemma HitMoves(d: Input, c: Config, s: string, start: real, current: real)
    requires Positive(d) && IsChecked(d, s) && start == StartOf(d, c, s) && current == CurrentOf(d, s)
    ensures Hit(d, c, s) <==> MovesBy(start, current, c.threshold * start)
  {
    RatioReaches(current, start, c.threshold);
    if Hit(d, c, s) {
      HitOf(d, c, s, start, current);
    } else {
      HitOf(d, c, s, start, current);
    }
  }

  /** Exactly when a symbol is hit, in prices: it has two samples, and the current price is at least
      the threshold's share of the start price above or below it. */
  lemma HitIff(d: Input, c: Config, s: string, start: real, current: real)
    requires Positive(d) && s in d.histories && d.histories[s] != [] && Compares(d, c, s, start, current)
    ensures Hit(d, c, s)
            <==> |d.histories[s]| >= 2 && MovesBy(start, current, c.threshold * start)
  {
    if IsChecked(d, s) {
      ComparedOnce(d, c, s, start, current);
      HitMoves(d, c, s, start, current);
    }
  }

  /** The symbols checked: the account's own and every one with a mark price, if two samples of it are
      there. */
  lemma CheckedIff(d: Input, s: string)
    ensures s in Checked(d)
            <==> s in d.histories && |d.histories[s]| >= 2
                 && ((s == d.symbol && s != "") || exists i :: 0 <= i < |d.positions| && IsQuote(d.positions, s, i))
  {
    QuotesAre(d.symbol, d.positions, s);
  }

  /** What is reported about a symbol, on its samples. */
  lemma ReportIs(d: Input, c: Config, s: string, start: real, current: real)
    requires Positive(d) && IsChecked(d, s) && Compares(d, c, s, start, current)
    ensures var r, h := Report(d, c, s), d.histories[s];
            && r.symbol == s && r.start == start && r.current == current
            && (r.direction == "down" <==> current < start) && r.direction in {"up", "down"}
            && r.previous == Some(h[|h| - 2]) && r.latest == Some(h[|h| - 1])
            && r.jump == JumpOf(d, c, s)
  {
    ComparedOnce(d, c, s, start, current);
  }

  function MappedHistory(h: seq<PricePoint>, f: real -> real): seq<PricePoint> {
    seq(|h|, i requires 0 <= i < |h| => PricePoint(f(h[i].price), h[i].time))
  }

  function MappedPositions(ps: seq<Position>, f: real -> real): seq<Position> {
    seq(|ps|, i requires 0 <= i < |ps| => ps[i].(markPrice := f(ps[i].markPrice)))
  }

  /** The same market with every price replaced. */
  function Mapped(d: Input, f: real -> real): Input {
    d.(positions := MappedPositions(d.positions, f),
       histories := map s | s in d.histories :: MappedHistory(d.histories[s], f))
  }

  function Factor(k: real): real -> real {
    x => k * x
  }

  /** Every price multiplied by the same factor. */
  function Scaled(d: Input, k: real): Input {
    Mapped(d, Factor(k))
  }

  ghost predicate KeepsSign(f: real -> real) {
    f(0.0) == 0.0 && forall x :: x > 0.0 <==> f(x) > 0.0
  }

  lemma MappedPositive(d: Input, f: real -> real)
    requires Positive(d) && KeepsSign(f)
    ensures Positive(Mapped(d, f))
  {
  }

  lemma MappedQuote(ps: seq<Position>, s: string, quoted: real, f: real -> real)
    requires QuotedAt(ps, s, quoted) && KeepsSign(f)
    ensures QuotedAt(MappedPositions(ps, f), s, f(quoted))
  {
    var ps' := MappedPositions(ps, f);
    assert forall i | 0 <= i < |ps| :: IsQuote(ps', s, i) == IsQuote(ps, s, i);
    if i :| 0 <= i < |ps| && IsQuote(ps, s, i) && ps[i].markPrice == quoted
            && forall j | i < j < |ps| :: !IsQuote(ps, s, j)
    {
      assert IsQuote(ps', s, i) && ps'[i].markPrice == f(quoted);
    }
  }

  lemma MappedStart(h: seq<PricePoint>, windowStart: int, start: real, f: real -> real)
    requires h != [] && StartsAt(h, windowStart, start)
    ensures StartsAt(MappedHistory(h, f), windowStart, f(start))
  {
    var h' := MappedHistory(h, f);
    var i: nat :| FirstOf(h, windowStart, i) && start == if i < |h| then h[i].price else h[|h| - 1].price;
    assert FirstOf(h', windowStart, i) && f(start) == if i < |h'| then h'[i].price else h'[|h'| - 1].price;
  }

  lemma MappedNow(ps: seq<Position>, s: string, h: seq<PricePoint>, current: real, f: real -> real)
    requires h != [] && NowAt(ps, s, h, current) && KeepsSign(f)
    ensures NowAt(MappedPositions(ps, f), s, MappedHistory(h, f), f(current))
  {
    var quoted :| QuotedAt(ps, s, quoted) && current == if quoted > 0.0 then quoted else h[|h| - 1].price;
    MappedQuote(ps, s, quoted, f);
    assert QuotedAt(MappedPositions(ps, f), s, f(quoted));
  }

  lemma MappedCompares(d: Input, c: Config, s: string, start: real, current: real, f: real -> real)
    requires s in d.histories && d.histories[s] != [] && Compares(d, c, s, start, current) && KeepsSign(f)
    ensures Compares(Mapped(d, f), c, s, f(start), f(current))
  {
    MappedStart(d.histories[s], d.now - c.windowMinutes * 60000, start, f);
    MappedNow(d.positions, s, d.histories[s], current, f);
  }

  lemma MappedPrices(d: Input, c: Config, s: string, f: real -> real)
    requires Positive(d) && IsChecked(d, s) && KeepsSign(f)
    ensures Positive(Mapped(d, f)) && IsChecked(Mapped(d, f), s)
    ensures StartOf(Mapped(d, f), c, s) == f(StartOf(d, c, s)) && CurrentOf(Mapped(d, f), s) == f(CurrentOf(d, s))
  {
    MappedPositive(d, f);
    PricesCompared(d, c, s);
    MappedCompares(d, c, s, StartOf(d, c, s), CurrentOf(d, s), f);
    ComparedOnce(Mapped(d, f), c, s, f(StartOf(d, c, s)), f(CurrentOf(d, s)));
  }

  lemma TimesKeepsSign(k: real)
    requires k > 0.0
    ensures KeepsSign(Factor(k))
  {
  }

  lemma RatioScales(current: real, start: real, k: real)
    requires start > 0.0 && k > 0.0
    ensures Factor(k)(start) != 0.0 && Ratio(Factor(k)(current), Factor(k)(start)) == Ratio(current, start)
  {
    var r := Ratio(current, start);
    assert r * start == AbsReal(current - start);
    var x := current - start;
    assert k * current - k * start == k * x;
    assert AbsReal(k * x) == k * AbsReal(x);
    assert k * AbsReal(x) == r * (k * start);
  }

  lemma MappedJump(d: Input, c: Config, s: string, f: real -> real)
    requires Positive(d) && IsChecked(d, s) && KeepsSign(f) && f(StartOf(d, c, s)) != 0.0
    requires Ratio(f(CurrentOf(d, s)), f(StartOf(d, c, s))) == Ratio(CurrentOf(d, s), StartOf(d, c, s))
    ensures Positive(Mapped(d, f)) && IsChecked(Mapped(d, f), s)
    ensures JumpOf(Mapped(d, f), c, s) == JumpOf(d, c, s)
  {
    MappedPrices(d, c, s, f);
  }

  /** Jumps are relative: with every price multiplied by the same factor, every symbol's jump and hit
      are what they were. */
  lemma JumpsAreRelative(d: Input, c: Config, s: string, k: real)
    requires Positive(d) && k > 0.0
    ensures Positive(Scaled(d, k)) && (IsChecked(Scaled(d, k), s) <==> IsChecked(d, s))
    ensures IsChecked(d, s) ==> JumpOf(Scaled(d, k), c, s) == JumpOf(d, c, s)
    ensures Hit(Scaled(d, k), c, s) <==> Hit(d, c, s)
  {
    TimesKeepsSign(k);
    MappedPositive(d, Factor(k));
    if IsChecked(d, s) {
      RatioScales(CurrentOf(d, s), StartOf(d, c, s), k);
      MappedJump(d, c, s, Factor(k));
    }
  }

  // ---------------------------------------------------------------- the top mover

  /** The largest jump over the checked symbols. */
  ghost predicate IsTop(jump: real, d: Input, c: Config)
    requires Positive(d)
  {
    (exists s :: s in Checked(d) && JumpOf(d, c, s) == jump) && forall s | s in Checked(d) :: JumpOf(d, c, s) <= jump
  }

  /** A checked symbol with an empty name out-jumps every other one: the diagnostic reads the empty
      name as "no top yet" and lets the next symbol replace it. */
  ghost predicate NamelessWins(d: Input, c: Config)
    requires Positive(d)
  {
    && "" in Checked(d) && Checked(d) != {""}
    && forall s | s in Checked(d) && s != "" :: JumpOf(d, c, s) < JumpOf(d, c, "")
  }

  /** What a visit has seen: the top is some visited jump, and once a named symbol jumping at
      least as far as every checked one has been visited, the top is a named symbol jumping as far. */
  ghost predicate TopSoFar(top: Top, order: seq<string>, d: Input, c: Config)
    requires Positive(d)
  {
    && (top.symbol == "" || (top.symbol in order && IsChecked(d, top.symbol) && top == Report(d, c, top.symbol)))
    && forall s | s in order && IsChecked(d, s) && s != ""
        && (forall q | q in Checked(d) :: JumpOf(d, c, q) <= JumpOf(d, c, s)) ::
         top.symbol != "" && top.jump >= JumpOf(d, c, s)
  }

  lemma {:induction false} TopSoFarHolds(order: seq<string>, d: Input, c: Config)
    requires Positive(d) && forall s | s in order :: s in Quotes(d.symbol, d.positions)
    ensures TopSoFar(TopOf(order, d, c), order, d, c)
  {
    if order != [] {
      var n := |order| - 1;
      assert order == order[..n] + [order[n]];
      TopSoFarHolds(order[..n], d, c);
    }
  }

  /** Starting from the empty name forgets it: the visit goes on as if it had not been seen. */
  lemma {:induction false} NamelessIsForgotten(rest: seq<string>, d: Input, c: Config)
    requires Positive(d) && "" !in rest && exists s :: s in rest && IsChecked(d, s)
    ensures TopOf([""] + rest, d, c).symbol != ""
  {
    var n := |rest| - 1;
    var all := [""] + rest;
    assert all[..|rest|] == [""] + rest[..n] && all[|rest|] == rest[n] && rest == rest[..n] + [rest[n]];
    if s :| s in rest[..n] && IsChecked(d, s) {
      NamelessIsForgotten(rest[..n], d, c);
    }
  }

  lemma SomeOrder(keys: set<string>) returns (order: seq<string>)
    ensures Enumerates(order, keys)
  {
    if keys == {} {
      order := [];
    } else {
      var k :| k in keys;
      var rest := SomeOrder(keys - {k});
      order := rest + [k];
    }
  }

  lemma MaxExists(xs: set<string>, d: Input, c: Config) returns (m: string)
    requires Positive(d) && xs != {} && forall s | s in xs :: IsChecked(d, s)
    ensures m in xs && forall s | s in xs :: JumpOf(d, c, s) <= JumpOf(d, c, m)
  {
    var x :| x in xs;
    if xs == {x} {
      m := x;
    } else {
      assert xs - {x} != {} by {
        assert xs == {x} + (xs - {x});
      }
      m := MaxExists(xs - {x}, d, c);
      if JumpOf(d, c, m) < JumpOf(d, c, x) {
        m := x;
      }
    }
  }

  /** Unless the empty name wins, every order of visit reports the true maximum. */
  lemma TopIsMax(order: seq<string>, d: Input, c: Config)
    requires Positive(d) && Enumerates(order, Quotes(d.symbol, d.positions).Keys)
    requires Checked(d) != {} && !NamelessWins(d, c)
    ensures IsTop(TopOf(order, d, c).jump, d, c)
  {
    TopSoFarHolds(order, d, c);
    if Checked(d) == {""} {
      assert forall s | s in order && s != "" :: s in Checked(d) <==> IsChecked(d, s);
      assert "" in Checked(d);
      OnlyNameless(order, d, c);
    } else {
      var m := NamedMax(d, c);
      assert m in order;
    }
  }

  /** A named symbol that jumps as far as any. */
  lemma NamedMax(d: Input, c: Config) returns (m: string)
    requires Positive(d) && Checked(d) != {} && Checked(d) != {""} && !NamelessWins(d, c)
    ensures m != "" && m in Checked(d) && forall s | s in Checked(d) :: JumpOf(d, c, s) <= JumpOf(d, c, m)
  {
    m := MaxExists(Checked(d), d, c);
    if m == "" {
      m :| m in Checked(d) && m != "" && JumpOf(d, c, m) >= JumpOf(d, c, "");
    }
  }

  lemma {:induction false} OnlyNameless(order: seq<string>, d: Input, c: Config)
    requires Positive(d) && Distinct(order) && "" in order && IsChecked(d, "")
    requires forall s | s in order && s != "" :: !IsChecked(d, s)
    ensures TopOf(order, d, c) == Report(d, c, "")
  {
    InitDistinct(order);
    var n := |order| - 1;
    if order[n] == "" {
      NoneChecked(order[..n], d, c);
    } else {
      OnlyNameless(order[..n], d, c);
    }
  }

  lemma {:induction false} NoneChecked(order: seq<string>, d: Input, c: Config)
    requires Positive(d) && forall s | s in order :: !IsChecked(d, s)
    ensures TopOf(order, d, c) == NO_TOP
  {
    if order != [] {
      assert order[|order| - 1] in order;
      NoneChecked(order[..|order| - 1], d, c);
    }
  }

  /** When the empty name wins, visiting it first loses it. */
  lemma TopCanBeWrong(d: Input, c: Config) returns (order: seq<string>)
    requires Positive(d) && NamelessWins(d, c)
    ensures Enumerates(order, Quotes(d.symbol, d.positions).Keys)
    ensures !IsTop(TopOf(order, d, c).jump, d, c)
  {
    var rest := SomeOrder(Quotes(d.symbol, d.positions).Keys - {""});
    order := [""] + rest;
    assert exists s :: s in rest && IsChecked(d, s) by {
      var s :| s in Checked(d) && s != "";
      assert s in rest;
    }
    NamelessIsForgotten(rest, d, c);
    TopSoFarHolds(order, d, c);
  }

  /** The reported top jump is the maximum over the checked symbols in every order of visit exactly
      when the empty name does not win; in particular whenever no symbol is empty. */
  lemma TopIsMaxIff(d: Input, c: Config)
    requires Positive(d) && Checked(d) != {}
    ensures (forall order: seq<string> | Enumerates(order, Quotes(d.symbol, d.positions).Keys) ::
               IsTop(TopOf(order, d, c).jump, d, c))
            <==> !NamelessWins(d, c)
  {
    if NamelessWins(d, c) {
      var order := TopCanBeWrong(d, c);
    } else {
      forall order: seq<string> | Enumerates(order, Quotes(d.symbol, d.positions).Keys)
        ensures IsTop(TopOf(order, d, c).jump, d, c)
      {
        TopIsMax(order, d, c);
      }
    }
  }

  /** It happens: a nameless position that doubled, beside a named one that did not move. */
  lemma NamelessCanWin() returns (d: Input, c: Config, order: seq<string>)
    ensures Positive(d) && Checked(d) != {} && NamelessWins(d, c)
    ensures Enumerates(order, Quotes(d.symbol, d.positions).Keys) && !IsTop(TopOf(order, d, c).jump, d, c)
  {
    var h := [PricePoint(1.0, 0), PricePoint(1.0, 1)];
    var ps := [Position("", "LONG", 1.0, 2.0, 2.0, 0.0, 0), Position("X", "LONG", 1.0, 1.0, 1.0, 0.0, 0)];
    d, c := Input(false, "", ps, map["" := h, "X" := h], 1), Config(60, 0.5, 600);
    assert ps[..1] == [ps[0]] && [ps[0]][..0] == [];
    assert Quotes("", ps) == Quotes("", ps[..1])["X" := 1.0] && Quotes("", ps[..1]) == map["" := 2.0];
    FirstIsUnique(h, WindowStart(d, c), 0);
    assert StartOf(d, c, "") == StartOf(d, c, "X") == 1.0 && CurrentOf(d, "") == 2.0 && CurrentOf(d, "X") == 1.0;
    assert Checked(d) == {"", "X"} && "X" in Checked(d);
    order := TopCanBeWrong(d, c);
  }

  // ---------------------------------------------------------------- the rule on the untrimmed log

  /** A trimmed history that kept everything from the start of the window on, and two samples if
      there ever were two. */
  ghost predicate Kept(h: seq<PricePoint>, full: seq<PricePoint>, windowStart: int) {
    Refines(h, full) && windowStart >= MaxTime(full) - RETENTION_MS && (|full| >= 2 ==> |h| >= 2)
  }

  ghost predicate KeptAt(full: Input, d: Input, c: Config, s: string) {
    if s in full.histories then s in d.histories && Kept(d.histories[s], full.histories[s], WindowStart(d, c))
    else s !in d.histories
  }

  predicate SameRound(full: Input, d: Input) {
    full.symbol == d.symbol && full.positions == d.positions && full.now == d.now
  }

  /** `full` is the same round with every history untrimmed, and the rule's window reaches back no
      further than the collector keeps samples. */
  ghost predicate Untrims(full: Input, d: Input, c: Config) {
    SameRound(full, d) && forall s :: KeptAt(full, d, c, s)
  }

  lemma SameChecked(full: Input, d: Input, c: Config, s: string)
    requires KeptAt(full, d, c, s)
    ensures IsChecked(d, s) <==> IsChecked(full, s)
  {
  }

  /** What the report is made of, on the history itself. */
  ghost predicate Alike(h: seq<PricePoint>, full: seq<PricePoint>, windowStart: int, quoted: real) {
    && 2 <= |h| && 2 <= |full|
    && StartPrice(h, windowStart) == StartPrice(full, windowStart)
    && CurrentPrice(h, quoted) == CurrentPrice(full, quoted)
    && h[|h| - 2] == full[|full| - 2] && h[|h| - 1] == full[|full| - 1]
  }

  lemma KeptIsAlike(h: seq<PricePoint>, full: seq<PricePoint>, windowStart: int, quoted: real)
    requires Kept(h, full, windowStart) && |full| >= 2
    ensures Alike(h, full, windowStart, quoted)
  {
    SameStart(h, full, windowStart);
    SameCurrent(h, full, quoted);
    SameSamples(h, full);
  }

  lemma SameSamples(h: seq<PricePoint>, full: seq<PricePoint>)
    requires 2 <= |h| <= |full| && h == full[|full| - |h|..]
    ensures h[|h| - 2] == full[|full| - 2] && h[|h| - 1] == full[|full| - 1]
  {
  }

  lemma SamePrices(full: Input, d: Input, c: Config, s: string)
    requires Positive(d) && Positive(full) && SameRound(full, d) && IsChecked(d, s) && IsChecked(full, s)
    requires Alike(d.histories[s], full.histories[s], WindowStart(d, c), QuoteOf(d, s))
    ensures StartOf(d, c, s) == StartOf(full, c, s) && CurrentOf(d, s) == CurrentOf(full, s)
  {
  }

  lemma SameJump(full: Input, d: Input, c: Config, s: string)
    requires Positive(d) && Positive(full) && IsChecked(d, s) && IsChecked(full, s)
    requires StartOf(d, c, s) == StartOf(full, c, s) && CurrentOf(d, s) == CurrentOf(full, s)
    ensures JumpOf(d, c, s) == JumpOf(full, c, s)
  {
  }

  lemma AlikeReports(full: Input, d: Input, c: Config, s: string)
    requires Positive(d) && Positive(full) && SameRound(full, d) && IsChecked(d, s) && IsChecked(full, s)
    requires Alike(d.histories[s], full.histories[s], WindowStart(d, c), QuoteOf(d, s))
    ensures Report(d, c, s) == Report(full, c, s)
  {
    SamePrices(full, d, c, s);
    SameJump(full, d, c, s);
  }

  lemma SameReport(full: Input, d: Input, c: Config, s: string)
    requires Positive(d) && Positive(full) && SameRound(full, d) && IsChecked(d, s) && IsChecked(full, s)
    requires Kept(d.histories[s], full.histories[s], WindowStart(d, c))
    ensures Report(d, c, s) == Report(full, c, s)
  {
    KeptIsAlike(d.histories[s], full.histories[s], WindowStart(d, c), QuoteOf(d, s));
    AlikeReports(full, d, c, s);
  }

  lemma SameHit(full: Input, d: Input, c: Config, s: string)
    requires Positive(d) && Positive(full) && SameRound(full, d) && KeptAt(full, d, c, s)
    ensures Hit(d, c, s) <==> Hit(full, c, s)
  {
    SameChecked(full, d, c, s);
    if IsChecked(d, s) {
      SameReport(full, d, c, s);
      assert Report(d, c, s).jump == JumpOf(d, c, s) && Report(full, c, s).jump == JumpOf(full, c, s);
    }
  }

  lemma UntrimmedIsPositive(full: Input, d: Input, c: Config)
    requires Untrims(full, d, c)
    ensures Positive(d) && Positive(full)
  {
    forall s, i | s in full.histories && 0 <= i < |full.histories[s]|
      ensures full.histories[s][i].price > 0.0
    {
      assert KeptAt(full, d, c, s);
    }
    forall s, i | s in d.histories && 0 <= i < |d.histories[s]|
      ensures d.histories[s][i].price > 0.0
    {
      assert KeptAt(full, d, c, s);
      var h, all := d.histories[s], full.histories[s];
      assert h[i] == all[|all| - |h|..][i];
    }
  }

  lemma {:induction false} SameTop(full: Input, d: Input, c: Config, order: seq<string>)
    requires Positive(d) && Positive(full) && Untrims(full, d, c)
    ensures TopOf(order, d, c) == TopOf(order, full, c)
  {
    if order != [] {
      var s := order[|order| - 1];
      SameTop(full, d, c, order[..|order| - 1]);
      assert KeptAt(full, d, c, s);
      SameChecked(full, d, c, s);
      if IsChecked(d, s) {
        SameReport(full, d, c, s);
      }
    }
  }

  /** Within the retention, M-001 checks, hits and reports on the collector's trimmed history exactly
      what it would on everything ever recorded. */
  lemma RuleSeesTheFullLog(full: Input, d: Input, c: Config, order: seq<string>)
    requires Untrims(full, d, c)
    ensures Positive(d) && Positive(full)
    ensures Checked(d) == Checked(full) && Hits(d, c) == Hits(full, c)
    ensures TopOf(order, d, c) == TopOf(order, full, c)
  {
    UntrimmedIsPositive(full, d, c);
    forall s
      ensures IsChecked(d, s) <==> IsChecked(full, s)
      ensures Hit(d, c, s) <==> Hit(full, c, s)
    {
      assert KeptAt(full, d, c, s);
      SameChecked(full, d, c, s);
      SameHit(full, d, c, s);
    }
    SameTop(full, d, c, order);
  }
}
