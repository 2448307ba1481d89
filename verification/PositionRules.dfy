/** Rules L-002, L-003 and E-008: each has a diagnostic evaluator and an alerting twin that walks
    the same positions again. */
module PositionRules {
  import opened Prelude
  import opened SentinelTypes

  datatype Level = NoLevel | L2 | L3

  datatype Alert = Alert(symbol: string, side: string, level: Level, cooldownSeconds: int)

  type Rates = map<string, Funding>

  /** The tests the rules apply to a position. */
  datatype Test =
    | HasLiquidation
    | NearLiquidation(l2: real, l3: real)
    | HasAdl
    | AdlHigh(quantile: int)
    | Pays(rates: Rates)
    | Costly(rates: Rates, threshold: real)

  predicate Hit(p: Position, t: Test) {
    match t
    case HasLiquidation => p.liqPrice > 0.0 && p.markPrice > 0.0
    case NearLiquidation(l2, l3) => LevelOf(p, t) != NoLevel
    case HasAdl => p.adl > 0
    case AdlHigh(quantile) => p.adl > 0 && p.adl >= quantile
    case Pays(rates) => PaysFunding(p, rates)
    case Costly(rates, threshold) => PaysFunding(p, rates) && Annualized(rates[p.symbol]) >= threshold
  }

  function LevelOf(p: Position, t: Test): Level {
    if !t.NearLiquidation? then L2
    else if !(p.liqPrice > 0.0 && p.markPrice > 0.0) then NoLevel
    else if Distance(p) <= t.l3 then L3
    else if Distance(p) <= t.l2 then L2
    else NoLevel
  }

  /** |liquidation - mark| / mark */
  function Distance(p: Position): (d: real)
    requires p.markPrice > 0.0
    ensures d >= 0.0
  {
    QuotientSign(AbsReal(p.liqPrice - p.markPrice), p.markPrice);
    AbsReal(p.liqPrice - p.markPrice) / p.markPrice
  }

  lemma QuotientSign(x: real, y: real)
    requires x >= 0.0 && y > 0.0
    ensures x / y >= 0.0
  {
  }

  /** Longs pay a positive rate, shorts a negative one. */
  predicate PaysFunding(p: Position, m: Rates) {
    p.symbol in m && ((p.quantity > 0.0 && m[p.symbol].rate > 0.0) || (p.quantity < 0.0 && m[p.symbol].rate < 0.0))
  }

  function Hours(f: Funding): (h: real)
    ensures h > 0.0
  {
    if f.interval <= 0 then 8.0 else f.interval as real / 3600000.0
  }

  function Annualized(f: Funding): real {
    AbsReal(f.rate) * (8760.0 / Hours(f))
  }

  /** How many positions pass a test. */
  function Count(ps: seq<Position>, t: Test): nat {
    if ps == [] then 0 else Count(ps[..|ps| - 1], t) + if Hit(ps[|ps| - 1], t) then 1 else 0
  }

  function AlertAbout(p: Position, t: Test, cooldown: int): Alert {
    Alert(p.symbol, p.side, LevelOf(p, t), cooldown)
  }

  /** One alert per position that passes, in the positions' order. */
  function Alerts(ps: seq<Position>, t: Test, cooldown: int): seq<Alert> {
    if ps == [] then []
    else
      var p := ps[|ps| - 1];
      Alerts(ps[..|ps| - 1], t, cooldown) + if Hit(p, t) then [AlertAbout(p, t, cooldown)] else []
  }

  lemma AlertsStep(ps: seq<Position>, i: nat, t: Test, cooldown: int)
    requires i < |ps|
    ensures Alerts(ps[..i + 1], t, cooldown)
            == Alerts(ps[..i], t, cooldown) + if Hit(ps[i], t) then [AlertAbout(ps[i], t, cooldown)] else []
  {
    Prefix(ps, i);
  }

  lemma {:induction false} OneAlertPerHit(ps: seq<Position>, t: Test, cooldown: int)
    ensures |Alerts(ps, t, cooldown)| == Count(ps, t)
  {
    if ps != [] {
      OneAlertPerHit(ps[..|ps| - 1], t, cooldown);
    }
  }

  ghost predicate SomeHit(ps: seq<Position>, t: Test) {
    exists i :: 0 <= i < |ps| && Hit(ps[i], t)
  }

  lemma {:induction false} CountIsPositiveIff(ps: seq<Position>, t: Test)
    ensures Count(ps, t) > 0 <==> SomeHit(ps, t)
  {
    if ps != [] {
      var n := |ps| - 1;
      CountIsPositiveIff(ps[..n], t);
      if SomeHit(ps[..n], t) {
        var i :| 0 <= i < n && Hit(ps[..n][i], t);
        assert Hit(ps[i], t);
      }
      if SomeHit(ps, t) {
        var i :| 0 <= i < |ps| && Hit(ps[i], t);
        assert i < n ==> Hit(ps[..n][i], t);
      }
    }
  }

  lemma Prefix(ps: seq<Position>, i: nat)
    requires i < |ps|
    ensures ps[..i + 1][..i] == ps[..i] && ps[..i + 1] == ps[..i] + [ps[i]]
  {
  }

  // ---------------------------------------------------------------- the position a rule singles out

  /** What a rule ranks by the positions that pass: nearness to liquidation, ADL rank or funding rate. */
  function Score(p: Position, t: Test): real
    requires Hit(p, t)
  {
    match t
    case HasLiquidation | NearLiquidation(_, _) => -Distance(p)
    case HasAdl | AdlHigh(_) => p.adl as real
    case Pays(rates) => Annualized(rates[p.symbol])
    case Costly(rates, _) => Annualized(rates[p.symbol])
  }

  /** The passing position at i has the highest score, and every other with that score comes later. */
  ghost predicate FirstBest(ps: seq<Position>, t: Test, i: int) {
    && 0 <= i < |ps| && Hit(ps[i], t)
    && forall j | 0 <= j < |ps| && Hit(ps[j], t) ::
         if j < i then Score(ps[j], t) < Score(ps[i], t) else Score(ps[j], t) <= Score(ps[i], t)
  }

  ghost predicate IsTop(ps: seq<Position>, t: Test, top: Option<Position>) {
    if top.None? then !SomeHit(ps, t) else exists i :: FirstBest(ps, t, i) && ps[i] == top.value
  }

  lemma TopStep(ps: seq<Position>, p: Position, t: Test, top: Option<Position>)
    requires IsTop(ps, t, top)
    ensures top.Some? ==> Hit(top.value, t)
    ensures var better := Hit(p, t) && (top.None? || Score(p, t) > Score(top.value, t));
            IsTop(ps + [p], t, if better then Some(p) else top)
  {
    var all := ps + [p];
    if top.Some? {
      var i :| FirstBest(ps, t, i) && ps[i] == top.value;
      if Hit(p, t) && Score(p, t) > Score(top.value, t) {
        assert FirstBest(all, t, |ps|);
      } else {
        assert FirstBest(all, t, i);
      }
    } else if Hit(p, t) {
      assert FirstBest(all, t, |ps|);
    }
  }

  ghost predicate SomeReaches(ps: seq<Position>, t: Test, bound: real) {
    exists i :: 0 <= i < |ps| && Hit(ps[i], t) && Score(ps[i], t) >= bound
  }

  lemma TopDecides(ps: seq<Position>, t: Test, top: Option<Position>, bound: real)
    requires IsTop(ps, t, top)
    ensures top.Some? <==> SomeHit(ps, t)
    ensures top.Some? ==> Hit(top.value, t)
    ensures SomeReaches(ps, t, bound) <==> top.Some? && Score(top.value, t) >= bound
  {
    if top.Some? {
      var i :| FirstBest(ps, t, i) && ps[i] == top.value;
      assert Hit(ps[i], t);
      if j :| 0 <= j < |ps| && Hit(ps[j], t) && Score(ps[j], t) >= bound {
        assert Score(ps[j], t) <= Score(ps[i], t);
      }
    }
  }

  // ---------------------------------------------------------------- L-002, liquidation distance

  datatype L002 = L002(skipReason: string, triggered: bool, checked: nat, triggeredCount: nat,
                       minDistance: real, highest: Level, closest: Option<Position>)

  /** `closest` is the first of the positions nearest to liquidation and minDistance its distance, or -1
      without any. */
  ghost predicate IsClosest(ps: seq<Position>, minDistance: real, closest: Option<Position>) {
    && IsTop(ps, HasLiquidation, closest)
    && if closest.None? then minDistance == -1.0
       else Hit(closest.value, HasLiquidation) && minDistance == Distance(closest.value)
  }

  /** The highest level any position reaches. */
  function Highest(ps: seq<Position>, t: Test): Level
    requires t.NearLiquidation?
  {
    if ps == [] then NoLevel
    else
      var before, now := Highest(ps[..|ps| - 1], t), LevelOf(ps[|ps| - 1], t);
      if now == L3 || (now == L2 && before == NoLevel) then now else before
  }

  method EvalL002(dataError: bool, ps: seq<Position>, l2: real, l3: real) returns (r: L002)
    ensures dataError ==> r.skipReason == "data_error" && !r.triggered && r.triggeredCount == 0
    ensures !dataError ==>
              && r.triggeredCount == Count(ps, NearLiquidation(l2, l3)) && r.checked == Count(ps, HasLiquidation)
              && (r.triggered <==> r.triggeredCount > 0)
              && IsClosest(ps, r.minDistance, r.closest) && r.highest == Highest(ps, NearLiquidation(l2, l3))
              && r.skipReason
                  == (if r.checked == 0 then "no_liq_price" else if r.triggered then "" else "all_above_threshold")
  {
    if dataError {
      return L002("data_error", false, 0, 0, 0.0, NoLevel, None);
    }
    var checked, count := 0, 0;
    var minDistance, closest, highest := -1.0, None, NoLevel;
    for i := 0 to |ps|
      invariant checked == Count(ps[..i], HasLiquidation) && count == Count(ps[..i], NearLiquidation(l2, l3))
      invariant IsClosest(ps[..i], minDistance, closest)
      invariant highest == Highest(ps[..i], NearLiquidation(l2, l3))
    {
      var p := ps[i];
      Prefix(ps, i);
      TopStep(ps[..i], p, HasLiquidation, closest);
      if !(p.liqPrice > 0.0 && p.markPrice > 0.0) {
        continue;
      }
      checked := checked + 1;
      var d := Distance(p);
      if minDistance < 0.0 || d < minDistance {
        minDistance, closest := d, Some(p);
      }
      if d <= l3 {
        count, highest := count + 1, L3;
      } else if d <= l2 {
        count := count + 1;
        if highest == NoLevel {
          highest := L2;
        }
      }
    }
    assert ps[..|ps|] == ps;
    r := L002(if checked == 0 then "no_liq_price" else if count > 0 then "" else "all_above_threshold",
              count > 0, checked, count, minDistance, highest, closest);
  }

  /** The alerting twin's own pass over the positions. */
  method NearAlerts(ps: seq<Position>, l2: real, l3: real) returns (alerts: seq<Alert>)
    ensures alerts == Alerts(ps, NearLiquidation(l2, l3), 0)
  {
    alerts := [];
    for i := 0 to |ps|
      invariant alerts == Alerts(ps[..i], NearLiquidation(l2, l3), 0)
    {
      var p := ps[i];
      AlertsStep(ps, i, NearLiquidation(l2, l3), 0);
      if !(p.liqPrice > 0.0 && p.markPrice > 0.0) {
        continue;
      }
      var d := Distance(p);
      var level := if d <= l3 then L3 else if d <= l2 then L2 else NoLevel;
      if level == NoLevel {
        continue;
      }
      alerts := alerts + [Alert(p.symbol, p.side, level, 0)];
    }
    assert ps[..|ps|] == ps;
  }

  method RuleL002(dataError: bool, ps: seq<Position>, l2: real, l3: real) returns (alerts: seq<Alert>)
    ensures alerts == if dataError then [] else Alerts(ps, NearLiquidation(l2, l3), 0)
  {
    var result := EvalL002(dataError, ps, l2, l3);
    OneAlertPerHit(ps, NearLiquidation(l2, l3), 0);
    HitsAreChecked(ps, l2, l3);
    if result.skipReason != "" || !result.triggered {
      return [];
    }
    alerts := NearAlerts(ps, l2, l3);
  }

  lemma {:induction false} HitsAreChecked(ps: seq<Position>, l2: real, l3: real)
    ensures Count(ps, NearLiquidation(l2, l3)) <= Count(ps, HasLiquidation)
  {
    if ps != [] {
      HitsAreChecked(ps[..|ps| - 1], l2, l3);
    }
  }

  lemma {:induction false} HighestIsL3Iff(ps: seq<Position>, t: Test)
    requires t.NearLiquidation?
    ensures Highest(ps, t) == L3 <==> exists p :: p in ps && LevelOf(p, t) == L3
  {
    if ps != [] {
      var n := |ps| - 1;
      HighestIsL3Iff(ps[..n], t);
      assert ps == ps[..n] + [ps[n]];
      assert ps[n] in ps;
    }
  }

  lemma L3IsMinimum(ps: seq<Position>, t: Test, minDistance: real, closest: Option<Position>)
    requires t.NearLiquidation? && IsClosest(ps, minDistance, closest)
    ensures Highest(ps, t) == L3 <==> Count(ps, HasLiquidation) > 0 && minDistance <= t.l3
  {
    HighestIsL3Iff(ps, t);
    CountIsPositiveIff(ps, HasLiquidation);
    TopDecides(ps, HasLiquidation, closest, -t.l3);
    L3IsNear(ps, t);
  }

  lemma L3IsNear(ps: seq<Position>, t: Test)
    requires t.NearLiquidation?
    ensures (exists p :: p in ps && LevelOf(p, t) == L3) <==> SomeReaches(ps, HasLiquidation, -t.l3)
  {
    if p :| p in ps && LevelOf(p, t) == L3 {
      var i :| 0 <= i < |ps| && ps[i] == p;
      assert Hit(ps[i], HasLiquidation) && Score(ps[i], HasLiquidation) >= -t.l3;
    }
    if i :| 0 <= i < |ps| && Hit(ps[i], HasLiquidation) && Score(ps[i], HasLiquidation) >= -t.l3 {
      assert ps[i] in ps && LevelOf(ps[i], t) == L3;
    }
  }

  lemma {:induction false} L3IsAlerted(ps: seq<Position>, t: Test)
    requires t.NearLiquidation?
    ensures Highest(ps, t) == L3 <==> exists k :: 0 <= k < |Alerts(ps, t, 0)| && Alerts(ps, t, 0)[k].level == L3
  {
    if ps != [] {
      var n := |ps| - 1;
      var before, now := Alerts(ps[..n], t, 0), Alerts(ps, t, 0);
      L3IsAlerted(ps[..n], t);
      if Highest(ps[..n], t) == L3 {
        var k :| 0 <= k < |before| && before[k].level == L3;
        assert now[k].level == L3;
      }
      if LevelOf(ps[n], t) == L3 {
        assert now[|before|].level == L3;
      }
      if k :| 0 <= k < |now| && now[k].level == L3 {
        assert k < |before| ==> before[k].level == L3;
      }
    }
  }

  /** L-002's twins agree on every input; its highest level is L3 exactly when a distance was checked
      and the reported minimum is at most the L3 threshold, and exactly when an L3 alert goes out. */
  method L002TwinsAgree(dataError: bool, ps: seq<Position>, l2: real, l3: real) returns (r: L002, alerts: seq<Alert>)
    ensures |alerts| == r.triggeredCount && (alerts != [] <==> r.triggered)
    ensures !dataError ==> (r.highest == L3 <==> r.checked > 0 && r.minDistance <= l3)
    ensures !dataError ==> (r.highest == L3 <==> exists k :: 0 <= k < |alerts| && alerts[k].level == L3)
  {
    r := EvalL002(dataError, ps, l2, l3);
    alerts := RuleL002(dataError, ps, l2, l3);
    OneAlertPerHit(ps, NearLiquidation(l2, l3), 0);
    if !dataError {
      L3IsMinimum(ps, NearLiquidation(l2, l3), r.minDistance, r.closest);
      L3IsAlerted(ps, NearLiquidation(l2, l3));
    }
  }

  // ---------------------------------------------------------------- L-003, auto-deleveraging rank

  datatype L003 = L003(skipReason: string, triggered: bool, checked: nat, triggeredCount: nat, maxAdl: int,
                       top: Option<Position>)

  /** `top` is the first of the positions with the highest rank and m that rank, or 0 without any. */
  ghost predicate IsMaxAdl(ps: seq<Position>, m: int, top: Option<Position>) {
    && IsTop(ps, HasAdl, top)
    && if top.None? then m == 0 else m == top.value.adl > 0
  }

  method EvalL003(dataError: bool, ps: seq<Position>, threshold: int) returns (r: L003)
    ensures dataError ==> r.skipReason == "data_error" && !r.triggered && r.triggeredCount == 0
    ensures !dataError ==>
              && r.triggeredCount == Count(ps, AdlHigh(threshold)) && r.checked == Count(ps, HasAdl)
              && (r.triggered <==> r.triggeredCount > 0)
              && IsMaxAdl(ps, r.maxAdl, r.top)
              && r.skipReason
                  == (if r.checked == 0 then "no_adl_data" else if r.triggered then "" else "below_threshold")
  {
    if dataError {
      return L003("data_error", false, 0, 0, 0, None);
    }
    var checked, count, maxAdl, top := 0, 0, 0, None;
    for i := 0 to |ps|
      invariant checked == Count(ps[..i], HasAdl) && count == Count(ps[..i], AdlHigh(threshold))
      invariant IsMaxAdl(ps[..i], maxAdl, top)
    {
      var p := ps[i];
      Prefix(ps, i);
      TopStep(ps[..i], p, HasAdl, top);
      if p.adl <= 0 {
        continue;
      }
      checked := checked + 1;
      if p.adl > maxAdl {
        maxAdl, top := p.adl, Some(p);
      }
      if p.adl >= threshold {
        count := count + 1;
      }
    }
    assert ps[..|ps|] == ps;
    r := L003(if checked == 0 then "no_adl_data" else if count > 0 then "" else "below_threshold",
              count > 0, checked, count, maxAdl, top);
  }

  lemma {:induction false} HighAdlIsAdl(ps: seq<Position>, threshold: int)
    ensures Count(ps, AdlHigh(threshold)) <= Count(ps, HasAdl)
  {
    if ps != [] {
      HighAdlIsAdl(ps[..|ps| - 1], threshold);
    }
  }

  method RuleL003(dataError: bool, ps: seq<Position>, threshold: int) returns (alerts: seq<Alert>)
    ensures alerts == if dataError then [] else Alerts(ps, AdlHigh(threshold), 0)
  {
    var result := EvalL003(dataError, ps, threshold);
    OneAlertPerHit(ps, AdlHigh(threshold), 0);
    HighAdlIsAdl(ps, threshold);
    alerts := [];
    if result.skipReason != "" || !result.triggered {
      return;
    }
    for i := 0 to |ps|
      invariant alerts == Alerts(ps[..i], AdlHigh(threshold), 0)
    {
      var p := ps[i];
      AlertsStep(ps, i, AdlHigh(threshold), 0);
      if p.adl <= 0 {
        continue;
      }
      if p.adl < threshold {
        continue;
      }
      alerts := alerts + [Alert(p.symbol, p.side, L2, 0)];
    }
    assert ps[..|ps|] == ps;
  }

  lemma TriggersAtMaximum(ps: seq<Position>, threshold: int, m: int, top: Option<Position>)
    requires IsMaxAdl(ps, m, top)
    ensures Count(ps, AdlHigh(threshold)) > 0 <==> Count(ps, HasAdl) > 0 && m >= threshold
  {
    CountIsPositiveIff(ps, AdlHigh(threshold));
    CountIsPositiveIff(ps, HasAdl);
    TopDecides(ps, HasAdl, top, threshold as real);
    if SomeReaches(ps, HasAdl, threshold as real) {
      var i :| 0 <= i < |ps| && Hit(ps[i], HasAdl) && Score(ps[i], HasAdl) >= threshold as real;
      assert Hit(ps[i], AdlHigh(threshold));
    }
    if SomeHit(ps, AdlHigh(threshold)) {
      var i :| 0 <= i < |ps| && Hit(ps[i], AdlHigh(threshold));
      assert Hit(ps[i], HasAdl) && Score(ps[i], HasAdl) >= threshold as real;
    }
  }

  /** L-003's twins agree on every input and, with any ADL data, it triggers exactly when the
      reported maximum reaches the threshold. */
  method L003TwinsAgree(dataError: bool, ps: seq<Position>, threshold: int) returns (r: L003, alerts: seq<Alert>)
    ensures |alerts| == r.triggeredCount && (alerts != [] <==> r.triggered)
    ensures !dataError ==> (r.triggered <==> r.checked > 0 && r.maxAdl >= threshold)
  {
    r := EvalL003(dataError, ps, threshold);
    alerts := RuleL003(dataError, ps, threshold);
    OneAlertPerHit(ps, AdlHigh(threshold), 0);
    if !dataError {
      TriggersAtMaximum(ps, threshold, r.maxAdl, r.top);
    }
  }

  // ---------------------------------------------------------------- E-008, funding cost

  /** Rates of the symbols that have one; a repeated symbol keeps its last non-zero entry. */
  function FundingOf(fs: seq<Funding>): Rates {
    if fs == [] then map[]
    else
      var l := fs[|fs| - 1];
      if l.rate != 0.0 then FundingOf(fs[..|fs| - 1])[l.symbol := l] else FundingOf(fs[..|fs| - 1])
  }

  method BuildFunding(fs: seq<Funding>) returns (m: Rates)
    ensures m == FundingOf(fs)
  {
    m := map[];
    for i := 0 to |fs|
      invariant m == FundingOf(fs[..i])
    {
      assert fs[..i + 1][..i] == fs[..i];
      if fs[i].rate != 0.0 {
        m := m[fs[i].symbol := fs[i]];
      }
    }
    assert fs[..|fs|] == fs;
  }

  datatype E008 = E008(skipReason: string, triggered: bool, paying: nat, triggeredCount: nat,
                       maxRate: real, maxCost: real, top: Option<Position>)

  /** `top` is the first of the paying positions with the highest annualized rate, m that rate and cost
      what it comes to on the position's notional; 0 without any. */
  ghost predicate IsMaxRate(ps: seq<Position>, rates: Rates, m: real, cost: real, top: Option<Position>) {
    && IsTop(ps, Pays(rates), top)
    && if top.None? then m == cost == 0.0
       else PaysFunding(top.value, rates) && m == Annualized(rates[top.value.symbol]) && cost == m * top.value.notional
  }

  lemma RatePositive(f: Funding)
    requires f.rate != 0.0
    ensures Annualized(f) > 0.0
  {
    var perYear := 8760.0 / Hours(f);
    assert perYear * Hours(f) == 8760.0;
    assert perYear > 0.0;
  }

  lemma RateStep(ps: seq<Position>, p: Position, rates: Rates, m: real, cost: real, top: Option<Position>)
    requires IsMaxRate(ps, rates, m, cost, top)
    ensures if PaysFunding(p, rates) && Annualized(rates[p.symbol]) > m
            then
              IsMaxRate(ps + [p], rates, Annualized(rates[p.symbol]), Annualized(rates[p.symbol]) * p.notional, Some(p))
            else IsMaxRate(ps + [p], rates, m, cost, top)
  {
    TopStep(ps, p, Pays(rates), top);
    if PaysFunding(p, rates) {
      RatePositive(rates[p.symbol]);
    }
  }

  method EvalE008(dataError: bool, fs: seq<Funding>, ps: seq<Position>, threshold: real) returns (r: E008)
    ensures dataError ==> r.skipReason == "data_error"
    ensures !dataError && fs == [] ==> r.skipReason == "no_funding_infos"
    ensures !dataError && fs != [] && ps == [] ==> r.skipReason == "no_positions"
    ensures dataError || fs == [] || ps == [] ==> !r.triggered && r.triggeredCount == 0
    ensures !dataError && fs != [] && ps != [] ==>
              && r.triggeredCount == Count(ps, Costly(FundingOf(fs), threshold))
              && r.paying == Count(ps, Pays(FundingOf(fs)))
              && (r.triggered <==> r.triggeredCount > 0)
              && IsMaxRate(ps, FundingOf(fs), r.maxRate, r.maxCost, r.top)
              && r.skipReason
                  == (if r.paying == 0 then "no_paying_positions" else if r.triggered then "" else "below_threshold")
  {
    if dataError {
      return E008("data_error", false, 0, 0, 0.0, 0.0, None);
    }
    if fs == [] {
      return E008("no_funding_infos", false, 0, 0, 0.0, 0.0, None);
    }
    if ps == [] {
      return E008("no_positions", false, 0, 0, 0.0, 0.0, None);
    }
    var m := BuildFunding(fs);
    var paying, count := 0, 0;
    var maxRate, maxCost, top := 0.0, 0.0, None;
    for i := 0 to |ps|
      invariant paying == Count(ps[..i], Pays(m)) && count == Count(ps[..i], Costly(m, threshold))
      invariant IsMaxRate(ps[..i], m, maxRate, maxCost, top)
    {
      var p := ps[i];
      Prefix(ps, i);
      RateStep(ps[..i], p, m, maxRate, maxCost, top);
      if !PaysFunding(p, m) {
        continue;
      }
      paying := paying + 1;
      var rate := Annualized(m[p.symbol]);
      if rate > maxRate {
        maxRate, maxCost, top := rate, Annualized(m[p.symbol]) * p.notional, Some(p);
      }
      if rate >= threshold {
        count := count + 1;
      }
    }
    assert ps[..|ps|] == ps;
    r := E008(if paying == 0 then "no_paying_positions" else if count > 0 then "" else "below_threshold",
              count > 0, paying, count, maxRate, maxCost, top);
  }

  lemma {:induction false} CostlyPays(ps: seq<Position>, m: Rates, threshold: real)
    ensures Count(ps, Costly(m, threshold)) <= Count(ps, Pays(m))
  {
    if ps != [] {
      CostlyPays(ps[..|ps| - 1], m, threshold);
    }
  }

  method RuleE008(dataError: bool, fs: seq<Funding>, ps: seq<Position>, threshold: real, cooldown: int)
      returns (alerts: seq<Alert>)
    ensures alerts == if dataError || fs == [] || ps == [] then []
                      else Alerts(ps, Costly(FundingOf(fs), threshold), cooldown)
  {
    var result := EvalE008(dataError, fs, ps, threshold);
    OneAlertPerHit(ps, Costly(FundingOf(fs), threshold), cooldown);
    CostlyPays(ps, FundingOf(fs), threshold);
    alerts := [];
    if result.skipReason != "" || !result.triggered {
      return;
    }
    var m := BuildFunding(fs);
    for i := 0 to |ps|
      invariant alerts == Alerts(ps[..i], Costly(m, threshold), cooldown)
    {
      var p := ps[i];
      AlertsStep(ps, i, Costly(m, threshold), cooldown);
      if !PaysFunding(p, m) {
        continue;
      }
      if Annualized(m[p.symbol]) < threshold {
        continue;
      }
      alerts := alerts + [Alert(p.symbol, p.side, L2, cooldown)];
    }
    assert ps[..|ps|] == ps;
  }

  lemma CostlyAtMaximum(ps: seq<Position>, rates: Rates, threshold: real, m: real, cost: real, top: Option<Position>)
    requires IsMaxRate(ps, rates, m, cost, top)
    ensures Count(ps, Costly(rates, threshold)) > 0 <==> Count(ps, Pays(rates)) > 0 && m >= threshold
  {
    var pays, costly := Pays(rates), Costly(rates, threshold);
    CountIsPositiveIff(ps, costly);
    CountIsPositiveIff(ps, pays);
    TopDecides(ps, pays, top, threshold);
    if SomeReaches(ps, pays, threshold) {
      var i :| 0 <= i < |ps| && Hit(ps[i], pays) && Score(ps[i], pays) >= threshold;
      assert Hit(ps[i], costly);
    }
    if SomeHit(ps, costly) {
      var i :| 0 <= i < |ps| && Hit(ps[i], costly);
      assert Hit(ps[i], pays) && Score(ps[i], pays) >= threshold;
    }
  }

  /** E-008's twins agree on every input and, with any paying position, it triggers exactly when the
      reported highest rate reaches the threshold. */
  method E008TwinsAgree(dataError: bool, fs: seq<Funding>, ps: seq<Position>, threshold: real, cooldown: int)
    returns (r: E008, alerts: seq<Alert>)
    ensures |alerts| == r.triggeredCount && (alerts != [] <==> r.triggered)
    ensures !dataError && fs != [] && ps != [] ==> (r.triggered <==> r.paying > 0 && r.maxRate >= threshold)
    ensures forall k | 0 <= k < |alerts| :: alerts[k].cooldownSeconds == cooldown && alerts[k].level == L2
  {
    r := EvalE008(dataError, fs, ps, threshold);
    alerts := RuleE008(dataError, fs, ps, threshold, cooldown);
    OneAlertPerHit(ps, Costly(FundingOf(fs), threshold), cooldown);
    AlertsCarry(ps, Costly(FundingOf(fs), threshold), cooldown);
    if !dataError && fs != [] && ps != [] {
      CostlyAtMaximum(ps, FundingOf(fs), threshold, r.maxRate, r.maxCost, r.top);
    }
  }

  lemma {:induction false} AlertsCarry(ps: seq<Position>, t: Test, cooldown: int)
    requires t.Costly?
    ensures forall k | 0 <= k < |Alerts(ps, t, cooldown)| ::
              Alerts(ps, t, cooldown)[k].cooldownSeconds == cooldown && Alerts(ps, t, cooldown)[k].level == L2
  {
    if ps != [] {
      AlertsCarry(ps[..|ps| - 1], t, cooldown);
    }
  }

  // ---------------------------------------------------------------- the tests in prices and rates

  lemma DistanceWithin(p: Position, t: real)
    requires p.markPrice > 0.0
    ensures Distance(p) <= t <==> p.markPrice - t * p.markPrice <= p.liqPrice <= p.markPrice + t * p.markPrice
  {
    var d := Distance(p);
    assert d * p.markPrice == AbsReal(p.liqPrice - p.markPrice);
    if d <= t {
      assert (t - d) * p.markPrice >= 0.0;
    } else {
      assert (d - t) * p.markPrice > 0.0;
    }
  }

  /** Within a share t of the mark price, on either side. */
  predicate Within(p: Position, t: real) {
    p.markPrice - t * p.markPrice <= p.liqPrice <= p.markPrice + t * p.markPrice
  }

  /** L-002 in prices: a position counts when it has both prices, L3 within l3 of the mark price on
      either side, else L2 within l2 of it. */
  lemma LevelIs(p: Position, l2: real, l3: real)
    ensures LevelOf(p, NearLiquidation(l2, l3))
            == if p.liqPrice <= 0.0 || p.markPrice <= 0.0 then NoLevel
               else if Within(p, l3) then L3 else if Within(p, l2) then L2 else NoLevel
    ensures Hit(p, NearLiquidation(l2, l3))
            <==> p.liqPrice > 0.0 && p.markPrice > 0.0 && (Within(p, l2) || Within(p, l3))
  {
    if p.markPrice > 0.0 {
      DistanceWithin(p, l3);
      DistanceWithin(p, l2);
    }
  }

  /** The last entry with a rate for the symbol is at i. */
  ghost predicate LastRate(fs: seq<Funding>, symbol: string, i: int) {
    && 0 <= i < |fs| && fs[i].symbol == symbol && fs[i].rate != 0.0
    && forall j | i < j < |fs| && fs[j].symbol == symbol :: fs[j].rate == 0.0
  }

  lemma {:induction false} FundingIs(fs: seq<Funding>, symbol: string)
    ensures symbol in FundingOf(fs) <==> exists i :: LastRate(fs, symbol, i)
    ensures forall i | LastRate(fs, symbol, i) :: symbol in FundingOf(fs) && FundingOf(fs)[symbol] == fs[i]
  {
    if fs != [] {
      var n := |fs| - 1;
      var front := fs[..n];
      FundingIs(front, symbol);
      if fs[n].symbol == symbol && fs[n].rate != 0.0 {
        assert LastRate(fs, symbol, n);
      } else {
        assert forall i :: LastRate(front, symbol, i) <==> LastRate(fs, symbol, i);
      }
    }
  }

  /** A position pays exactly when the last rate of its symbol has its quantity's sign. */
  lemma PaysIff(p: Position, fs: seq<Funding>)
    ensures PaysFunding(p, FundingOf(fs)) <==> exists i :: LastRate(fs, p.symbol, i) && p.quantity * fs[i].rate > 0.0
  {
    FundingIs(fs, p.symbol);
    if i :| LastRate(fs, p.symbol, i) {
      SameSign(p.quantity, fs[i].rate);
    }
  }

  lemma SameSign(x: real, y: real)
    ensures x * y > 0.0 <==> (x > 0.0 && y > 0.0) || (x < 0.0 && y < 0.0)
  {
  }

  /** The yearly rate reaches a threshold exactly when the rate times the hours of a year reaches it
      times the hours between settlements, eight without an interval. */
  lemma YearlyReaches(f: Funding, threshold: real)
    ensures Annualized(f) >= threshold
            <==> if f.interval <= 0 then AbsReal(f.rate) * 8760.0 >= threshold * 8.0
                 else AbsReal(f.rate) * 8760.0 * 3600000.0 >= threshold * f.interval as real
  {
    var h := Hours(f);
    var perYear := 8760.0 / h;
    assert perYear * h == 8760.0;
    var r := AbsReal(f.rate);
    assert Annualized(f) * h == r * 8760.0 by {
      assert r * perYear * h == r * (perYear * h);
    }
    TimesOrder(Annualized(f), threshold, h);
    if f.interval > 0 {
      assert h * 3600000.0 == f.interval as real;
      TimesOrder(r * 8760.0, threshold * h, 3600000.0);
      assert threshold * h * 3600000.0 == threshold * (h * 3600000.0);
    }
  }

  lemma TimesOrder(x: real, y: real, d: real)
    requires d > 0.0
    ensures x >= y <==> x * d >= y * d
  {
    if x >= y {
      assert (x - y) * d >= 0.0;
    } else {
      assert (y - x) * d > 0.0;
    }
  }

  /** The highest level is L2 or more exactly when some position is within a threshold. */
  lemma {:induction false} HighestIsNoneIff(ps: seq<Position>, t: Test)
    requires t.NearLiquidation?
    ensures Highest(ps, t) == NoLevel <==> !SomeHit(ps, t)
  {
    if ps != [] {
      var n := |ps| - 1;
      HighestIsNoneIff(ps[..n], t);
      if i :| 0 <= i < n && Hit(ps[..n][i], t) {
        assert Hit(ps[i], t);
      }
      if Hit(ps[n], t) {
        assert SomeHit(ps, t);
      } else if i :| 0 <= i < |ps| && Hit(ps[i], t) {
        assert Hit(ps[..n][i], t);
      }
    }
  }
}
