/** Where a threshold comes from: a database row over the configuration file over the program's
    own default, merged again at every reload. */
module ConfigMerge {
  import opened Prelude
  import opened RuleCodes

  /** The numeric thresholds of RulesConfig. */
  datatype Field =
    | MarginRatio | UniMMR | DeltaRate | DeltaAbs | PositionChange | FundingInterval | FundingIntervalCooldown
    | DataGap | LiqL2 | LiqL3 | AdlL2 | FundingAnnual | FundingCooldown | ApiLatency | ApiErrorRate
    | JumpWindow | JumpThreshold | JumpCooldown | CooldownTTL

  // The struct's numeric fields, grouped by concern; integer fields hold whole numbers.
  datatype AccountLimits = AccountLimits(marginRatio: real, uniMMR: real)
  datatype ExposureLimits = ExposureLimits(deltaRate: real, deltaAbs: real, positionChange: real)
  datatype PositionLimits = PositionLimits(liqL2: real, liqL3: real, adlL2: real)
  datatype FundingLimits = FundingLimits(interval: real, intervalCooldown: real, annual: real, cooldown: real)
  datatype SystemLimits = SystemLimits(dataGap: real, apiLatency: real, apiErrorRate: real, cooldownTTL: real)
  datatype MarketLimits = MarketLimits(jumpWindow: real, jumpThreshold: real, jumpCooldown: real)

  datatype Scalars = Scalars(
    account: AccountLimits, exposure: ExposureLimits, position: PositionLimits,
    funding: FundingLimits, system: SystemLimits, market: MarketLimits)

  function Get(s: Scalars, f: Field): real {
    match f
    case MarginRatio => s.account.marginRatio
    case UniMMR => s.account.uniMMR
    case DeltaRate => s.exposure.deltaRate
    case DeltaAbs => s.exposure.deltaAbs
    case PositionChange => s.exposure.positionChange
    case LiqL2 => s.position.liqL2
    case LiqL3 => s.position.liqL3
    case AdlL2 => s.position.adlL2
    case FundingInterval => s.funding.interval
    case FundingIntervalCooldown => s.funding.intervalCooldown
    case FundingAnnual => s.funding.annual
    case FundingCooldown => s.funding.cooldown
    case DataGap => s.system.dataGap
    case ApiLatency => s.system.apiLatency
    case ApiErrorRate => s.system.apiErrorRate
    case CooldownTTL => s.system.cooldownTTL
    case JumpWindow => s.market.jumpWindow
    case JumpThreshold => s.market.jumpThreshold
    case JumpCooldown => s.market.jumpCooldown
  }

  function HardDefault(f: Field): (v: real)
    ensures v != 0.0
  {
    match f
    case MarginRatio => 0.5
    case UniMMR => 1.5
    case DeltaRate => 0.3
    case DeltaAbs => 5000.0
    case PositionChange => 50000.0
    case FundingInterval => 28800000.0
    case FundingIntervalCooldown => 3600.0
    case DataGap => 30.0
    case LiqL2 => 0.05
    case LiqL3 => 0.02
    case AdlL2 => 4.0
    case FundingAnnual => 0.25
    case FundingCooldown => 1800.0
    case ApiLatency => 2000.0
    case ApiErrorRate => 0.1
    case JumpWindow => 60.0
    case JumpThreshold => 0.10
    case JumpCooldown => 600.0
    case CooldownTTL => 300.0
  }

  /** The row that can set a field; nobody's row sets the cooldown. */
  function CodeOf(f: Field): Option<Code> {
    match f
    case MarginRatio | UniMMR => Some(L001)
    case DeltaRate | DeltaAbs => Some(E001)
    case PositionChange => Some(E005)
    case FundingInterval | FundingIntervalCooldown => Some(E008c)
    case DataGap => Some(S004)
    case LiqL2 | LiqL3 => Some(L002)
    case AdlL2 => Some(L003)
    case FundingAnnual | FundingCooldown => Some(E008)
    case ApiLatency | ApiErrorRate => Some(S014)
    case JumpWindow | JumpThreshold | JumpCooldown => Some(M001)
    case CooldownTTL => None
  }

  function KeyOf(f: Field): string {
    match f
    case MarginRatio => "margin_ratio_threshold"
    case UniMMR => "pm_unimmr_threshold"
    case DeltaRate => "delta_change_rate_threshold"
    case DeltaAbs => "delta_abs_threshold"
    case PositionChange => "position_change_threshold"
    case FundingInterval => "expected_funding_interval"
    case FundingIntervalCooldown => "funding_interval_alert_cooldown"
    case DataGap => "data_gap_threshold"
    case LiqL2 => "liq_distance_l2_threshold"
    case LiqL3 => "liq_distance_l3_threshold"
    case AdlL2 => "adl_quantile_l2_threshold"
    case FundingAnnual => "funding_rate_annualized_l2"
    case FundingCooldown => "funding_rate_cooldown"
    case ApiLatency => "api_latency_threshold_ms"
    case ApiErrorRate => "api_error_rate_threshold"
    case JumpWindow => "price_jump_window_minutes"
    case JumpThreshold => "price_jump_threshold"
    case JumpCooldown => "price_jump_cooldown"
    case CooldownTTL => "cooldown_ttl"
  }

  predicate IsInteger(f: Field) {
    f.FundingInterval? || f.FundingIntervalCooldown? || f.DataGap? || f.AdlL2? || f.FundingCooldown?
    || f.JumpWindow? || f.JumpCooldown? || f.CooldownTTL?
  }

  /** Conversion to an integer drops the fraction, towards zero. */
  function Truncate(v: real): real {
    if v >= 0.0 then v.Floor as real else -((-v).Floor as real)
  }

  function Stored(f: Field, v: real): real {
    if IsInteger(f) then Truncate(v) else v
  }

  /** A JSON value; `duration` is what a text says as a duration, in milliseconds, if it does. */
  datatype Json = Number(n: real) | Text(duration: Option<int>) | Flag(b: bool) | OtherJson

  datatype Row = Row(code: Code, config: map<string, Json>)

  predicate IsNumber(config: map<string, Json>, key: string) {
    key in config && config[key].Number?
  }

  function GetFloat(config: map<string, Json>, key: string): Option<real> {
    if IsNumber(config, key) then Some(config[key].n) else None
  }

  /** What a row says about a field. */
  function Says(r: Row, f: Field): Option<real> {
    if CodeOf(f) == Some(r.code) && GetFloat(r.config, KeyOf(f)).Some?
    then Some(Stored(f, GetFloat(r.config, KeyOf(f)).value)) else None
  }

  function IntervalIn(config: map<string, Json>): Option<int> {
    if "evaluation_interval" in config && config["evaluation_interval"].Text? then
      match config["evaluation_interval"].duration
      case Some(d) => if d > 0 then Some(d) else None
      case None => None
    else None
  }

  // ---------------------------------------------------------------- merging, on values

  /** A field after one row, and after several in order. */
  function AfterRow(r: Row, f: Field, v: real): real {
    Says(r, f).GetOr(v)
  }

  function AfterRows(rows: seq<Row>, f: Field, v: real): real {
    if rows == [] then v else AfterRow(rows[|rows| - 1], f, AfterRows(rows[..|rows| - 1], f, v))
  }

  function Fill(f: Field, v: real): real {
    if v == 0.0 then HardDefault(f) else v
  }

  /** The status alert after a row: only L-001's row can set it. */
  function FlagAfter(r: Row, alert: bool): bool {
    if r.code == L001 && "pm_status_alert" in r.config && r.config["pm_status_alert"].Flag?
    then r.config["pm_status_alert"].b else alert
  }

  type Intervals = map<Code, int>

  function IntervalApplied(m: Intervals, r: Row): Intervals {
    if IntervalIn(r.config).Some? then m[r.code := IntervalIn(r.config).value] else m
  }

  function IntervalsApplied(m: Intervals, rows: seq<Row>): Intervals {
    if rows == [] then m else IntervalApplied(IntervalsApplied(m, rows[..|rows| - 1]), rows[|rows| - 1])
  }

  /** The threshold a reload arrives at, from the configuration file's value `v`; `ttl` is the global
      cooldown setting, if there is one. */
  function Merged(rows: seq<Row>, ttl: Option<int>, f: Field, v: real): real {
    if f == CooldownTTL && ttl.Some? && ttl.value > 0 then ttl.value as real else Fill(f, AfterRows(rows, f, v))
  }

  // ---------------------------------------------------------------- merging, all fields at once

  function AccountAfter(x: AccountLimits, r: Row): AccountLimits {
    AccountLimits(AfterRow(r, MarginRatio, x.marginRatio), AfterRow(r, UniMMR, x.uniMMR))
  }

  function ExposureAfter(x: ExposureLimits, r: Row): ExposureLimits {
    ExposureLimits(AfterRow(r, DeltaRate, x.deltaRate), AfterRow(r, DeltaAbs, x.deltaAbs),
                   AfterRow(r, PositionChange, x.positionChange))
  }

  function PositionAfter(x: PositionLimits, r: Row): PositionLimits {
    PositionLimits(AfterRow(r, LiqL2, x.liqL2), AfterRow(r, LiqL3, x.liqL3), AfterRow(r, AdlL2, x.adlL2))
  }

  function FundingAfter(x: FundingLimits, r: Row): FundingLimits {
    FundingLimits(AfterRow(r, FundingInterval, x.interval),
                  AfterRow(r, FundingIntervalCooldown, x.intervalCooldown), AfterRow(r, FundingAnnual, x.annual),
                  AfterRow(r, FundingCooldown, x.cooldown))
  }

  function SystemAfter(x: SystemLimits, r: Row): SystemLimits {
    SystemLimits(AfterRow(r, DataGap, x.dataGap), AfterRow(r, ApiLatency, x.apiLatency),
                 AfterRow(r, ApiErrorRate, x.apiErrorRate), AfterRow(r, CooldownTTL, x.cooldownTTL))
  }

  function MarketAfter(x: MarketLimits, r: Row): MarketLimits {
    MarketLimits(AfterRow(r, JumpWindow, x.jumpWindow), AfterRow(r, JumpThreshold, x.jumpThreshold),
                 AfterRow(r, JumpCooldown, x.jumpCooldown))
  }

  function RowApplied(s: Scalars, r: Row): Scalars {
    Scalars(AccountAfter(s.account, r), ExposureAfter(s.exposure, r), PositionAfter(s.position, r),
            FundingAfter(s.funding, r), SystemAfter(s.system, r), MarketAfter(s.market, r))
  }

  function Overlaid(s: Scalars, rows: seq<Row>): Scalars {
    if rows == [] then s else RowApplied(Overlaid(s, rows[..|rows| - 1]), rows[|rows| - 1])
  }

  function FilledAccount(x: AccountLimits): AccountLimits {
    AccountLimits(Fill(MarginRatio, x.marginRatio), Fill(UniMMR, x.uniMMR))
  }

  function FilledExposure(x: ExposureLimits): ExposureLimits {
    ExposureLimits(Fill(DeltaRate, x.deltaRate), Fill(DeltaAbs, x.deltaAbs), Fill(PositionChange, x.positionChange))
  }

  function FilledPosition(x: PositionLimits): PositionLimits {
    PositionLimits(Fill(LiqL2, x.liqL2), Fill(LiqL3, x.liqL3), Fill(AdlL2, x.adlL2))
  }

  function FilledFunding(x: FundingLimits): FundingLimits {
    FundingLimits(Fill(FundingInterval, x.interval), Fill(FundingIntervalCooldown, x.intervalCooldown),
                  Fill(FundingAnnual, x.annual), Fill(FundingCooldown, x.cooldown))
  }

  function FilledSystem(x: SystemLimits): SystemLimits {
    SystemLimits(Fill(DataGap, x.dataGap), Fill(ApiLatency, x.apiLatency), Fill(ApiErrorRate, x.apiErrorRate),
                 Fill(CooldownTTL, x.cooldownTTL))
  }

  function FilledMarket(x: MarketLimits): MarketLimits {
    MarketLimits(Fill(JumpWindow, x.jumpWindow), Fill(JumpThreshold, x.jumpThreshold),
                 Fill(JumpCooldown, x.jumpCooldown))
  }

  function Filled(s: Scalars): Scalars {
    Scalars(FilledAccount(s.account), FilledExposure(s.exposure), FilledPosition(s.position),
            FilledFunding(s.funding), FilledSystem(s.system), FilledMarket(s.market))
  }

  function Built(s: Scalars, rows: seq<Row>): Scalars {
    Filled(Overlaid(s, rows))
  }

  function WithCooldown(s: Scalars, ttl: Option<int>): Scalars {
    if ttl.Some? && ttl.value > 0 then s.(system := s.system.(cooldownTTL := ttl.value as real)) else s
  }

  function Reloaded(s: Scalars, rows: seq<Row>, ttl: Option<int>): Scalars {
    WithCooldown(Built(s, rows), ttl)
  }

  lemma AccountAppliedAt(s: Scalars, s': Scalars, r: Row, f: Field)
    requires f.MarginRatio? || f.UniMMR?
    requires s'.account == AccountAfter(s.account, r)
    ensures Get(s', f) == AfterRow(r, f, Get(s, f))
  {
  }

  lemma ExposureAppliedAt(s: Scalars, s': Scalars, r: Row, f: Field)
    requires f.DeltaRate? || f.DeltaAbs? || f.PositionChange?
    requires s'.exposure == ExposureAfter(s.exposure, r)
    ensures Get(s', f) == AfterRow(r, f, Get(s, f))
  {
  }

  lemma PositionAppliedAt(s: Scalars, s': Scalars, r: Row, f: Field)
    requires f.LiqL2? || f.LiqL3? || f.AdlL2?
    requires s'.position == PositionAfter(s.position, r)
    ensures Get(s', f) == AfterRow(r, f, Get(s, f))
  {
  }

  lemma FundingAppliedAt(s: Scalars, s': Scalars, r: Row, f: Field)
    requires f.FundingInterval? || f.FundingIntervalCooldown? || f.FundingAnnual? || f.FundingCooldown?
    requires s'.funding == FundingAfter(s.funding, r)
    ensures Get(s', f) == AfterRow(r, f, Get(s, f))
  {
  }

  lemma SystemAppliedAt(s: Scalars, s': Scalars, r: Row, f: Field)
    requires f.DataGap? || f.ApiLatency? || f.ApiErrorRate? || f.CooldownTTL?
    requires s'.system == SystemAfter(s.system, r)
    ensures Get(s', f) == AfterRow(r, f, Get(s, f))
  {
  }

  lemma MarketAppliedAt(s: Scalars, s': Scalars, r: Row, f: Field)
    requires f.JumpWindow? || f.JumpThreshold? || f.JumpCooldown?
    requires s'.market == MarketAfter(s.market, r)
    ensures Get(s', f) == AfterRow(r, f, Get(s, f))
  {
  }

  lemma RowAppliedAt(s: Scalars, r: Row, f: Field)
    ensures Get(RowApplied(s, r), f) == AfterRow(r, f, Get(s, f))
  {
    var s' := RowApplied(s, r);
    match f
    case MarginRatio | UniMMR => AccountAppliedAt(s, s', r, f);
    case DeltaRate | DeltaAbs | PositionChange => ExposureAppliedAt(s, s', r, f);
    case LiqL2 | LiqL3 | AdlL2 => PositionAppliedAt(s, s', r, f);
    case FundingInterval | FundingIntervalCooldown | FundingAnnual | FundingCooldown => FundingAppliedAt(s, s', r, f);
    case DataGap | ApiLatency | ApiErrorRate | CooldownTTL => SystemAppliedAt(s, s', r, f);
    case JumpWindow | JumpThreshold | JumpCooldown => MarketAppliedAt(s, s', r, f);
  }

  lemma {:induction false} OverlaidAt(s: Scalars, rows: seq<Row>, f: Field)
    ensures Get(Overlaid(s, rows), f) == AfterRows(rows, f, Get(s, f))
  {
    if rows != [] {
      OverlaidAt(s, rows[..|rows| - 1], f);
      RowAppliedAt(Overlaid(s, rows[..|rows| - 1]), rows[|rows| - 1], f);
    }
  }

  lemma FilledAt(s: Scalars, f: Field)
    ensures Get(Filled(s), f) == Fill(f, Get(s, f))
  {
  }

  /** Every threshold of a reload is the merge of the three sources for that field alone. */
  lemma ReloadedIsMerged(s: Scalars, rows: seq<Row>, ttl: Option<int>, f: Field)
    ensures Get(Reloaded(s, rows, ttl), f) == Merged(rows, ttl, f, Get(s, f))
  {
    OverlaidAt(s, rows, f);
    FilledAt(Overlaid(s, rows), f);
  }

  // ---------------------------------------------------------------- merging, in place

  // ApplyDefaults' assignments, concern by concern.

  method FillAccount(x: AccountLimits) returns (y: AccountLimits)
    ensures y == FilledAccount(x)
  {
    y := x;
    if y.marginRatio == 0.0 {
      y := y.(marginRatio := 0.5);
    }
    if y.uniMMR == 0.0 {
      y := y.(uniMMR := 1.5);
    }
  }

  method FillExposure(x: ExposureLimits) returns (y: ExposureLimits)
    ensures y == FilledExposure(x)
  {
    y := x;
    if y.deltaRate == 0.0 {
      y := y.(deltaRate := 0.3);
    }
    if y.deltaAbs == 0.0 {
      y := y.(deltaAbs := 5000.0);
    }
    if y.positionChange == 0.0 {
      y := y.(positionChange := 50000.0);
    }
  }

  method FillPosition(x: PositionLimits) returns (y: PositionLimits)
    ensures y == FilledPosition(x)
  {
    y := x;
    if y.liqL2 == 0.0 {
      y := y.(liqL2 := 0.05);
    }
    if y.liqL3 == 0.0 {
      y := y.(liqL3 := 0.02);
    }
    if y.adlL2 == 0.0 {
      y := y.(adlL2 := 4.0);
    }
  }

  method FillFunding(x: FundingLimits) returns (y: FundingLimits)
    ensures y == FilledFunding(x)
  {
    y := x;
    if y.interval == 0.0 {
      y := y.(interval := 28800000.0);
    }
    if y.intervalCooldown == 0.0 {
      y := y.(intervalCooldown := 3600.0);
    }
    if y.annual == 0.0 {
      y := y.(annual := 0.25);
    }
    if y.cooldown == 0.0 {
      y := y.(cooldown := 1800.0);
    }
  }

  method FillSystem(x: SystemLimits) returns (y: SystemLimits)
    ensures y == FilledSystem(x)
  {
    y := x;
    if y.dataGap == 0.0 {
      y := y.(dataGap := 30.0);
    }
    if y.apiLatency == 0.0 {
      y := y.(apiLatency := 2000.0);
    }
    if y.apiErrorRate == 0.0 {
      y := y.(apiErrorRate := 0.1);
    }
    if y.cooldownTTL == 0.0 {
      y := y.(cooldownTTL := 300.0);
    }
  }

  method FillMarket(x: MarketLimits) returns (y: MarketLimits)
    ensures y == FilledMarket(x)
  {
    y := x;
    if y.jumpWindow == 0.0 {
      y := y.(jumpWindow := 60.0);
    }
    if y.jumpThreshold == 0.0 {
      y := y.(jumpThreshold := 0.10);
    }
    if y.jumpCooldown == 0.0 {
      y := y.(jumpCooldown := 600.0);
    }
  }

  // The cases of the switch over rule codes, concern by concern.

  method TakeAccount(x: AccountLimits, r: Row) returns (y: AccountLimits)
    ensures y == AccountAfter(x, r)
  {
    y := x;
    match r.code
    case L001 =>
      if IsNumber(r.config, "margin_ratio_threshold") {
        y := y.(marginRatio := r.config["margin_ratio_threshold"].n);
      }
      if IsNumber(r.config, "pm_unimmr_threshold") {
        y := y.(uniMMR := r.config["pm_unimmr_threshold"].n);
      }
    case _ =>
  }

  method TakeExposure(x: ExposureLimits, r: Row) returns (y: ExposureLimits)
    ensures y == ExposureAfter(x, r)
  {
    y := x;
    match r.code
    case E001 =>
      if IsNumber(r.config, "delta_change_rate_threshold") {
        y := y.(deltaRate := r.config["delta_change_rate_threshold"].n);
      }
      if IsNumber(r.config, "delta_abs_threshold") {
        y := y.(deltaAbs := r.config["delta_abs_threshold"].n);
      }
    case E005 =>
      if IsNumber(r.config, "position_change_threshold") {
        y := y.(positionChange := r.config["position_change_threshold"].n);
      }
    case _ =>
  }

  method TakePosition(x: PositionLimits, r: Row) returns (y: PositionLimits)
    ensures y == PositionAfter(x, r)
  {
    y := x;
    match r.code
    case L002 =>
      if IsNumber(r.config, "liq_distance_l2_threshold") {
        y := y.(liqL2 := r.config["liq_distance_l2_threshold"].n);
      }
      if IsNumber(r.config, "liq_distance_l3_threshold") {
        y := y.(liqL3 := r.config["liq_distance_l3_threshold"].n);
      }
    case L003 =>
      if IsNumber(r.config, "adl_quantile_l2_threshold") {
        y := y.(adlL2 := Truncate(r.config["adl_quantile_l2_threshold"].n));
      }
    case _ =>
  }

  method TakeFunding(x: FundingLimits, r: Row) returns (y: FundingLimits)
    ensures y == FundingAfter(x, r)
  {
    y := x;
    match r.code
    case E008c =>
      if IsNumber(r.config, "expected_funding_interval") {
        y := y.(interval := Truncate(r.config["expected_funding_interval"].n));
      }
      if IsNumber(r.config, "funding_interval_alert_cooldown") {
        y := y.(intervalCooldown := Truncate(r.config["funding_interval_alert_cooldown"].n));
      }
    case E008 =>
      if IsNumber(r.config, "funding_rate_annualized_l2") {
        y := y.(annual := r.config["funding_rate_annualized_l2"].n);
      }
      if IsNumber(r.config, "funding_rate_cooldown") {
        y := y.(cooldown := Truncate(r.config["funding_rate_cooldown"].n));
      }
    case _ =>
  }

  method TakeSystem(x: SystemLimits, r: Row) returns (y: SystemLimits)
    ensures y == SystemAfter(x, r)
  {
    y := x;
    match r.code
    case S004 => y := TakeDataGap(x, r);
    case S014 => y := TakeApiHealth(x, r);
    case _ =>
  }

  method TakeDataGap(x: SystemLimits, r: Row) returns (y: SystemLimits)
    requires r.code == S004
    ensures y == SystemAfter(x, r)
  {
    y := x;
    if IsNumber(r.config, "data_gap_threshold") {
      y := y.(dataGap := Truncate(r.config["data_gap_threshold"].n));
    }
  }

  method TakeApiHealth(x: SystemLimits, r: Row) returns (y: SystemLimits)
    requires r.code == S014
    ensures y == SystemAfter(x, r)
  {
    y := x;
    if IsNumber(r.config, "api_latency_threshold_ms") {
      y := y.(apiLatency := r.config["api_latency_threshold_ms"].n);
    }
    if IsNumber(r.config, "api_error_rate_threshold") {
      y := y.(apiErrorRate := r.config["api_error_rate_threshold"].n);
    }
  }

  method TakeMarket(x: MarketLimits, r: Row) returns (y: MarketLimits)
    ensures y == MarketAfter(x, r)
  {
    y := x;
    match r.code
    case M001 =>
      if IsNumber(r.config, "price_jump_window_minutes") {
        y := y.(jumpWindow := Truncate(r.config["price_jump_window_minutes"].n));
      }
      if IsNumber(r.config, "price_jump_threshold") {
        y := y.(jumpThreshold := r.config["price_jump_threshold"].n);
      }
      if IsNumber(r.config, "price_jump_cooldown") {
        y := y.(jumpCooldown := Truncate(r.config["price_jump_cooldown"].n));
      }
    case _ =>
  }

  /** The per-rule evaluation intervals; configurations hold a reference to a table. */
  class IntervalTable {
    var m: Intervals

    constructor ()
      ensures m == map[]
    {
      m := map[];
    }
  }

  class RulesConfig {
    var scalars: Scalars
    var pmStatusAlert: bool
    var intervals: IntervalTable?

    constructor (scalars: Scalars, pmStatusAlert: bool, intervals: IntervalTable?)
      ensures this.scalars == scalars && this.pmStatusAlert == pmStatusAlert && this.intervals == intervals
    {
      this.scalars, this.pmStatusAlert, this.intervals := scalars, pmStatusAlert, intervals;
    }

    /** Fills what is zero, turns the status alert on, and makes sure there is a table. */
    method ApplyDefaults()
      modifies this
      ensures scalars == Filled(old(scalars)) && pmStatusAlert
      ensures if old(intervals) != null then intervals == old(intervals) else fresh(intervals) && intervals.m == map[]
    {
      if intervals == null {
        intervals := new IntervalTable();
      }
      var account := FillAccount(scalars.account);
      if !pmStatusAlert {
        pmStatusAlert := true;
      }
      var exposure := FillExposure(scalars.exposure);
      var position := FillPosition(scalars.position);
      var funding := FillFunding(scalars.funding);
      var system := FillSystem(scalars.system);
      var market := FillMarket(scalars.market);
      scalars := Scalars(account, exposure, position, funding, system, market);
    }

    /** The table a merge writes to. */
    ghost function Table(): set<object>
      reads this
    {
      if intervals != null then {intervals} else {}
    }

    method ApplyRow(r: Row)
      requires intervals != null
      modifies this`scalars, this`pmStatusAlert, intervals
      ensures scalars == RowApplied(old(scalars), r) && pmStatusAlert == FlagAfter(r, old(pmStatusAlert))
      ensures intervals.m == IntervalApplied(old(intervals.m), r)
    {
      var interval := IntervalIn(r.config);
      if interval.Some? {
        intervals.m := intervals.m[r.code := interval.value];
      }
      var account := TakeAccount(scalars.account, r);
      var exposure := TakeExposure(scalars.exposure, r);
      var position := TakePosition(scalars.position, r);
      var funding := TakeFunding(scalars.funding, r);
      var system := TakeSystem(scalars.system, r);
      var market := TakeMarket(scalars.market, r);
      scalars := Scalars(account, exposure, position, funding, system, market);
      if r.code == L001 && "pm_status_alert" in r.config && r.config["pm_status_alert"].Flag? {
        pmStatusAlert := r.config["pm_status_alert"].b;
      }
    }
  }

  /** A copy of the defaults' fields, sharing their interval table, overlaid by the rows in order.
      The defaults' thresholds stay what they were; their interval table does not. */
  method BuildRulesConfig(rows: seq<Row>, defaults: RulesConfig) returns (cfg: RulesConfig)
    modifies defaults.Table()
    ensures fresh(cfg) && cfg.pmStatusAlert
    ensures cfg.scalars == Built(defaults.scalars, rows)
    ensures cfg.intervals != null
            && if defaults.intervals != null then cfg.intervals == defaults.intervals else fresh(cfg.intervals)
    ensures cfg.intervals.m
            == IntervalsApplied(if defaults.intervals != null then old(defaults.intervals.m) else map[], rows)
  {
    cfg := new RulesConfig(defaults.scalars, defaults.pmStatusAlert, defaults.intervals);
    if cfg.intervals == null {
      cfg.intervals := new IntervalTable();
    }
    ghost var start := cfg.intervals.m;
    ghost var table := cfg.intervals;
    for i := 0 to |rows|
      invariant cfg.intervals == table
      invariant cfg.scalars == Overlaid(defaults.scalars, rows[..i])
      invariant table.m == IntervalsApplied(start, rows[..i])
    {
      assert rows[..i + 1][..i] == rows[..i];
      cfg.ApplyRow(rows[i]);
    }
    assert rows[..|rows|] == rows;
    cfg.ApplyDefaults();
  }

  /** The global cooldown setting, when it reads as a positive number. */
  method ApplyGlobalConfig(cfg: RulesConfig, ttl: Option<int>)
    modifies cfg`scalars
    ensures cfg.scalars == WithCooldown(old(cfg.scalars), ttl)
  {
    if ttl.Some? && ttl.value > 0 {
      cfg.scalars := cfg.scalars.(system := cfg.scalars.system.(cooldownTTL := ttl.value as real));
    }
  }

  function Codes(rows: seq<Row>): set<Code> {
    set r | r in rows :: r.code
  }

  /** The known rules that have a row, in the program's order. */
  function Kept(all: seq<Code>, enabled: set<Code>): seq<Code> {
    if all == [] then []
    else Kept(all[..|all| - 1], enabled) + if all[|all| - 1] in enabled then [all[|all| - 1]] else []
  }

  method FilterRulesByDB(all: seq<Code>, rows: seq<Row>) returns (filtered: seq<Code>)
    ensures filtered == Kept(all, Codes(rows))
  {
    var enabled := {};
    for i := 0 to |rows|
      invariant enabled == Codes(rows[..i])
    {
      enabled := enabled + {rows[i].code};
    }
    assert rows[..|rows|] == rows;
    filtered := [];
    for i := 0 to |all|
      invariant filtered == Kept(all[..i], enabled)
    {
      assert all[..i + 1][..i] == all[..i];
      if all[i] in enabled {
        filtered := filtered + [all[i]];
      }
    }
    assert all[..|all|] == all;
  }

  datatype Loaded<T> = LoadError | Loaded(value: T)

  /** A reload: fails without touching anything when the rules cannot be read; a failure to read the
      global settings only leaves the cooldown as the rows and defaults have it. */
  method ReloadRulesFromDB(rows: Loaded<seq<Row>>, globals: Loaded<Option<int>>, defaults: RulesConfig)
    returns (rules: seq<Code>, cfg: RulesConfig?)
    modifies defaults.Table()
    ensures rows.LoadError? ==> cfg == null
    ensures rows.LoadError? && defaults.intervals != null ==> defaults.intervals.m == old(defaults.intervals.m)
    ensures rows.Loaded? ==>
              && cfg != null && fresh(cfg)
              && rules == Kept(ALL_RULES, Codes(rows.value))
              && cfg.scalars == Reloaded(defaults.scalars, rows.value, if globals.Loaded? then globals.value else None)
              && cfg.intervals != null && (defaults.intervals != null ==> cfg.intervals == defaults.intervals)
    ensures rows.Loaded? && defaults.intervals != null ==>
              defaults.intervals.m == IntervalsApplied(old(defaults.intervals.m), rows.value)
  {
    if rows.LoadError? {
      return [], null;
    }
    var ttl := if globals.Loaded? then globals.value else None;
    cfg := BuildWithGlobals(rows.value, ttl, defaults);
    rules := FilterRulesByDB(ALL_RULES, rows.value);
  }

  method BuildWithGlobals(rows: seq<Row>, ttl: Option<int>, defaults: RulesConfig) returns (cfg: RulesConfig)
    modifies defaults.Table()
    ensures fresh(cfg) && cfg.scalars == Reloaded(defaults.scalars, rows, ttl)
    ensures cfg.intervals != null && (defaults.intervals != null ==> cfg.intervals == defaults.intervals)
    ensures defaults.intervals != null ==> defaults.intervals.m == IntervalsApplied(old(defaults.intervals.m), rows)
  {
    cfg := BuildRulesConfig(rows, defaults);
    ApplyGlobalConfig(cfg, ttl);
  }

  // ---------------------------------------------------------------- what merging means

  ghost predicate DistinctCodes(rows: seq<Row>) {
    forall i, j | 0 <= i < j < |rows| :: rows[i].code != rows[j].code
  }

  /** With one row per code, a field's row alone decides. */
  lemma {:induction false} RowDecides(rows: seq<Row>, i: nat, f: Field, v: real)
    requires DistinctCodes(rows) && i < |rows| && CodeOf(f) == Some(rows[i].code)
    ensures AfterRows(rows, f, v) == AfterRow(rows[i], f, v)
  {
    var n := |rows| - 1;
    if i < n {
      RowDecides(rows[..n], i, f, v);
    } else {
      NoRowKeeps(rows[..n], f, v);
    }
  }

  lemma {:induction false} NoRowKeeps(rows: seq<Row>, f: Field, v: real)
    requires forall r | r in rows :: CodeOf(f) != Some(r.code)
    ensures AfterRows(rows, f, v) == v
  {
    if rows != [] {
      assert rows[|rows| - 1] in rows;
      NoRowKeeps(rows[..|rows| - 1], f, v);
    }
  }

  /** The precedence: the row's value if it is non-zero once stored, the program's default if the
      row's value is zero, and without a row, or without a value in it, the file's value unless that
      is zero. */
  lemma Precedence(rows: seq<Row>, f: Field, v: real)
    requires DistinctCodes(rows)
    ensures forall i | 0 <= i < |rows| && CodeOf(f) == Some(rows[i].code) ::
              Merged(rows, None, f, v)
              == match GetFloat(rows[i].config, KeyOf(f))
                 case Some(x) => (if Stored(f, x) != 0.0 then Stored(f, x) else HardDefault(f))
                 case None => (if v != 0.0 then v else HardDefault(f))
    ensures (forall i | 0 <= i < |rows| :: CodeOf(f) != Some(rows[i].code)) ==>
              Merged(rows, None, f, v) == if v != 0.0 then v else HardDefault(f)
  {
    forall i | 0 <= i < |rows| && CodeOf(f) == Some(rows[i].code)
      ensures AfterRows(rows, f, v) == AfterRow(rows[i], f, v)
    {
      RowDecides(rows, i, f, v);
    }
    if forall i | 0 <= i < |rows| :: CodeOf(f) != Some(rows[i].code) {
      NoRowKeeps(rows, f, v);
    }
  }

  const NOTHING: Scalars := Scalars(
    AccountLimits(0.0, 0.0), ExposureLimits(0.0, 0.0, 0.0), PositionLimits(0.0, 0.0, 0.0),
    FundingLimits(0.0, 0.0, 0.0, 0.0), SystemLimits(0.0, 0.0, 0.0, 0.0), MarketLimits(0.0, 0.0, 0.0))

  /** With nothing configured anywhere, every threshold is the program's own. */
  lemma NothingConfigured()
    ensures Reloaded(NOTHING, [], None)
         == Scalars(
             AccountLimits(0.5, 1.5), ExposureLimits(0.3, 5000.0, 50000.0), PositionLimits(0.05, 0.02, 4.0),
             FundingLimits(28800000.0, 3600.0, 0.25, 1800.0), SystemLimits(30.0, 2000.0, 0.1, 300.0),
             MarketLimits(60.0, 0.10, 600.0))
  {
  }

  /** Every row's keys set their own fields, whatever the values; integer fields drop the fraction. */
  lemma AccountRow(x: AccountLimits, v: real, w: real)
    ensures AccountAfter(x, Row(L001, map["margin_ratio_threshold" := Number(v), "pm_unimmr_threshold" := Number(w)]))
         == AccountLimits(v, w)
  {
  }

  lemma ExposureRows(x: ExposureLimits, v: real, w: real)
    ensures ExposureAfter(x, Row(E001, map["delta_change_rate_threshold" := Number(v),
                                           "delta_abs_threshold" := Number(w)]))
         == ExposureLimits(v, w, x.positionChange)
    ensures ExposureAfter(x, Row(E005, map["position_change_threshold" := Number(v)]))
         == ExposureLimits(x.deltaRate, x.deltaAbs, v)
  {
  }

  lemma PositionRows(x: PositionLimits, v: real, w: real)
    ensures PositionAfter(x, Row(L002, map["liq_distance_l2_threshold" := Number(v),
                                           "liq_distance_l3_threshold" := Number(w)]))
         == PositionLimits(v, w, x.adlL2)
    ensures PositionAfter(x, Row(L003, map["adl_quantile_l2_threshold" := Number(v)]))
         == PositionLimits(x.liqL2, x.liqL3, Truncate(v))
  {
  }

  lemma FundingRows(x: FundingLimits, v: real, w: real)
    ensures FundingAfter(x, Row(E008c, map["expected_funding_interval" := Number(v),
                                           "funding_interval_alert_cooldown" := Number(w)]))
         == FundingLimits(Truncate(v), Truncate(w), x.annual, x.cooldown)
    ensures FundingAfter(x, Row(E008, map["funding_rate_annualized_l2" := Number(v),
                                          "funding_rate_cooldown" := Number(w)]))
         == FundingLimits(x.interval, x.intervalCooldown, v, Truncate(w))
  {
  }

  lemma SystemRows(x: SystemLimits, v: real, w: real)
    ensures SystemAfter(x, Row(S004, map["data_gap_threshold" := Number(v)])) == x.(dataGap := Truncate(v))
    ensures SystemAfter(x, Row(S014, map["api_latency_threshold_ms" := Number(v),
                                         "api_error_rate_threshold" := Number(w)]))
         == x.(apiLatency := v, apiErrorRate := w)
  {
  }

  lemma MarketRow(x: MarketLimits, v: real, w: real, z: real)
    ensures MarketAfter(x, Row(M001, map["price_jump_window_minutes" := Number(v), "price_jump_threshold" := Number(w),
                                         "price_jump_cooldown" := Number(z)]))
         == MarketLimits(Truncate(v), w, Truncate(z))
  {
  }

  /** What a row's interval is: a duration text that says more than zero, and nothing else. */
  lemma IntervalInIff(config: map<string, Json>, d: int)
    ensures IntervalIn(config) == Some(d)
            <==> "evaluation_interval" in config && config["evaluation_interval"] == Text(Some(d)) && d > 0
  {
  }

  /** A whole number, no further from zero than the value and less than one away from it. */
  lemma TruncateIs(v: real) returns (n: int)
    ensures Truncate(v) == n as real
    ensures if v >= 0.0 then n as real <= v < n as real + 1.0 else n as real - 1.0 < v <= n as real
  {
    n := if v >= 0.0 then v.Floor else -(-v).Floor;
  }

  /** Rows below one in absolute value read as zero for integer fields, and so as the default. */
  lemma TruncatesToZeroIff(f: Field, x: real)
    ensures Stored(f, x) == 0.0 <==> x == 0.0 || (IsInteger(f) && -1.0 < x < 1.0)
  {
  }

  /** Reading the rows in another order changes no threshold. */
  lemma OrderOfRowsDoesNotMatter(rows: seq<Row>, other: seq<Row>, ttl: Option<int>, f: Field, v: real)
    requires DistinctCodes(rows) && DistinctCodes(other) && (forall r :: r in rows <==> r in other)
    ensures Merged(rows, ttl, f, v) == Merged(other, ttl, f, v)
  {
    if i :| 0 <= i < |rows| && CodeOf(f) == Some(rows[i].code) {
      assert rows[i] in other;
      var j :| 0 <= j < |other| && other[j] == rows[i];
      RowDecides(rows, i, f, v);
      RowDecides(other, j, f, v);
    } else {
      NoRowKeeps(rows, f, v);
      forall r | r in other
        ensures CodeOf(f) != Some(r.code)
      {
        assert r in rows;
      }
      NoRowKeeps(other, f, v);
    }
  }

  /** With two rows for one code the order would matter; the rule table's unique code column keeps
      the loader from ever delivering such rows. */
  lemma RepeatedCodeCanDiffer() returns (rows: seq<Row>, other: seq<Row>, f: Field)
    ensures (forall r :: r in rows <==> r in other) && |rows| == |other|
    ensures Merged(rows, None, f, 0.0) != Merged(other, None, f, 0.0)
  {
    f := DeltaRate;
    var a := Row(E001, map[KeyOf(f) := Number(1.0)]);
    var b := Row(E001, map[KeyOf(f) := Number(2.0)]);
    rows, other := [a, b], [b, a];
    assert [a, b][..1] == [a] && [b, a][..1] == [b] && [a][..0] == [] && [b][..0] == [];
    assert AfterRows([], f, 0.0) == 0.0;
    assert AfterRows([a], f, 0.0) == 1.0 && AfterRows([b], f, 0.0) == 2.0;
  }

  /** No threshold is ever zero, and filling again changes nothing. */
  lemma NeverZero(rows: seq<Row>, ttl: Option<int>, f: Field, v: real)
    ensures Merged(rows, ttl, f, v) != 0.0 && Fill(f, Merged(rows, ttl, f, v)) == Merged(rows, ttl, f, v)
  {
  }

  lemma FillingAgainChangesNothing(s: Scalars)
    ensures Filled(Filled(s)) == Filled(s)
  {
  }

  /** Two reloads in a row: the second one's thresholds owe nothing to the first one's rows, but
      both configurations hold the defaults' interval table, so the second reload also rewrites the
      intervals of the first and starts from what that left behind. */
  method ReloadTwice(first: seq<Row>, second: seq<Row>, defaults: RulesConfig) returns (a: RulesConfig, b: RulesConfig)
    requires defaults.intervals != null
    modifies defaults.Table()
    ensures a.scalars == Built(defaults.scalars, first) && b.scalars == Built(defaults.scalars, second)
    ensures a.intervals != null && a.intervals == b.intervals == defaults.intervals
    ensures a.intervals.m == IntervalsApplied(IntervalsApplied(old(defaults.intervals.m), first), second)
  {
    a := BuildRulesConfig(first, defaults);
    b := BuildRulesConfig(second, defaults);
  }

  /** Without a row that sets it, a rule's interval is what it was; otherwise it is its row's. */
  lemma {:induction false} IntervalKept(m: Intervals, rows: seq<Row>, code: Code)
    requires forall r | r in rows && r.code == code :: IntervalIn(r.config).None?
    ensures code in IntervalsApplied(m, rows) <==> code in m
    ensures code in m ==> IntervalsApplied(m, rows)[code] == m[code]
  {
    if rows != [] {
      assert rows[|rows| - 1] in rows;
      IntervalKept(m, rows[..|rows| - 1], code);
    }
  }

  lemma {:induction false} IntervalSet(m: Intervals, rows: seq<Row>, i: nat)
    requires DistinctCodes(rows) && i < |rows| && IntervalIn(rows[i].config).Some?
    ensures rows[i].code in IntervalsApplied(m, rows)
    ensures IntervalsApplied(m, rows)[rows[i].code] == IntervalIn(rows[i].config).value
  {
    if i < |rows| - 1 {
      IntervalSet(m, rows[..|rows| - 1], i);
    }
  }

  /** Removing an interval from the database does not remove it from the program: a rule keeps the
      interval one reload gave it through a later one whose rows no longer set it. */
  lemma RemovedIntervalStays(m: Intervals, first: seq<Row>, second: seq<Row>, i: nat)
    requires DistinctCodes(first) && i < |first| && IntervalIn(first[i].config).Some?
    requires forall q | q in second && q.code == first[i].code :: IntervalIn(q.config).None?
    ensures var after := IntervalsApplied(IntervalsApplied(m, first), second);
            first[i].code in after && after[first[i].code] == IntervalIn(first[i].config).value
  {
    IntervalSet(m, first, i);
    IntervalKept(IntervalsApplied(m, first), second, first[i].code);
  }

  /** The same entry, or none in either. */
  predicate SameEntry(m: Intervals, other: Intervals, code: Code) {
    (code in m <==> code in other) && (code in m ==> m[code] == other[code])
  }

  ghost predicate SetsInterval(rows: seq<Row>, code: Code) {
    exists r | r in rows :: r.code == code && IntervalIn(r.config).Some?
  }

  /** A rule's interval after a reload is the one that reload's rows give it on the program's own table
      exactly when they set it or the reload before had left that table's entry as it was. */
  lemma {:induction false} ReloadedIntervalIff(m: Intervals, first: seq<Row>, second: seq<Row>, code: Code)
    requires DistinctCodes(second)
    ensures SameEntry(IntervalsApplied(IntervalsApplied(m, first), second), IntervalsApplied(m, second), code)
            <==> SetsInterval(second, code) || SameEntry(IntervalsApplied(m, first), m, code)
  {
    if r :| r in second && r.code == code && IntervalIn(r.config).Some? {
      var i :| 0 <= i < |second| && second[i] == r;
      IntervalSet(m, second, i);
      IntervalSet(IntervalsApplied(m, first), second, i);
    } else {
      IntervalKept(m, second, code);
      IntervalKept(IntervalsApplied(m, first), second, code);
    }
  }

  /** A first reload with one interval row and a second without it. */
  lemma IntervalOutlivesItsRow() returns (first: seq<Row>, second: seq<Row>)
    ensures DistinctCodes(first) && DistinctCodes(second)
    ensures IntervalsApplied(IntervalsApplied(map[], first), second) == map[E005 := 300000]
    ensures IntervalsApplied(map[], second) == map[]
  {
    var row := Row(E005, map["evaluation_interval" := Text(Some(300000))]);
    first, second := [row], [row.(config := map[])];
    assert first[..0] == [] && second[..0] == [];
    assert IntervalIn(row.config) == Some(300000) && IntervalIn(second[0].config) == None;
    assert IntervalsApplied(map[], first) == IntervalApplied(IntervalsApplied(map[], []), row);
  }

  ghost predicate Distinct(codes: seq<Code>) {
    forall i, j | 0 <= i < j < |codes| :: codes[i] != codes[j]
  }

  /** The filter keeps exactly the listed rules that have a row, without repeats. */
  lemma {:induction false} KeptIsExact(all: seq<Code>, enabled: set<Code>)
    requires Distinct(all)
    ensures Distinct(Kept(all, enabled))
    ensures forall c :: c in Kept(all, enabled) <==> c in all && c in enabled
  {
    if all != [] {
      var n := |all| - 1;
      assert all == all[..n] + [all[n]];
      KeptIsExact(all[..n], enabled);
      assert all[n] !in all[..n];
    }
  }

  /** The codes at these positions, in order. */
  ghost predicate TakenAt(all: seq<Code>, kept: seq<Code>, at: seq<nat>) {
    && |at| == |kept| && (forall i, j | 0 <= i < j < |at| :: at[i] < at[j])
    && forall i | 0 <= i < |at| :: at[i] < |all| && kept[i] == all[at[i]]
  }

  lemma TakenSkips(all: seq<Code>, c: Code, kept: seq<Code>, at: seq<nat>)
    requires TakenAt(all, kept, at)
    ensures TakenAt(all + [c], kept, at)
  {
  }

  lemma TakenNext(all: seq<Code>, c: Code, kept: seq<Code>, at: seq<nat>)
    requires TakenAt(all, kept, at)
    ensures TakenAt(all + [c], kept + [c], at + [|all|])
  {
  }

  /** And it keeps them in the program's order. */
  lemma {:induction false} KeptInOrder(all: seq<Code>, enabled: set<Code>) returns (at: seq<nat>)
    ensures TakenAt(all, Kept(all, enabled), at)
  {
    if all == [] {
      at := [];
    } else {
      var n := |all| - 1;
      assert all == all[..n] + [all[n]];
      at := KeptInOrder(all[..n], enabled);
      if all[n] in enabled {
        TakenNext(all[..n], all[n], Kept(all[..n], enabled), at);
        at := at + [n];
      } else {
        TakenSkips(all[..n], all[n], Kept(all[..n], enabled), at);
        assert Kept(all[..n], enabled) + [] == Kept(all[..n], enabled);
      }
    }
  }

  lemma AllRulesAreDistinct()
    ensures Distinct(ALL_RULES)
  {
  }
}
