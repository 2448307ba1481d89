/** The sentinel engine's round: which rules it evaluates for which account, when it remembers that
    it did, and what becomes of the alerts. A reload can rewrite the table of evaluation intervals
    while the round reads it. Times are milliseconds. */
module Scheduler {
  import opened Prelude
  import opened RuleCodes
  import opened Cooldown
  import opened Delivery
  import C = ConfigMerge

  const BLINDNESS_RULE: Code := S004

  /** An account's collected data: whether collection succeeded and what each rule's function
      returns on it. */
  datatype Account = Account(healthy: bool, raised: map<Code, seq<Alert>>)

  datatype Evaluation = Evaluation(account: nat, rule: Code)

  type Clocks = map<Code, int>

  type Table = C.Intervals

  /** What decides, besides the rule's interval, whether it is due in a round that starts at `now`. */
  datatype Schedule = Schedule(poll: int, last: Clocks, now: int)

  function Entry(m: Table, rule: Code): Option<int> {
    if rule in m then Some(m[rule]) else None
  }

  /** isRuleDue, on the entry it reads. */
  predicate DueBy(rule: Code, entry: Option<int>, s: Schedule) {
    || entry.None? || entry.value <= 0
    || entry.value <= s.poll
    || rule !in s.last
    || s.now - s.last[rule] >= entry.value
  }

  predicate Due(rule: Code, m: Table, s: Schedule) {
    DueBy(rule, Entry(m, rule), s)
  }

  /** Errored accounts only run the blindness rule, without asking whether it is due. */
  predicate Runs(rule: Code, healthy: bool, m: Table, s: Schedule) {
    if healthy then Due(rule, m, s) else rule == BLINDNESS_RULE
  }

  ghost predicate Distinct<T>(xs: seq<T>) {
    forall i, j | 0 <= i < j < |xs| :: xs[i] != xs[j]
  }

  // ---------------------------------------------------------------- the table a round reads

  // The table is one object behind every configuration, so a reload's row writes land between a
  // round's reads. A slot is the rows written just before one read, in order.

  function AfterSlots(m: Table, slots: seq<seq<C.Row>>): Table {
    if slots == [] then m else C.IntervalsApplied(AfterSlots(m, slots[..|slots| - 1]), slots[|slots| - 1])
  }

  /** What each of one account's reads sees. */
  function Seen(m: Table, slots: seq<seq<C.Row>>): (seen: seq<Table>)
    ensures |seen| == |slots|
  {
    if slots == [] then [] else Seen(m, slots[..|slots| - 1]) + [AfterSlots(m, slots)]
  }

  function AfterAccounts(m: Table, between: seq<seq<seq<C.Row>>>): Table {
    if between == [] then m else AfterSlots(AfterAccounts(m, between[..|between| - 1]), between[|between| - 1])
  }

  /** What each account's reads see, one account after the other. */
  function SeenBy(m: Table, between: seq<seq<seq<C.Row>>>): (seen: seq<seq<Table>>)
    ensures |seen| == |between| && forall i | 0 <= i < |seen| :: |seen[i]| == |between[i]|
  {
    if between == [] then []
    else
      var n := |between| - 1;
      SeenBy(m, between[..n]) + [Seen(AfterAccounts(m, between[..n]), between[n])]
  }

  /** Every account has one read per rule. */
  ghost predicate Shaped<T>(seen: seq<seq<T>>, accounts: nat, rules: nat) {
    |seen| == accounts && forall i | 0 <= i < accounts :: |seen[i]| == rules
  }

  lemma {:induction false} SeenAt(m: Table, slots: seq<seq<C.Row>>, k: nat)
    requires k < |slots|
    ensures Seen(m, slots)[k] == AfterSlots(m, slots[..k + 1])
  {
    if k < |slots| - 1 {
      SeenAt(m, slots[..|slots| - 1], k);
      assert slots[..|slots| - 1][..k + 1] == slots[..k + 1];
    } else {
      assert slots[..k + 1] == slots;
    }
  }

  lemma {:induction false} SeenByAt(m: Table, between: seq<seq<seq<C.Row>>>, i: nat)
    requires i < |between|
    ensures SeenBy(m, between)[i] == Seen(AfterAccounts(m, between[..i]), between[i])
  {
    var n := |between| - 1;
    if i < n {
      SeenByAt(m, between[..n], i);
      assert between[..n][..i] == between[..i];
    }
  }

  // ---------------------------------------------------------------- one round

  /** The rules one account runs, in rule order. */
  function AccountTrace(rules: seq<Code>, i: nat, healthy: bool, seen: seq<Table>, s: Schedule): seq<Evaluation>
    requires |seen| == |rules|
  {
    if rules == [] then []
    else
      var n := |rules| - 1;
      AccountTrace(rules[..n], i, healthy, seen[..n], s)
      + if Runs(rules[n], healthy, seen[n], s) then [Evaluation(i, rules[n])] else []
  }

  /** The evaluations of a round, account by account. */
  function RoundTrace(accounts: seq<Account>, rules: seq<Code>, seen: seq<seq<Table>>, s: Schedule): seq<Evaluation>
    requires Shaped(seen, |accounts|, |rules|)
  {
    if accounts == [] then []
    else
      var n := |accounts| - 1;
      RoundTrace(accounts[..n], rules, seen[..n], s) + AccountTrace(rules, n, accounts[n].healthy, seen[n], s)
  }

  function RaisedBy(a: Account, rule: Code): seq<Alert> {
    if rule in a.raised then a.raised[rule] else []
  }

  /** The alerts the evaluations of a trace return, in that order. */
  function AlertsOf(accounts: seq<Account>, trace: seq<Evaluation>): seq<Alert> {
    if trace == [] then []
    else
      var e := trace[|trace| - 1];
      AlertsOf(accounts, trace[..|trace| - 1])
      + if e.account < |accounts| then RaisedBy(accounts[e.account], e.rule) else []
  }

  lemma AlertsOfSnoc(accounts: seq<Account>, trace: seq<Evaluation>, i: nat, rule: Code)
    requires i < |accounts|
    ensures AlertsOf(accounts, trace + [Evaluation(i, rule)]) == AlertsOf(accounts, trace) + RaisedBy(accounts[i], rule)
  {
    assert (trace + [Evaluation(i, rule)])[..|trace|] == trace;
  }

  lemma {:induction false} AlertsOfConcat(accounts: seq<Account>, a: seq<Evaluation>, b: seq<Evaluation>)
    ensures AlertsOf(accounts, a + b) == AlertsOf(accounts, a) + AlertsOf(accounts, b)
  {
    if b == [] {
      assert a + b == a;
    } else {
      assert (a + b)[..|a| + |b| - 1] == a + b[..|b| - 1];
      AlertsOfConcat(accounts, a, b[..|b| - 1]);
    }
  }

  /** The evaluation times after these rules were visited for the last account. */
  function Stamped(rules: seq<Code>, seen: seq<Table>, s: Schedule): Clocks
    requires |seen| == |rules|
  {
    if rules == [] then s.last
    else
      var n := |rules| - 1;
      var before := Stamped(rules[..n], seen[..n], s);
      if Due(rules[n], seen[n], s) then before[rules[n] := s.now] else before
  }

  lemma {:induction false} StampedElsewhere(rules: seq<Code>, seen: seq<Table>, s: Schedule, rule: Code)
    requires |seen| == |rules| && rule !in rules
    ensures rule in Stamped(rules, seen, s) <==> rule in s.last
    ensures rule in s.last ==> Stamped(rules, seen, s)[rule] == s.last[rule]
  {
    if rules != [] {
      StampedElsewhere(rules[..|rules| - 1], seen[..|rules| - 1], s, rule);
    }
  }

  lemma {:induction false} StampedAt(rules: seq<Code>, seen: seq<Table>, s: Schedule, k: nat)
    requires |seen| == |rules| && k < |rules| && Distinct(rules)
    ensures rules[k] in Stamped(rules, seen, s) <==> rules[k] in s.last || Due(rules[k], seen[k], s)
    ensures rules[k] in Stamped(rules, seen, s) ==>
              Stamped(rules, seen, s)[rules[k]] == if Due(rules[k], seen[k], s) then s.now else s.last[rules[k]]
  {
    var n := |rules| - 1;
    if k < n {
      StampedAt(rules[..n], seen[..n], s, k);
    } else {
      StampedElsewhere(rules[..n], seen[..n], s, rules[k]);
    }
  }

  /** A rule not yet visited is as due as it was when the round began, by the table read now. */
  lemma StillAsDue(rules: seq<Code>, seen: seq<Table>, k: nat, m: Table, s: Schedule)
    requires k < |rules| == |seen| && Distinct(rules)
    ensures Due(rules[k], m, s.(last := Stamped(rules[..k], seen[..k], s))) == Due(rules[k], m, s)
  {
    assert rules[k] !in rules[..k];
    StampedElsewhere(rules[..k], seen[..k], s, rules[k]);
  }

  lemma RoundStep(accounts: seq<Account>, i: nat, rules: seq<Code>, seen: seq<seq<Table>>, s: Schedule)
    requires i < |accounts| && Shaped(seen, |accounts|, |rules|)
    ensures RoundTrace(accounts[..i + 1], rules, seen[..i + 1], s)
            == RoundTrace(accounts[..i], rules, seen[..i], s) + AccountTrace(rules, i, accounts[i].healthy, seen[i], s)
  {
    assert accounts[..i + 1][..i] == accounts[..i] && seen[..i + 1][..i] == seen[..i];
  }

  lemma VisitStep(rules: seq<Code>, seen: seq<Table>, k: nat, i: nat, healthy: bool, s: Schedule)
    requires k < |rules| == |seen|
    ensures AccountTrace(rules[..k + 1], i, healthy, seen[..k + 1], s)
            == var before := AccountTrace(rules[..k], i, healthy, seen[..k], s);
               if Runs(rules[k], healthy, seen[k], s) then before + [Evaluation(i, rules[k])] else before
    ensures Stamped(rules[..k + 1], seen[..k + 1], s)
            == var before := Stamped(rules[..k], seen[..k], s);
               if Due(rules[k], seen[k], s) then before[rules[k] := s.now] else before
  {
    assert rules[..k + 1][..k] == rules[..k] && seen[..k + 1][..k] == seen[..k];
  }

  // ---------------------------------------------------------------- rounds over time

  /** A round that took place: what its reads saw and which accounts were healthy. */
  datatype Round = Round(now: int, rules: seq<Code>, seen: seq<seq<Table>>, healthy: seq<bool>)

  ghost predicate Formed(r: Round) {
    Distinct(r.rules) && Shaped(r.seen, |r.healthy|, |r.rules|)
  }

  /** Only the last account's evaluations are remembered. */
  predicate Remembers(r: Round) {
    r.healthy != [] && r.healthy[|r.healthy| - 1]
  }

  ghost function AfterRound(r: Round, poll: int, last: Clocks): Clocks
    requires Formed(r)
  {
    if Remembers(r) then Stamped(r.rules, r.seen[|r.seen| - 1], Schedule(poll, last, r.now)) else last
  }

  ghost predicate AllFormed(rounds: seq<Round>) {
    forall k | 0 <= k < |rounds| :: Formed(rounds[k])
  }

  ghost function Replay(rounds: seq<Round>, poll: int): Clocks
    requires AllFormed(rounds)
  {
    if rounds == [] then map[] else AfterRound(rounds[|rounds| - 1], poll, Replay(rounds[..|rounds| - 1], poll))
  }

  lemma ReplaySnoc(rounds: seq<Round>, r: Round, poll: int)
    requires AllFormed(rounds) && Formed(r)
    ensures AllFormed(rounds + [r]) && Replay(rounds + [r], poll) == AfterRound(r, poll, Replay(rounds, poll))
  {
    assert (rounds + [r])[..|rounds|] == rounds;
  }

  /** What round k is scheduled by. */
  ghost function ScheduleAt(rounds: seq<Round>, k: nat, poll: int): Schedule
    requires k < |rounds| && AllFormed(rounds)
  {
    Schedule(poll, Replay(rounds[..k], poll), rounds[k].now)
  }

  function HealthOf(accounts: seq<Account>): (h: seq<bool>)
    ensures |h| == |accounts| && forall i | 0 <= i < |h| :: h[i] == accounts[i].healthy
  {
    if accounts == [] then [] else HealthOf(accounts[..|accounts| - 1]) + [accounts[|accounts| - 1].healthy]
  }

  /** The remembered times once n accounts were visited. */
  function StampedBy(accounts: seq<Account>, n: nat, rules: seq<Code>, seen: seq<seq<Table>>, s: Schedule): Clocks
    requires n <= |accounts| == |seen| && forall i | 0 <= i < |seen| :: |seen[i]| == |rules|
  {
    if 0 < n == |accounts| && accounts[n - 1].healthy then Stamped(rules, seen[n - 1], s) else s.last
  }

  class Engine {
    const pollInterval: int
    var dryRun: bool
    var lastRuleEval: Clocks
    ghost var history: seq<Round>

    ghost predicate Valid()
      reads this
    {
      AllFormed(history) && lastRuleEval == Replay(history, pollInterval)
    }

    constructor (pollInterval: int, dryRun: bool)
      ensures Valid() && history == [] && this.pollInterval == pollInterval && this.dryRun == dryRun
    {
      this.pollInterval, this.dryRun := pollInterval, dryRun;
      lastRuleEval, history := map[], [];
    }

    /** One read of the shared table. */
    predicate IsRuleDue(rule: Code, table: C.IntervalTable, now: int)
      reads this, table
    {
      Due(rule, table.m, Schedule(pollInterval, lastRuleEval, now))
    }

    /** A read, after the rows a reload writes just before it. */
    method ReadDue(rule: Code, table: C.IntervalTable, rows: seq<C.Row>, now: int) returns (due: bool)
      modifies table
      ensures table.m == C.IntervalsApplied(old(table.m), rows)
      ensures due == Due(rule, table.m, Schedule(pollInterval, lastRuleEval, now))
    {
      table.m := C.IntervalsApplied(table.m, rows);
      due := IsRuleDue(rule, table, now);
    }

    /** One rule for one healthy account; `last` says the account is the round's last. */
    method VisitRule(a: Account, rule: Code, table: C.IntervalTable, rows: seq<C.Row>, start: int, last: bool)
      returns (due: bool, alerts: seq<Alert>)
      modifies this`lastRuleEval, table
      ensures table.m == C.IntervalsApplied(old(table.m), rows)
      ensures due == Due(rule, table.m, Schedule(pollInterval, old(lastRuleEval), start))
      ensures alerts == if due then RaisedBy(a, rule) else []
      ensures lastRuleEval == if due && last then old(lastRuleEval)[rule := start] else old(lastRuleEval)
    {
      alerts := [];
      due := ReadDue(rule, table, rows, start);
      if due {
        alerts := RaisedBy(a, rule);
        if last {
          lastRuleEval := lastRuleEval[rule := start];
        }
      }
    }

    /** The evaluation half of RunOnce. Rule lists come from a fixed list of distinct codes. The slots
        of `between` are what a concurrent reload writes before each read. */
    method Evaluate(accounts: seq<Account>, rules: seq<Code>, table: C.IntervalTable, between: seq<seq<seq<C.Row>>>,
                    start: int)
      returns (alerts: seq<Alert>, ghost trace: seq<Evaluation>)
      requires Valid() && Distinct(rules) && Shaped(between, |accounts|, |rules|)
      modifies this`lastRuleEval, this`history, table
      ensures table.m == AfterAccounts(old(table.m), between)
      ensures var seen := SeenBy(old(table.m), between);
              && Valid() && history == old(history) + [Round(start, rules, seen, HealthOf(accounts))]
              && trace == RoundTrace(accounts, rules, seen, Schedule(pollInterval, old(lastRuleEval), start))
      ensures alerts == AlertsOf(accounts, trace)
    {
      ghost var s, m0 := Schedule(pollInterval, lastRuleEval, start), table.m;
      ghost var round := Round(start, rules, SeenBy(m0, between), HealthOf(accounts));
      alerts, trace := VisitAccounts(accounts, rules, table, between, start, s);
      ReplaySnoc(history, round, pollInterval);
      history := history + [round];
    }

    method VisitAccounts(accounts: seq<Account>, rules: seq<Code>, table: C.IntervalTable,
                         between: seq<seq<seq<C.Row>>>,
                         start: int, ghost s: Schedule)
      returns (alerts: seq<Alert>, ghost trace: seq<Evaluation>)
      requires Distinct(rules) && Shaped(between, |accounts|, |rules|)
               && s == Schedule(pollInterval, lastRuleEval, start)
      modifies this`lastRuleEval, table
      ensures table.m == AfterAccounts(old(table.m), between)
      ensures trace == RoundTrace(accounts, rules, SeenBy(old(table.m), between), s)
              && alerts == AlertsOf(accounts, trace)
      ensures lastRuleEval == StampedBy(accounts, |accounts|, rules, SeenBy(old(table.m), between), s)
    {
      ghost var m0 := table.m;
      ghost var seen := SeenBy(m0, between);
      alerts, trace := [], [];
      for i := 0 to |accounts|
        invariant table.m == AfterAccounts(m0, between[..i])
        invariant trace == RoundTrace(accounts[..i], rules, seen[..i], s) && alerts == AlertsOf(accounts, trace)
        invariant lastRuleEval == StampedBy(accounts, i, rules, seen, s)
      {
        RoundStep(accounts, i, rules, seen, s);
        AccountStep(m0, between, i);
        var more; ghost var own;
        more, own := VisitAccount(accounts, i, rules, table, between[i], start, s);
        AlertsOfConcat(accounts, trace, own);
        alerts, trace := alerts + more, trace + own;
      }
      assert accounts[..|accounts|] == accounts && seen[..|accounts|] == seen && between[..|accounts|] == between;
    }

    method VisitAccount(accounts: seq<Account>, i: nat, rules: seq<Code>, table: C.IntervalTable,
                        slots: seq<seq<C.Row>>,
                        start: int, ghost s: Schedule)
      returns (alerts: seq<Alert>, ghost trace: seq<Evaluation>)
      requires i < |accounts| && Distinct(rules) && |slots| == |rules|
      requires s == Schedule(pollInterval, lastRuleEval, start)
      modifies this`lastRuleEval, table
      ensures table.m == AfterSlots(old(table.m), slots)
      ensures trace == AccountTrace(rules, i, accounts[i].healthy, Seen(old(table.m), slots), s)
      ensures alerts == AlertsOf(accounts, trace)
      ensures lastRuleEval == if i == |accounts| - 1 && accounts[i].healthy
                              then Stamped(rules, Seen(old(table.m), slots), s) else s.last
    {
      if !accounts[i].healthy {
        alerts, trace := EvaluateErrored(accounts, i, rules, table, slots, s);
      } else {
        alerts, trace := EvaluateHealthy(accounts, i, rules, table, slots, start, s);
      }
    }

    method EvaluateErrored(accounts: seq<Account>, i: nat, rules: seq<Code>, table: C.IntervalTable,
                           slots: seq<seq<C.Row>>,
                           ghost s: Schedule)
      returns (alerts: seq<Alert>, ghost trace: seq<Evaluation>)
      requires i < |accounts| && |slots| == |rules|
      modifies table
      ensures table.m == AfterSlots(old(table.m), slots)
      ensures trace == AccountTrace(rules, i, false, Seen(old(table.m), slots), s)
              && alerts == AlertsOf(accounts, trace)
    {
      ghost var m0 := table.m;
      ghost var seen := Seen(m0, slots);
      alerts, trace := [], [];
      for k := 0 to |rules|
        invariant table.m == AfterSlots(m0, slots[..k])
        invariant trace == AccountTrace(rules[..k], i, false, seen[..k], s) && alerts == AlertsOf(accounts, trace)
      {
        VisitStep(rules, seen, k, i, false, s);
        SlotStep(m0, slots, k);
        table.m := C.IntervalsApplied(table.m, slots[k]);
        if rules[k] == BLINDNESS_RULE {
          AlertsOfSnoc(accounts, trace, i, rules[k]);
          alerts := alerts + RaisedBy(accounts[i], rules[k]);
          trace := trace + [Evaluation(i, rules[k])];
        }
      }
      assert rules[..|rules|] == rules && seen[..|rules|] == seen && slots[..|rules|] == slots;
    }

    method EvaluateHealthy(accounts: seq<Account>, i: nat, rules: seq<Code>, table: C.IntervalTable,
                           slots: seq<seq<C.Row>>,
                           start: int, ghost s: Schedule)
      returns (alerts: seq<Alert>, ghost trace: seq<Evaluation>)
      requires i < |accounts| && Distinct(rules) && |slots| == |rules|
      requires s == Schedule(pollInterval, lastRuleEval, start)
      modifies this`lastRuleEval, table
      ensures table.m == AfterSlots(old(table.m), slots)
      ensures trace == AccountTrace(rules, i, true, Seen(old(table.m), slots), s) && alerts == AlertsOf(accounts, trace)
      ensures lastRuleEval == if i == |accounts| - 1 then Stamped(rules, Seen(old(table.m), slots), s) else s.last
    {
      ghost var m0 := table.m;
      ghost var seen := Seen(m0, slots);
      alerts, trace := [], [];
      for k := 0 to |rules|
        invariant table.m == AfterSlots(m0, slots[..k])
        invariant trace == AccountTrace(rules[..k], i, true, seen[..k], s) && alerts == AlertsOf(accounts, trace)
        invariant lastRuleEval == if i == |accounts| - 1 then Stamped(rules[..k], seen[..k], s) else s.last
      {
        VisitStep(rules, seen, k, i, true, s);
        SlotStep(m0, slots, k);
        StillAsDue(rules, seen, k, seen[k], s);
        AlertsOfSnoc(accounts, trace, i, rules[k]);
        var due, more := VisitRule(accounts[i], rules[k], table, slots[k], start, i == |accounts| - 1);
        if due {
          alerts := alerts + more;
          trace := trace + [Evaluation(i, rules[k])];
        }
      }
      assert rules[..|rules|] == rules && seen[..|rules|] == seen && slots[..|rules|] == slots;
    }

    method DeliverOne(alerter: Alerter, alert: Alert, answer: Answer, sent0: nat, cooled0: nat, failed0: nat,
                      ghost run: Run)
      returns (sent: nat, cooled: nat, failed: nat, ghost next: Run)
      requires alerter.Valid() && |answer.reached| == |alerter.chatIDs| && answer.now >= alerter.clock
      requires Tallied(run, alerter.log, sent0, cooled0, failed0)
      modifies alerter`redis, alerter`log, alerter`clock
      ensures alerter.Valid() && alerter.clock == answer.now
      ensures next == SendOne(run, alert, answer, alerter.cooldownTTL, alerter.hasRedis)
      ensures Tallied(next, alerter.log, sent, cooled, failed)
              && sent + cooled + failed == sent0 + cooled0 + failed0 + 1
    {
      sent, cooled, failed := sent0, cooled0, failed0;
      next := SendOne(run, alert, answer, alerter.cooldownTTL, alerter.hasRedis);
      var outcome := alerter.Send(alert, answer);
      TallyNext(run, next, outcome, sent, cooled, failed);
      match outcome
      case Sent => sent := sent + 1;
      case Cooled => cooled := cooled + 1;
      case Failed => failed := failed + 1;
    }

    /** The delivery half of RunOnce: every alert is sent, suppressed or failed, in order, each under
        the cooldowns the earlier ones set. A dry run prints them all and asks nobody. */
    method Deliver(alerter: Alerter, alerts: seq<Alert>, answers: seq<Answer>)
      returns (sent: nat, cooled: nat, failed: nat)
      requires alerter.Valid() && |answers| == |alerts| && Answers(answers, |alerter.chatIDs|, alerter.clock)
      modifies alerter
      ensures alerter.Valid() && sent + cooled + failed == |alerts|
      ensures dryRun ==> sent == |alerts| && alerter.log == old(alerter.log) && alerter.redis == old(alerter.redis)
      ensures !dryRun ==>
                var run := Deliveries(old(alerter.log), alerts, answers, old(alerter.cooldownTTL),
                                      old(alerter.hasRedis));
                && alerter.log == run.log
                && sent == Count(run.outcomes, Sent) && cooled == Count(run.outcomes, Cooled)
                    && failed == Count(run.outcomes, Failed)
    {
      if dryRun {
        return |alerts|, 0, 0;
      }
      ghost var run;
      sent, cooled, failed, run := SendAll(alerter, alerts, answers);
    }

    method SendAll(alerter: Alerter, alerts: seq<Alert>, answers: seq<Answer>)
      returns (sent: nat, cooled: nat, failed: nat, ghost run: Run)
      requires alerter.Valid() && |answers| == |alerts| && Answers(answers, |alerter.chatIDs|, alerter.clock)
      modifies alerter`redis, alerter`log, alerter`clock
      ensures alerter.Valid() && sent + cooled + failed == |alerts|
      ensures run == Deliveries(old(alerter.log), alerts, answers, alerter.cooldownTTL, alerter.hasRedis)
      ensures Tallied(run, alerter.log, sent, cooled, failed)
    {
      sent, cooled, failed, run := 0, 0, 0, Run(alerter.log, []);
      ghost var log := alerter.log;
      for i := 0 to |alerts|
        invariant alerter.Valid() && alerter.clock == ClockAfter(answers, i, old(alerter.clock))
        invariant sent + cooled + failed == i
        invariant run == Deliveries(log, alerts[..i], answers[..i], alerter.cooldownTTL, alerter.hasRedis)
        invariant Tallied(run, alerter.log, sent, cooled, failed)
      {
        DeliveriesNext(log, alerts, answers, i, alerter.cooldownTTL, alerter.hasRedis);
        sent, cooled, failed, run := DeliverOne(alerter, alerts[i], answers[i], sent, cooled, failed, run);
      }
      assert alerts[..|alerts|] == alerts && answers[..|alerts|] == answers;
    }
  }

  lemma SlotStep(m: Table, slots: seq<seq<C.Row>>, k: nat)
    requires k < |slots|
    ensures C.IntervalsApplied(AfterSlots(m, slots[..k]), slots[k]) == AfterSlots(m, slots[..k + 1])
            == Seen(m, slots)[k]
  {
    assert slots[..k + 1][..k] == slots[..k];
    SeenAt(m, slots, k);
  }

  lemma AccountStep(m: Table, between: seq<seq<seq<C.Row>>>, i: nat)
    requires i < |between|
    ensures var m1 := AfterAccounts(m, between[..i]);
            AfterSlots(m1, between[i]) == AfterAccounts(m, between[..i + 1])
                && SeenBy(m, between)[i] == Seen(m1, between[i])
  {
    assert between[..i + 1][..i] == between[..i];
    SeenByAt(m, between, i);
  }

  // ---------------------------------------------------------------- uniform rounds

  lemma {:induction false} AccountTraceHas(rules: seq<Code>, i: nat, healthy: bool, seen: seq<Table>, s: Schedule,
                                           e: Evaluation)
    requires |seen| == |rules|
    ensures e in AccountTrace(rules, i, healthy, seen, s)
            <==> e.account == i && exists k ::
                0 <= k < |rules| && rules[k] == e.rule && Runs(e.rule, healthy, seen[k], s)
  {
    if rules != [] {
      var n := |rules| - 1;
      AccountTraceHas(rules[..n], i, healthy, seen[..n], s, e);
      if k :| 0 <= k < n && rules[..n][k] == e.rule && Runs(e.rule, healthy, seen[..n][k], s) {
        assert rules[k] == e.rule && Runs(e.rule, healthy, seen[k], s);
      }
    }
  }

  lemma {:induction false} RoundTraceHas(accounts: seq<Account>, rules: seq<Code>, seen: seq<seq<Table>>, s: Schedule,
                                         e: Evaluation)
    requires Shaped(seen, |accounts|, |rules|)
    ensures e in RoundTrace(accounts, rules, seen, s)
            <==> e.account < |accounts|
                 && e in AccountTrace(rules, e.account, accounts[e.account].healthy, seen[e.account], s)
  {
    if accounts != [] {
      var n := |accounts| - 1;
      AccountTraceHas(rules, n, accounts[n].healthy, seen[n], s, e);
      RoundTraceHas(accounts[..n], rules, seen[..n], s, e);
      if e.account < |accounts| {
        AccountTraceHas(rules, e.account, accounts[e.account].healthy, seen[e.account], s, e);
      }
    }
  }

  /** Who evaluates rule k: a healthy account exactly when the table its read sees makes it due, an
      errored one exactly when it is the blindness rule. */
  lemma WhoEvaluates(accounts: seq<Account>, rules: seq<Code>, seen: seq<seq<Table>>, s: Schedule, i: nat, k: nat)
    requires Shaped(seen, |accounts|, |rules|) && i < |accounts| && k < |rules| && Distinct(rules)
    ensures Evaluation(i, rules[k]) in RoundTrace(accounts, rules, seen, s)
            <==> if accounts[i].healthy then Due(rules[k], seen[i][k], s) else rules[k] == BLINDNESS_RULE
  {
    RoundTraceHas(accounts, rules, seen, s, Evaluation(i, rules[k]));
    AccountTraceHas(rules, i, accounts[i].healthy, seen[i], s, Evaluation(i, rules[k]));
  }

  /** The longest interval at which a rule is due in this round; None when any is, because the rule
      was never evaluated. */
  function Boundary(rule: Code, s: Schedule): Option<int> {
    if rule !in s.last then None else Some(MaxInt(MaxInt(0, s.poll), s.now - s.last[rule]))
  }

  predicate Within(entry: Option<int>, boundary: Option<int>) {
    boundary.None? || entry.None? || entry.value <= boundary.value
  }

  lemma DueIffWithin(rule: Code, entry: Option<int>, s: Schedule)
    ensures DueBy(rule, entry, s) <==> Within(entry, Boundary(rule, s))
  {
  }

  /** All healthy accounts evaluate rule k, or none does. */
  ghost predicate Uniform(accounts: seq<Account>, rules: seq<Code>, seen: seq<seq<Table>>, s: Schedule, k: nat)
    requires Shaped(seen, |accounts|, |rules|) && k < |rules|
  {
    forall i, j | 0 <= i < j < |accounts| && accounts[i].healthy && accounts[j].healthy ::
      (Evaluation(i, rules[k]) in RoundTrace(accounts, rules, seen, s)
       <==> Evaluation(j, rules[k]) in RoundTrace(accounts, rules, seen, s))
  }

  /** No write moved the rule's entry across the boundary between two healthy accounts' reads. */
  ghost predicate SameSide(accounts: seq<Account>, rules: seq<Code>, seen: seq<seq<Table>>, s: Schedule, k: nat)
    requires Shaped(seen, |accounts|, |rules|) && k < |rules|
  {
    forall i, j | 0 <= i < j < |accounts| && accounts[i].healthy && accounts[j].healthy ::
      (Within(Entry(seen[i][k], rules[k]), Boundary(rules[k], s))
       <==> Within(Entry(seen[j][k], rules[k]), Boundary(rules[k], s)))
  }

  /** Exactly when a round evaluates a rule for every healthy account or for none. */
  lemma RoundIsUniformIff(accounts: seq<Account>, rules: seq<Code>, seen: seq<seq<Table>>, s: Schedule, k: nat)
    requires Shaped(seen, |accounts|, |rules|) && k < |rules| && Distinct(rules)
    ensures Uniform(accounts, rules, seen, s, k) <==> SameSide(accounts, rules, seen, s, k)
  {
    forall i | 0 <= i < |accounts| && accounts[i].healthy
      ensures Evaluation(i, rules[k]) in RoundTrace(accounts, rules, seen, s)
              <==> Within(Entry(seen[i][k], rules[k]), Boundary(rules[k], s))
    {
      WhoEvaluates(accounts, rules, seen, s, i, k);
      DueIffWithin(rules[k], Entry(seen[i][k], rules[k]), s);
    }
  }

  /** The interval a row writes for a rule, if it does. */
  function Written(r: C.Row, rule: Code): Option<int> {
    if r.code == rule then C.IntervalIn(r.config) else None
  }

  /** No row written during the round puts the rule on another side of the boundary. */
  ghost predicate NoneCrosses(between: seq<seq<seq<C.Row>>>, rule: Code, side: bool, boundary: Option<int>) {
    forall i, k, n | 0 <= i < |between| && 0 <= k < |between[i]| && 0 <= n < |between[i][k]| ::
      Written(between[i][k][n], rule).Some? ==> Within(Written(between[i][k][n], rule), boundary) == side
  }

  lemma {:induction false} RowsKeepSide(m: Table, rows: seq<C.Row>, rule: Code, boundary: Option<int>)
    requires forall n | 0 <= n < |rows| ::
               Written(rows[n], rule).Some? ==>
                 Within(Written(rows[n], rule), boundary) == Within(Entry(m, rule), boundary)
    ensures Within(Entry(C.IntervalsApplied(m, rows), rule), boundary) == Within(Entry(m, rule), boundary)
  {
    if rows != [] {
      RowsKeepSide(m, rows[..|rows| - 1], rule, boundary);
      assert Written(rows[|rows| - 1], rule).Some? ==>
          Within(Written(rows[|rows| - 1], rule), boundary) == Within(Entry(m, rule), boundary);
    }
  }

  lemma {:induction false} SlotsKeepSide(m: Table, slots: seq<seq<C.Row>>, rule: Code, boundary: Option<int>)
    requires NoneCrosses([slots], rule, Within(Entry(m, rule), boundary), boundary)
    ensures Within(Entry(AfterSlots(m, slots), rule), boundary) == Within(Entry(m, rule), boundary)
  {
    if slots != [] {
      var n := |slots| - 1;
      assert forall k | 0 <= k < n :: [slots[..n]][0][k] == [slots][0][k];
      SlotsKeepSide(m, slots[..n], rule, boundary);
      assert [slots][0][n] == slots[n];
      RowsKeepSide(AfterSlots(m, slots[..n]), slots[n], rule, boundary);
    }
  }

  lemma {:induction false} AccountsKeepSide(m: Table, between: seq<seq<seq<C.Row>>>, rule: Code, boundary: Option<int>)
    requires NoneCrosses(between, rule, Within(Entry(m, rule), boundary), boundary)
    ensures Within(Entry(AfterAccounts(m, between), rule), boundary) == Within(Entry(m, rule), boundary)
  {
    if between != [] {
      var n := |between| - 1;
      AccountsKeepSide(m, between[..n], rule, boundary);
      assert [between[n]][0] == between[n];
      SlotsKeepSide(AfterAccounts(m, between[..n]), between[n], rule, boundary);
    }
  }

  /** So a round is uniform in a rule when no row written during it, if any is, moves the rule's
      interval across the boundary. */
  lemma NoCrossingIsUniform(accounts: seq<Account>, rules: seq<Code>, m: Table, between: seq<seq<seq<C.Row>>>,
                            s: Schedule, k: nat)
    requires Shaped(between, |accounts|, |rules|) && k < |rules| && Distinct(rules)
    requires NoneCrosses(between, rules[k], Within(Entry(m, rules[k]), Boundary(rules[k], s)), Boundary(rules[k], s))
    ensures Uniform(accounts, rules, SeenBy(m, between), s, k)
  {
    var seen, rule, b := SeenBy(m, between), rules[k], Boundary(rules[k], s);
    forall i | 0 <= i < |accounts|
      ensures Within(Entry(seen[i][k], rule), b) == Within(Entry(m, rule), b)
    {
      SeenByAt(m, between, i);
      var m1 := AfterAccounts(m, between[..i]);
      AccountsKeepSide(m, between[..i], rule, b);
      SeenAt(m1, between[i], k);
      assert forall j | 0 <= j < k + 1 :: [between[i][..k + 1]][0][j] == between[i][j];
      SlotsKeepSide(m1, between[i][..k + 1], rule, b);
    }
    RoundIsUniformIff(accounts, rules, seen, s, k);
  }

  /** It happens: between two healthy accounts a reload shortens E-005's interval, the second account
      evaluates the rule, the first did not, and the time is remembered for both. */
  lemma ReloadCanSplitRound(a: Account, b: Account) returns (between: seq<seq<seq<C.Row>>>)
    requires a.healthy && b.healthy
    ensures var s, m := Schedule(10000, map[E005 := 0], 30000), map[E005 := 60000];
            && Shaped(between, 2, 1)
            && RoundTrace([a, b], [E005], SeenBy(m, between), s) == [Evaluation(1, E005)]
            && Stamped([E005], SeenBy(m, between)[1], s) == map[E005 := 30000]
  {
    var row := C.Row(E005, map["evaluation_interval" := C.Text(Some(20000))]);
    var quiet: seq<seq<C.Row>> := [[]];
    between := [quiet, [[row]]];
    var s, m := Schedule(10000, map[E005 := 0], 30000), map[E005 := 60000];
    var seen := SeenBy(m, between);
    QuietSlot(m);
    OneRow(m, row);
    SeenByAt(m, between, 0);
    SeenByAt(m, between, 1);
    assert between[..0] == [] && between[..1] == [quiet];
    assert [quiet][..0] == [];
    assert AfterAccounts(m, [quiet]) == AfterSlots(AfterAccounts(m, []), quiet);
    assert seen == [[m], [m[E005 := 20000]]];
    SplitTrace(a, b, m, m[E005 := 20000], s);
  }

  lemma QuietSlot(m: Table)
    ensures var quiet: seq<seq<C.Row>> := [[]]; AfterSlots(m, quiet) == m && Seen(m, quiet) == [m]
  {
    var quiet: seq<seq<C.Row>> := [[]];
    assert quiet[..0] == [];
    SeenAt(m, quiet, 0);
    assert quiet[..1] == quiet;
  }

  lemma OneRow(m: Table, row: C.Row)
    ensures AfterSlots(m, [[row]]) == C.IntervalApplied(m, row) && Seen(m, [[row]]) == [C.IntervalApplied(m, row)]
  {
    assert [[row]][..0] == [] && [row][..0] == [];
    assert C.IntervalsApplied(m, [row]) == C.IntervalApplied(C.IntervalsApplied(m, []), row);
    SeenAt(m, [[row]], 0);
    assert [[row]][..1] == [[row]];
  }

  lemma SplitTrace(a: Account, b: Account, m: Table, m': Table, s: Schedule)
    requires a.healthy && b.healthy && !Due(E005, m, s) && Due(E005, m', s)
    ensures RoundTrace([a, b], [E005], [[m], [m']], s) == [Evaluation(1, E005)]
    ensures Stamped([E005], [m'], s) == s.last[E005 := s.now]
  {
    var rules := [E005];
    assert rules[..0] == [] && [m][..0] == [] && [m'][..0] == [];
    assert AccountTrace(rules, 0, true, [m], s) == AccountTrace([], 0, true, [], s);
    assert AccountTrace(rules, 1, true, [m'], s) == AccountTrace([], 1, true, [], s) + [Evaluation(1, E005)];
    var accounts, seen := [a, b], [[m], [m']];
    RoundStep(accounts, 0, rules, seen, s);
    RoundStep(accounts, 1, rules, seen, s);
    assert accounts[..2] == accounts && seen[..2] == seen && accounts[..0] == [] && seen[..0] == [];
  }

  lemma DistinctConcat<T>(xs: seq<T>, ys: seq<T>)
    requires Distinct(xs) && Distinct(ys) && forall x | x in xs :: x !in ys
    ensures Distinct(xs + ys)
  {
    forall i, j | 0 <= i < j < |xs + ys|
      ensures (xs + ys)[i] != (xs + ys)[j]
    {
      assert i < |xs| <= j ==> xs[i] in xs && ys[j - |xs|] in ys;
    }
  }

  lemma {:induction false} AccountTraceIsDistinct(rules: seq<Code>, i: nat, healthy: bool, seen: seq<Table>,
                                                  s: Schedule)
    requires Distinct(rules) && |seen| == |rules|
    ensures Distinct(AccountTrace(rules, i, healthy, seen, s))
  {
    if rules != [] {
      var n := |rules| - 1;
      AccountTraceIsDistinct(rules[..n], i, healthy, seen[..n], s);
      AccountTraceHas(rules[..n], i, healthy, seen[..n], s, Evaluation(i, rules[n]));
      DistinctConcat(AccountTrace(rules[..n], i, healthy, seen[..n], s), [Evaluation(i, rules[n])]);
    }
  }

  /** No rule is evaluated twice for an account in a round. */
  lemma {:induction false} RoundTraceIsDistinct(accounts: seq<Account>, rules: seq<Code>, seen: seq<seq<Table>>,
                                                s: Schedule)
    requires Distinct(rules) && Shaped(seen, |accounts|, |rules|)
    ensures Distinct(RoundTrace(accounts, rules, seen, s))
  {
    if accounts != [] {
      var n := |accounts| - 1;
      RoundTraceIsDistinct(accounts[..n], rules, seen[..n], s);
      AccountTraceIsDistinct(rules, n, accounts[n].healthy, seen[n], s);
      forall e | e in RoundTrace(accounts[..n], rules, seen[..n], s)
        ensures e !in AccountTrace(rules, n, accounts[n].healthy, seen[n], s)
      {
        RoundTraceHas(accounts[..n], rules, seen[..n], s, e);
        AccountTraceHas(rules, n, accounts[n].healthy, seen[n], s, e);
      }
      DistinctConcat(RoundTrace(accounts[..n], rules, seen[..n], s),
                     AccountTrace(rules, n, accounts[n].healthy, seen[n], s));
    }
  }

  // ---------------------------------------------------------------- order and content of the alerts

  /** What account i's data make rule k's function return. */
  ghost predicate Raises(a: Account, rule: Code, alerts: seq<Alert>) {
    if rule in a.raised then alerts == a.raised[rule] else alerts == []
  }

  ghost predicate SliceAt(accounts: seq<Account>, e: Evaluation, alerts: seq<Alert>, from: nat, to: nat) {
    e.account < |accounts| && from <= to <= |alerts| && Raises(accounts[e.account], e.rule, alerts[from..to])
  }

  /** `at` cuts the alerts into one slice per evaluation, in the trace's order, each holding exactly what
      that rule returns on that account's data. */
  ghost predicate Slices(accounts: seq<Account>, trace: seq<Evaluation>, alerts: seq<Alert>, at: seq<nat>) {
    && |at| == |trace| + 1 && at[0] == 0 && at[|trace|] == |alerts|
    && forall k | 0 <= k < |trace| :: SliceAt(accounts, trace[k], alerts, at[k], at[k + 1])
  }

  lemma SliceStays(accounts: seq<Account>, e: Evaluation, alerts: seq<Alert>, more: seq<Alert>, from: nat, to: nat)
    requires SliceAt(accounts, e, alerts, from, to)
    ensures SliceAt(accounts, e, alerts + more, from, to)
  {
    assert (alerts + more)[from..to] == alerts[from..to];
  }

  lemma SlicesSnoc(accounts: seq<Account>, trace: seq<Evaluation>, alerts: seq<Alert>, at: seq<nat>, e: Evaluation,
                   more: seq<Alert>)
    requires Slices(accounts, trace, alerts, at)
    requires e.account < |accounts| && Raises(accounts[e.account], e.rule, more)
    ensures Slices(accounts, trace + [e], alerts + more, at + [|alerts| + |more|])
  {
    var trace', at' := trace + [e], at + [|alerts| + |more|];
    forall k | 0 <= k < |trace'|
      ensures SliceAt(accounts, trace'[k], alerts + more, at'[k], at'[k + 1])
    {
      if k < |trace| {
        SliceStays(accounts, trace[k], alerts, more, at[k], at[k + 1]);
      } else {
        assert (alerts + more)[|alerts|..|alerts| + |more|] == more;
      }
    }
  }

  lemma {:induction false} AlertsAreSlices(accounts: seq<Account>, trace: seq<Evaluation>) returns (at: seq<nat>)
    requires forall k | 0 <= k < |trace| :: trace[k].account < |accounts|
    ensures Slices(accounts, trace, AlertsOf(accounts, trace), at)
  {
    if trace == [] {
      at := [0];
    } else {
      var front, e := trace[..|trace| - 1], trace[|trace| - 1];
      at := AlertsAreSlices(accounts, front);
      var more := RaisedBy(accounts[e.account], e.rule);
      SlicesSnoc(accounts, front, AlertsOf(accounts, front), at, e, more);
      assert trace == front + [e];
      at := at + [|AlertsOf(accounts, front)| + |more|];
    }
  }

  lemma {:induction false} TraceInRange(accounts: seq<Account>, rules: seq<Code>, seen: seq<seq<Table>>, s: Schedule)
    requires Shaped(seen, |accounts|, |rules|)
    ensures forall k | 0 <= k < |RoundTrace(accounts, rules, seen, s)| ::
              RoundTrace(accounts, rules, seen, s)[k].account < |accounts|
  {
    var trace := RoundTrace(accounts, rules, seen, s);
    forall k | 0 <= k < |trace|
      ensures trace[k].account < |accounts|
    {
      RoundTraceHas(accounts, rules, seen, s, trace[k]);
    }
  }

  /** The alerts of a round are those its evaluations return, whole, one after the other in the order of
      the evaluations, and nothing else. */
  lemma RoundAlertsAreSlices(accounts: seq<Account>, rules: seq<Code>, seen: seq<seq<Table>>, s: Schedule)
      returns (at: seq<nat>)
    requires Shaped(seen, |accounts|, |rules|)
    ensures var trace := RoundTrace(accounts, rules, seen, s);
            Slices(accounts, trace, AlertsOf(accounts, trace), at)
  {
    TraceInRange(accounts, rules, seen, s);
    at := AlertsAreSlices(accounts, RoundTrace(accounts, rules, seen, s));
  }

  /** So an alert goes out in a round exactly when some account's data make a rule return it and, if the
      account is healthy, that rule is due by the table its read sees, or else the rule is S-004. */
  lemma AlertIsRaisedIff(accounts: seq<Account>, rules: seq<Code>, seen: seq<seq<Table>>, s: Schedule, x: Alert)
    requires Shaped(seen, |accounts|, |rules|) && Distinct(rules)
    ensures x in AlertsOf(accounts, RoundTrace(accounts, rules, seen, s))
            <==> exists i, k :: 0 <= i < |accounts| && 0 <= k < |rules| && Returns(accounts, rules, seen, s, i, k, x)
  {
    var trace := RoundTrace(accounts, rules, seen, s);
    var at := RoundAlertsAreSlices(accounts, rules, seen, s);
    SlicesHold(accounts, trace, AlertsOf(accounts, trace), at, x);
    if x in AlertsOf(accounts, trace) {
      var n :| 0 <= n < |trace| && ReturnedBy(accounts, trace[n], x);
      EvaluationReturns(accounts, rules, seen, s, trace[n], x);
    }
    if i, k :| 0 <= i < |accounts| && 0 <= k < |rules| && Returns(accounts, rules, seen, s, i, k, x) {
      WhoEvaluates(accounts, rules, seen, s, i, k);
      var n :| 0 <= n < |trace| && trace[n] == Evaluation(i, rules[k]);
      assert ReturnedBy(accounts, trace[n], x);
    }
  }

  ghost predicate ReturnedBy(accounts: seq<Account>, e: Evaluation, x: Alert) {
    e.account < |accounts| && e.rule in accounts[e.account].raised && x in accounts[e.account].raised[e.rule]
  }

  lemma SlicesHold(accounts: seq<Account>, trace: seq<Evaluation>, alerts: seq<Alert>, at: seq<nat>, x: Alert)
    requires Slices(accounts, trace, alerts, at)
    ensures x in alerts <==> exists n :: 0 <= n < |trace| && ReturnedBy(accounts, trace[n], x)
  {
    if x in alerts {
      var p :| 0 <= p < |alerts| && alerts[p] == x;
      var n := SliceOf(at, |trace|, p);
      assert SliceAt(accounts, trace[n], alerts, at[n], at[n + 1]);
      assert alerts[at[n]..at[n + 1]][p - at[n]] == x;
      assert ReturnedBy(accounts, trace[n], x);
    }
    if n :| 0 <= n < |trace| && ReturnedBy(accounts, trace[n], x) {
      assert SliceAt(accounts, trace[n], alerts, at[n], at[n + 1]);
      assert x in alerts[at[n]..at[n + 1]];
    }
  }

  lemma EvaluationReturns(accounts: seq<Account>, rules: seq<Code>, seen: seq<seq<Table>>, s: Schedule, e: Evaluation,
                          x: Alert)
    requires Shaped(seen, |accounts|, |rules|) && ReturnedBy(accounts, e, x)
    requires e in RoundTrace(accounts, rules, seen, s)
    ensures exists i, k :: 0 <= i < |accounts| && 0 <= k < |rules| && Returns(accounts, rules, seen, s, i, k, x)
  {
    RoundTraceHas(accounts, rules, seen, s, e);
    AccountTraceHas(rules, e.account, accounts[e.account].healthy, seen[e.account], s, e);
    var k :| 0 <= k < |rules| && rules[k] == e.rule
             && Runs(e.rule, accounts[e.account].healthy, seen[e.account][k], s);
    assert Returns(accounts, rules, seen, s, e.account, k, x);
  }

  ghost predicate Returns(accounts: seq<Account>, rules: seq<Code>, seen: seq<seq<Table>>, s: Schedule, i: int, k: int,
                          x: Alert)
    requires Shaped(seen, |accounts|, |rules|) && 0 <= i < |accounts| && 0 <= k < |rules|
  {
    && rules[k] in accounts[i].raised && x in accounts[i].raised[rules[k]]
    && if accounts[i].healthy then Due(rules[k], seen[i][k], s) else rules[k] == S004
  }

  /** The slice a position lies in. */
  lemma {:induction false} SliceOf(at: seq<nat>, n: nat, p: nat) returns (k: nat)
    requires n < |at| && at[0] == 0 && p < at[n]
    ensures k < n && at[k] <= p < at[k + 1]
  {
    if p >= at[n - 1] {
      k := n - 1;
    } else {
      k := SliceOf(at, n - 1, p);
    }
  }

  /** Account by account, and for one account rule by rule. */
  ghost predicate InOrder(trace: seq<Evaluation>, rules: seq<Code>) {
    forall p, q | 0 <= p < q < |trace| ::
      trace[p].account < trace[q].account
      || (trace[p].account == trace[q].account && Precedes(rules, trace[p].rule, trace[q].rule))
  }

  ghost predicate Precedes(rules: seq<Code>, r: Code, r': Code) {
    exists j, k :: 0 <= j < k < |rules| && rules[j] == r && rules[k] == r'
  }

  lemma {:induction false} AccountTraceInOrder(rules: seq<Code>, i: nat, healthy: bool, seen: seq<Table>, s: Schedule)
    requires |seen| == |rules|
    ensures InOrder(AccountTrace(rules, i, healthy, seen, s), rules)
  {
    if rules != [] {
      var n := |rules| - 1;
      var front := AccountTrace(rules[..n], i, healthy, seen[..n], s);
      AccountTraceInOrder(rules[..n], i, healthy, seen[..n], s);
      forall p, q | 0 <= p < q < |front|
        ensures Precedes(rules, front[p].rule, front[q].rule) && front[p].account == front[q].account
      {
        AccountTraceHas(rules[..n], i, healthy, seen[..n], s, front[p]);
        AccountTraceHas(rules[..n], i, healthy, seen[..n], s, front[q]);
        var j, k :| 0 <= j < k < n && rules[..n][j] == front[p].rule && rules[..n][k] == front[q].rule;
        assert rules[j] == front[p].rule && rules[k] == front[q].rule;
      }
      forall p | 0 <= p < |front|
        ensures Precedes(rules, front[p].rule, rules[n]) && front[p].account == i
      {
        AccountTraceHas(rules[..n], i, healthy, seen[..n], s, front[p]);
        var j :| 0 <= j < n && rules[..n][j] == front[p].rule;
        assert rules[j] == front[p].rule;
      }
    }
  }

  /** A round evaluates account by account, and each account's rules in the order of the list. */
  lemma {:induction false} RoundTraceInOrder(accounts: seq<Account>, rules: seq<Code>, seen: seq<seq<Table>>,
                                             s: Schedule)
    requires Shaped(seen, |accounts|, |rules|)
    ensures InOrder(RoundTrace(accounts, rules, seen, s), rules)
  {
    if accounts != [] {
      var n := |accounts| - 1;
      var front, last := RoundTrace(accounts[..n], rules, seen[..n], s),
                         AccountTrace(rules, n, accounts[n].healthy, seen[n], s);
      RoundTraceInOrder(accounts[..n], rules, seen[..n], s);
      AccountTraceInOrder(rules, n, accounts[n].healthy, seen[n], s);
      TraceInRange(accounts[..n], rules, seen[..n], s);
      forall q | 0 <= q < |last|
        ensures last[q].account == n
      {
        AccountTraceHas(rules, n, accounts[n].healthy, seen[n], s, last[q]);
      }
      OrderAppend(front, last, rules, n);
    }
  }

  lemma OrderAppend(front: seq<Evaluation>, last: seq<Evaluation>, rules: seq<Code>, n: nat)
    requires InOrder(front, rules) && InOrder(last, rules)
    requires forall p | 0 <= p < |front| :: front[p].account < n
    requires forall q | 0 <= q < |last| :: last[q].account == n
    ensures InOrder(front + last, rules)
  {
    var all := front + last;
    forall p, q | 0 <= p < q < |all|
      ensures all[p].account < all[q].account
              || (all[p].account == all[q].account && Precedes(rules, all[p].rule, all[q].rule))
    {
      if q >= |front| && p >= |front| {
        assert all[p] == last[p - |front|] && all[q] == last[q - |front|];
      }
    }
  }

  /** A round with one healthy account whose E-001 returns one alert, and no interval set, raises it. */
  lemma RoundRaises(a: Account, x: Alert, s: Schedule)
    requires a.healthy && a.raised == map[E001 := [x]]
    ensures AlertsOf([a], RoundTrace([a], [E001], [[map[]]], s)) == [x]
  {
    var m: Table := map[];
    assert [a][..0] == [] && [[m]][..0] == [] && [E001][..0] == [] && [m][..0] == [];
    assert AccountTrace([E001], 0, true, [m], s) == AccountTrace([], 0, true, [], s) + [Evaluation(0, E001)];
    RoundStep([a], 0, [E001], [[m]], s);
    assert [a][..1] == [a] && [[m]][..1] == [[m]];
    var trace := RoundTrace([a], [E001], [[m]], s);
    assert trace == [Evaluation(0, E001)];
    var at := RoundAlertsAreSlices([a], [E001], [[m]], s);
    var alerts := AlertsOf([a], trace);
    assert SliceAt([a], trace[0], alerts, at[0], at[1]) && alerts[0..|alerts|] == alerts;
  }

  // ---------------------------------------------------------------- intervals

  /** Every read of every round sees the rule with the same interval, longer than the poll interval. */
  ghost predicate Steady(rounds: seq<Round>, poll: int, rule: Code, interval: int) {
    && interval > 0 && interval > poll && AllFormed(rounds)
    && forall k | 0 <= k < |rounds| :: SteadyRound(rounds[k], rule, interval)
  }

  ghost predicate SteadyRound(r: Round, rule: Code, interval: int)
    requires Formed(r)
  {
    && rule in r.rules
    && forall i, j | 0 <= i < |r.seen| && 0 <= j < |r.rules| :: Entry(r.seen[i][j], rule) == Some(interval)
  }

  /** A healthy account evaluated the rule in round k. */
  ghost predicate Evaluated(rounds: seq<Round>, k: nat, poll: int, rule: Code)
    requires k < |rounds| && AllFormed(rounds)
  {
    exists i, j ::
        0 <= i < |rounds[k].healthy| && rounds[k].healthy[i] && 0 <= j < |rounds[k].rules|
        && rounds[k].rules[j] == rule
                   && Due(rule, rounds[k].seen[i][j], ScheduleAt(rounds, k, poll))
  }

  /** The same, when every read sees one interval. */
  ghost predicate EvaluatedAt(rounds: seq<Round>, k: nat, poll: int, rule: Code, interval: int)
    requires k < |rounds| && AllFormed(rounds)
  {
    true in rounds[k].healthy && DueBy(rule, Some(interval), ScheduleAt(rounds, k, poll))
  }

  lemma EvaluatedIff(rounds: seq<Round>, k: nat, poll: int, rule: Code, interval: int)
    requires Steady(rounds, poll, rule, interval) && k < |rounds|
    ensures Evaluated(rounds, k, poll, rule) <==> EvaluatedAt(rounds, k, poll, rule, interval)
  {
    assert SteadyRound(rounds[k], rule, interval);
    if EvaluatedAt(rounds, k, poll, rule, interval) {
      var i :| 0 <= i < |rounds[k].healthy| && rounds[k].healthy[i];
      var j :| 0 <= j < |rounds[k].rules| && rounds[k].rules[j] == rule;
      assert Due(rule, rounds[k].seen[i][j], ScheduleAt(rounds, k, poll));
    }
  }

  /** A round moves a rule's remembered time exactly if it evaluated it and is remembered. */
  lemma RememberedAfter(rounds: seq<Round>, k: nat, poll: int, rule: Code, interval: int)
    requires Steady(rounds, poll, rule, interval) && k < |rounds|
    ensures var last, next := Replay(rounds[..k], poll), Replay(rounds[..k + 1], poll);
            var stamps := Remembers(rounds[k]) && EvaluatedAt(rounds, k, poll, rule, interval);
            && (rule in next <==> stamps || rule in last)
            && (rule in next ==> next[rule] == if stamps then rounds[k].now else last[rule])
  {
    assert rounds[..k + 1][..k] == rounds[..k] && SteadyRound(rounds[k], rule, interval);
    if Remembers(rounds[k]) {
      var j :| 0 <= j < |rounds[k].rules| && rounds[k].rules[j] == rule;
      var i := |rounds[k].seen| - 1;
      StampedAt(rounds[k].rules, rounds[k].seen[i], ScheduleAt(rounds, k, poll), j);
    }
  }

  /** Remembered rounds that do not evaluate the rule, from j + 1 up to k. */
  ghost predicate Quiet(rounds: seq<Round>, poll: int, rule: Code, interval: int, j: nat, k: nat)
    requires k <= |rounds| && AllFormed(rounds)
    decreases k
  {
    k <= j + 1
    || (Remembers(rounds[k - 1]) && !EvaluatedAt(rounds, k - 1, poll, rule, interval)
        && Quiet(rounds, poll, rule, interval, j, k - 1))
  }

  lemma {:induction false} QuietBetween(rounds: seq<Round>, poll: int, rule: Code, interval: int, j: nat, k: nat)
    requires Steady(rounds, poll, rule, interval) && j < k <= |rounds|
    requires forall i | j <= i < k :: Remembers(rounds[i])
    requires forall i | j < i < k :: !Evaluated(rounds, i, poll, rule)
    ensures Quiet(rounds, poll, rule, interval, j, k)
  {
    if k > j + 1 {
      EvaluatedIff(rounds, k - 1, poll, rule, interval);
      QuietBetween(rounds, poll, rule, interval, j, k - 1);
    }
  }

  lemma {:induction false} RememberedSince(rounds: seq<Round>, poll: int, rule: Code, interval: int, j: nat, k: nat)
    requires Steady(rounds, poll, rule, interval) && j < k <= |rounds|
    requires Remembers(rounds[j]) && EvaluatedAt(rounds, j, poll, rule, interval)
             && Quiet(rounds, poll, rule, interval, j, k)
    ensures rule in Replay(rounds[..k], poll) && Replay(rounds[..k], poll)[rule] == rounds[j].now
  {
    RememberedAfter(rounds, k - 1, poll, rule, interval);
    if k > j + 1 {
      RememberedSince(rounds, poll, rule, interval, j, k - 1);
    }
  }

  /** A rule's remembered time is that of the last round that evaluated it. */
  lemma RemembersLastEvaluation(rounds: seq<Round>, poll: int, rule: Code, interval: int, j: nat, k: nat)
    requires Steady(rounds, poll, rule, interval) && j < k <= |rounds|
    requires forall i | j <= i < k :: Remembers(rounds[i])
    requires Evaluated(rounds, j, poll, rule) && forall i | j < i < k :: !Evaluated(rounds, i, poll, rule)
    ensures rule in Replay(rounds[..k], poll) && Replay(rounds[..k], poll)[rule] == rounds[j].now
  {
    EvaluatedIff(rounds, j, poll, rule, interval);
    QuietBetween(rounds, poll, rule, interval, j, k);
    RememberedSince(rounds, poll, rule, interval, j, k);
  }

  /** With the last account healthy, consecutive evaluations of a rule start at least its interval
      and less than its interval plus the largest gap between rounds apart. */
  lemma EvaluationsAreSpaced(rounds: seq<Round>, poll: int, rule: Code, interval: int, gap: int, j: nat, k: nat)
    requires Steady(rounds, poll, rule, interval) && j < k < |rounds|
    requires forall i | 0 < i < |rounds| :: rounds[i].now - rounds[i - 1].now <= gap
    requires forall i | j <= i < k :: Remembers(rounds[i])
    requires Evaluated(rounds, j, poll, rule) && Evaluated(rounds, k, poll, rule)
    requires forall i | j < i < k :: !Evaluated(rounds, i, poll, rule)
    ensures interval <= rounds[k].now - rounds[j].now < interval + gap
  {
    RemembersLastEvaluation(rounds, poll, rule, interval, j, k);
    EvaluatedIff(rounds, k, poll, rule, interval);
    if k - 1 > j {
      RemembersLastEvaluation(rounds, poll, rule, interval, j, k - 1);
      EvaluatedIff(rounds, k - 1, poll, rule, interval);
    }
  }

  /** When the interval has not passed by the next round, the rule is due again all the same exactly
      when the round that evaluated it ended with an errored account: evaluations are remembered
      only after the last account. */
  lemma DueAgainTooSoonIff(rounds: seq<Round>, poll: int, rule: Code, interval: int, k: nat)
    requires Steady(rounds, poll, rule, interval) && k + 1 < |rounds|
    requires Evaluated(rounds, k, poll, rule)
    requires rounds[k].now <= rounds[k + 1].now < rounds[k].now + interval
    ensures DueBy(rule, Some(interval), ScheduleAt(rounds, k + 1, poll))
            <==> !rounds[k].healthy[|rounds[k].healthy| - 1]
  {
    RememberedAfter(rounds, k, poll, rule, interval);
    EvaluatedIff(rounds, k, poll, rule, interval);
  }

  /** It happens: an errored second account makes E-005, set to once a minute, due again after twenty
      seconds. */
  lemma DueAgainTooSoon() returns (rounds: seq<Round>)
    ensures Steady(rounds, 10000, E005, 60000) && |rounds| == 2
    ensures rounds[0].now == 0 && rounds[1].now == 20000
    ensures Evaluated(rounds, 0, 10000, E005) && Evaluated(rounds, 1, 10000, E005)
  {
    var m := map[E005 := 60000];
    rounds := [Round(0, [E005], [[m], [m]], [true, false]), Round(20000, [E005], [[m], [m]], [true, true])];
    assert forall k | 0 <= k < 2 :: SteadyRound(rounds[k], E005, 60000);
    assert rounds[..0] == [];
    EvaluatedIff(rounds, 0, 10000, E005, 60000);
    DueAgainTooSoonIff(rounds, 10000, E005, 60000, 0);
    EvaluatedIff(rounds, 1, 10000, E005, 60000);
  }

  /** A rule is due by an interval in every round, whatever happened before, exactly when it has none
      that is longer than the poll interval. */
  lemma RunsEveryRoundIff(rule: Code, m: Table, poll: int)
    ensures (forall last: Clocks, now: int :: Due(rule, m, Schedule(poll, last, now)))
            <==> (rule in m ==> m[rule] <= 0 || m[rule] <= poll)
  {
    if rule in m && m[rule] > 0 && m[rule] > poll {
      assert !Due(rule, m, Schedule(poll, map[rule := 0], 0));
    }
  }
}
