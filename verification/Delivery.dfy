/** What becomes of a round's alerts: each is sent, suppressed or failed under the cooldowns the
    earlier ones set. */
module Delivery {
  import opened Prelude
  import opened Cooldown

  /** One answer per alert, with clock readings that do not go back. */
  ghost predicate Answers(answers: seq<Answer>, chats: nat, clock: int) {
    && (forall i | 0 <= i < |answers| :: |answers[i].reached| == chats && answers[i].now >= clock)
    && (forall i, j | 0 <= i < j < |answers| :: answers[i].now <= answers[j].now)
  }

  function ClockAfter(answers: seq<Answer>, i: nat, clock: int): int
    requires i <= |answers|
  {
    if i == 0 then clock else answers[i - 1].now
  }

  function Count(outcomes: seq<Outcome>, o: Outcome): nat {
    if outcomes == [] then 0 else Count(outcomes[..|outcomes| - 1], o) + if outcomes[|outcomes| - 1] == o then 1 else 0
  }

  lemma CountSnoc(outcomes: seq<Outcome>, x: Outcome, o: Outcome)
    ensures Count(outcomes + [x], o) == Count(outcomes, o) + if x == o then 1 else 0
  {
    assert (outcomes + [x])[..|outcomes|] == outcomes;
  }

  datatype Run = Run(log: seq<Admission>, outcomes: seq<Outcome>)

  /** Sending one alert after another. */
  ghost function Deliveries(log: seq<Admission>, alerts: seq<Alert>, answers: seq<Answer>, ttl: int,
                            hasRedis: bool): Run
    requires |alerts| == |answers|
  {
    if alerts == [] then Run(log, [])
    else
      var n := |alerts| - 1;
      SendOne(Deliveries(log, alerts[..n], answers[..n], ttl, hasRedis), alerts[n], answers[n], ttl, hasRedis)
  }

  ghost function SendOne(run: Run, alert: Alert, answer: Answer, ttl: int, hasRedis: bool): Run {
    Run(Logged(run.log, alert, ttl, hasRedis, answer), run.outcomes + [Verdict(run.log, alert, ttl, hasRedis, answer)])
  }

  lemma DeliveriesNext(log: seq<Admission>, alerts: seq<Alert>, answers: seq<Answer>, i: nat, ttl: int, hasRedis: bool)
    requires i < |alerts| == |answers|
    ensures Deliveries(log, alerts[..i + 1], answers[..i + 1], ttl, hasRedis)
            == SendOne(Deliveries(log, alerts[..i], answers[..i], ttl, hasRedis), alerts[i], answers[i], ttl, hasRedis)
  {
    assert alerts[..i + 1][..i] == alerts[..i] && answers[..i + 1][..i] == answers[..i];
  }

  ghost predicate Tallied(run: Run, log: seq<Admission>, sent: nat, cooled: nat, failed: nat) {
    run.log == log && sent == Count(run.outcomes, Sent) && cooled == Count(run.outcomes, Cooled)
        && failed == Count(run.outcomes, Failed)
  }

  lemma TallyNext(run: Run, next: Run, o: Outcome, sent: nat, cooled: nat, failed: nat)
    requires Tallied(run, run.log, sent, cooled, failed) && next.outcomes == run.outcomes + [o]
    ensures Tallied(next, next.log, sent + (if o.Sent? then 1 else 0), cooled + (if o.Cooled? then 1 else 0),
                    failed + (if o.Failed? then 1 else 0))
  {
    CountSnoc(run.outcomes, o, Sent);
    CountSnoc(run.outcomes, o, Cooled);
    CountSnoc(run.outcomes, o, Failed);
  }
}
