/** Rule S-013: raise an alarm when an account's last activity is older than a threshold. The
    stored activity is truncated to whole seconds and its key expires after 24 hours. */
module FreshnessAlarm {
  import opened Prelude
  import opened RedisStore
  import opened MetricsEngine
  import opened Redelivery
  import opened SharedRedis

  const DEFAULT_THRESHOLD_MS: int := 30 * 1000

  datatype Verdict = Failed(reason: string) | Quiet | Alarm(lastActivity: Option<int>)

  class S013Rule {
    var threshold: int

    constructor (threshold: int)
      ensures this.threshold == threshold
    {
      this.threshold := threshold;
    }

    function Threshold(): (t: int)
      reads this
      ensures t > 0
    {
      if threshold > 0 then threshold else DEFAULT_THRESHOLD_MS
    }

    /** An account that never reported, or whose key expired, is as silent as one that is late. */
    method Check(account: Option<string>, redis: Option<Redis>, now: int, reachable: bool) returns (v: Verdict)
      ensures account.None? || redis.None? || !reachable ==> v.Failed?
      ensures account.Some? && redis.Some? && reachable ==>
                v == Judge(redis.value.st, account.value, now, if threshold > 0 then threshold else 30000)
    {
      if account.None? {
        return Failed("account is nil");
      }
      if redis.None? {
        return Failed("store is not available");
      }
      if !reachable {
        return Failed("last activity not readable");
      }
      var last := redis.value.GetLastActivity(account.value, now);
      if last.None? {
        return Alarm(None);
      }
      var gap := now - last.value;
      if gap <= Threshold() {
        return Quiet;
      }
      return Alarm(last);
    }
  }

  function Judge(st: Store, account: string, now: int, threshold: int): Verdict {
    var last := ReadStamp(st, LastActivity(account), now);
    if last.Some? && now - last.value <= threshold then Quiet else Alarm(last)
  }

  /** The activity key as SetLastActivity(t) leaves it when the write happens at w. */
  ghost predicate ActivityWritten(st: Store, account: string, t: int, w: int) {
    && LastActivity(account) in st.stamps
    && st.stamps[LastActivity(account)] == Expiring(t / SECOND_MS, At(w + DAY_MS))
  }

  /** Every successfully handled message writes the account's activity. */
  lemma HandlingWritesActivity(st: Store, a: Attempt, window: int)
    requires Complete(a)
    ensures ActivityWritten(Handle(st, a, window), a.m.account, a.m.time, a.now)
  {
    CellOfHandle(st, st, a, StampCell(LastActivity(a.m.account)), window);
  }

  /** Never misses: whatever the threshold, truncation and expiry, the alarm is raised whenever
      the true gap since the last written activity exceeds the threshold. */
  lemma NeverMisses(st: Store, account: string, t: int, w: int, now: int, threshold: int)
    requires ActivityWritten(st, account, t, w) && now - t > threshold
    ensures Judge(st, account, now, threshold).Alarm?
  {
  }

  /** At most one second early: no alarm while the true gap is a second or more below the
      threshold. */
  ghost predicate AtMostOneSecondEarly(st: Store, account: string, t: int, w: int, threshold: int) {
    forall now | w <= now && Judge(st, account, now, threshold).Alarm? :: now - t > threshold - SECOND_MS
  }

  /** Exactly when the alarm is at most a second early at every later check: the threshold must not
      outlast the key by more than that second, where an activity time ahead of the clock at the
      write shortens the key's useful life. */
  lemma OneSecondEarlyIff(st: Store, account: string, t: int, w: int, threshold: int)
    requires ActivityWritten(st, account, t, w)
    ensures AtMostOneSecondEarly(st, account, t, w, threshold) <==> threshold - SECOND_MS < DAY_MS - (t - w)
  {
    var expiry := w + DAY_MS;
    assert Judge(st, account, expiry, threshold).Alarm?;
    if threshold - SECOND_MS < DAY_MS - (t - w) {
      forall now | w <= now && Judge(st, account, now, threshold).Alarm?
        ensures now - t > threshold - SECOND_MS
      {
        assert t - t / SECOND_MS * SECOND_MS < SECOND_MS;
      }
    }
  }

  /** So for thresholds up to 24 hours and activity times not ahead of the clock, an alarm means
      the account has been silent for more than the threshold minus one second, and silence beyond
      the threshold always raises it. */
  lemma AlarmIsAccurate(st: Store, a: Attempt, window: int, now: int, threshold: int)
    requires Complete(a) && a.m.time <= a.now <= now && threshold <= DAY_MS
    ensures var v := Judge(Handle(st, a, window), a.m.account, now, threshold);
            && (now - a.m.time > threshold ==> v.Alarm?)
            && (v.Alarm? ==> now - a.m.time > threshold - SECOND_MS)
  {
    var st' := Handle(st, a, window);
    HandlingWritesActivity(st, a, window);
    OneSecondEarlyIff(st', a.m.account, a.m.time, a.now, threshold);
    if now - a.m.time > threshold {
      NeverMisses(st', a.m.account, a.m.time, a.now, now, threshold);
    }
  }

  /** The instant the rule takes a mark for: its second. */
  function Instant(m: Mark): int {
    SecondOf(m) * SECOND_MS
  }

  predicate Fresh(m: Mark, now: int, threshold: int) {
    now < m.at + DAY_MS && now - Instant(m) <= threshold
  }

  /** The verdict is about the last mark, whoever made it. */
  lemma VerdictFollowsLastMark(st: Store, acts: seq<Act>, account: string, window: int, now: int, threshold: int)
    requires ActsOk(acts) && LastMark(acts, account).Some?
    ensures Judge(RunActs(st, acts, window), account, now, threshold).Quiet?
            <==> Fresh(LastMark(acts, account).value, now, threshold)
  {
    ActivityIsLastMarks(st, acts, account, window);
  }

  /** Exactly when doing more, redeliveries included, raises an alarm that would not have been raised:
      the last mark before was fresh, and the last mark since, if there is one, is not. */
  lemma RedeliveryRaisesAlarmIff(st: Store, done: seq<Act>, again: seq<Act>, account: string, window: int,
                                 now: int, threshold: int)
    requires ActsOk(done) && ActsOk(again) && LastMark(done, account).Some?
    ensures var l, r := LastMark(done, account).value, LastMark(again, account);
            Judge(RunActs(st, done, window), account, now, threshold).Quiet?
            && Judge(RunActs(RunActs(st, done, window), again, window), account, now, threshold).Alarm?
            <==> now < l.at + DAY_MS && now - threshold <= Instant(l)
                 && r.Some? && (r.value.at + DAY_MS <= now || Instant(r.value) < now - threshold)
  {
    VerdictFollowsLastMark(st, done, account, window, now, threshold);
    ActivityIsLastMarks(RunActs(st, done, window), again, account, window);
  }

  /** What the reconciler does to the alarm. Within a threshold of one of its ticks, counted in whole
      seconds and within the key's lifetime, there is an alarm exactly if something marked the account
      after the tick and that last mark is not fresh: a stream that has gone silent raises none. */
  lemma AlarmAfterTickIff(st: Store, before: seq<Act>, at: int, after: seq<Act>, account: string, window: int,
                          now: int, threshold: int)
    requires ActsOk(before) && ActsOk(after) && Fresh(Mark(at, at), now, threshold)
    ensures ActsOk(before + [RestActivity(account, at)] + after)
    ensures Judge(RunActs(st, before + [RestActivity(account, at)] + after, window), account, now, threshold).Alarm?
            <==> LastMark(after, account).Some? && !Fresh(LastMark(after, account).value, now, threshold)
  {
    var ticked := before + [RestActivity(account, at)];
    assert ActsOk(ticked);
    RunActsAppend(st, ticked, after, window);
    LastMarkIn(ticked, after, account);
    LastMarkIn(before, [RestActivity(account, at)], account);
    assert LastMark([RestActivity(account, at)], account) == Some(Mark(at, at));
    VerdictFollowsLastMark(st, ticked + after, account, window, now, threshold);
  }
}
