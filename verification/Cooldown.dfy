/** The alerter's cooldown: one Redis key per kind of alert, set if absent with a lifetime, decides
    whether an alert is delivered. Times and lifetimes are milliseconds. */
module Cooldown {
  import opened Prelude
  import V = VolatilityRule

  datatype Alert = Alert(rule: string, account: string, cooldownKey: string, ttlSeconds: int)

  datatype Expiry = Never | At(time: int)

  type Keys = map<string, Expiry>

  predicate Live(keys: Keys, key: string, t: int) {
    key in keys && (keys[key].Never? || t < keys[key].time)
  }

  function DefaultKey(rule: string, account: string): string {
    "sentinel:cooldown:" + rule + ":" + account
  }

  function KeyOf(a: Alert): string {
    if a.cooldownKey == "" then DefaultKey(a.rule, a.account) else a.cooldownKey
  }

  function TtlOf(a: Alert, default: int): int {
    if a.ttlSeconds > 0 then a.ttlSeconds * 1000 else default
  }

  /** Redis reads a zero lifetime as "never expires"; it refuses a negative one. */
  function ExpiryOf(now: int, ttl: int): Expiry {
    if ttl == 0 then Never else At(now + ttl)
  }

  // ---------------------------------------------------------------- the log rule

  /** An alert let through by Redis, with the lifetime chosen for it. */
  datatype Admission = Admission(key: string, at: int, ttl: int)

  predicate Blocks(a: Admission, key: string, t: int) {
    a.key == key && (a.ttl == 0 || t < a.at + a.ttl)
  }

  /** Some earlier admission on the key is still within the lifetime chosen for it. */
  ghost predicate Cooling(log: seq<Admission>, key: string, t: int) {
    exists i :: 0 <= i < |log| && Blocks(log[i], key, t)
  }

  /** From `clock` on, Redis and the log agree on every key. */
  ghost predicate Agrees(keys: Keys, log: seq<Admission>, clock: int) {
    forall key, t | t >= clock :: Live(keys, key, t) <==> Cooling(log, key, t)
  }

  /** Each admission outlives every earlier one on its key. */
  ghost predicate Spaced(log: seq<Admission>) {
    forall i, j | 0 <= i < j < |log| && log[i].key == log[j].key ::
        log[i].ttl > 0 && log[j].at >= log[i].at + log[i].ttl
  }

  lemma CoolingSnoc(log: seq<Admission>, a: Admission, key: string, t: int)
    ensures Cooling(log + [a], key, t) <==> Cooling(log, key, t) || Blocks(a, key, t)
  {
    var all := log + [a];
    assert all[|log|] == a;
    if Cooling(log, key, t) {
      var i :| 0 <= i < |log| && Blocks(log[i], key, t);
      assert Blocks(all[i], key, t);
    }
  }

  lemma CoolingIsEarlier(log: seq<Admission>, key: string, t0: int, t: int)
    requires t0 <= t
    ensures Cooling(log, key, t) ==> Cooling(log, key, t0)
  {
    if Cooling(log, key, t) {
      var i :| 0 <= i < |log| && Blocks(log[i], key, t);
      assert Blocks(log[i], key, t0);
    }
  }

  lemma AdmitAt(keys: Keys, log: seq<Admission>, clock: int, a: Admission, key: string, t: int)
    requires Agrees(keys, log, clock) && clock <= a.at <= t && a.ttl >= 0 && !Live(keys, a.key, a.at)
    ensures Live(keys[a.key := ExpiryOf(a.at, a.ttl)], key, t) <==> Cooling(log + [a], key, t)
  {
    CoolingSnoc(log, a, key, t);
    CoolingIsEarlier(log, key, a.at, t);
  }

  lemma AdmitAgrees(keys: Keys, log: seq<Admission>, clock: int, a: Admission)
    requires Agrees(keys, log, clock) && clock <= a.at && a.ttl >= 0 && !Live(keys, a.key, a.at)
    ensures Agrees(keys[a.key := ExpiryOf(a.at, a.ttl)], log + [a], a.at)
  {
    forall key, t | t >= a.at
      ensures Live(keys[a.key := ExpiryOf(a.at, a.ttl)], key, t) <==> Cooling(log + [a], key, t)
    {
      AdmitAt(keys, log, clock, a, key, t);
    }
  }

  lemma AdmitSpaced(log: seq<Admission>, a: Admission)
    requires Spaced(log) && !Cooling(log, a.key, a.at) && forall i | 0 <= i < |log| :: log[i].ttl >= 0
    ensures Spaced(log + [a])
  {
    forall i | 0 <= i < |log| && log[i].key == a.key
      ensures log[i].ttl > 0 && a.at >= log[i].at + log[i].ttl
    {
      assert !Blocks(log[i], a.key, a.at);
    }
  }

  /** What Send's caller cannot know: the clock, whether Redis answers, and which chats a message
      gets to. */
  datatype Answer = Answer(now: int, up: bool, reached: seq<bool>)

  datatype Outcome = Sent | Cooled | Failed

  /** Redis can be asked about this alert: it is configured, answers, and accepts the lifetime. */
  predicate Asked(alert: Alert, default: int, hasRedis: bool, a: Answer) {
    hasRedis && a.up && TtlOf(alert, default) >= 0
  }

  /** The log rule: an alert passes exactly when Redis cannot be asked or no admission on its key is
      within its chosen lifetime. */
  ghost function Verdict(log: seq<Admission>, alert: Alert, default: int, hasRedis: bool, a: Answer): Outcome {
    if Asked(alert, default, hasRedis, a) && Cooling(log, KeyOf(alert), a.now) then Cooled
    else if forall i | 0 <= i < |a.reached| :: a.reached[i] then Sent
    else Failed
  }

  /** Passing is logged whether or not the message then gets anywhere. */
  ghost function Logged(log: seq<Admission>, alert: Alert, default: int, hasRedis: bool, a: Answer): seq<Admission> {
    if Asked(alert, default, hasRedis, a) && !Cooling(log, KeyOf(alert), a.now)
    then log + [Admission(KeyOf(alert), a.now, TtlOf(alert, default))] else log
  }

  // ---------------------------------------------------------------- the alerter

  class Alerter {
    var cooldownTTL: int
    var hasRedis: bool
    var chatIDs: seq<string>
    var redis: Keys               // the server's side of the cooldown
    ghost var log: seq<Admission>
    ghost var clock: int

    ghost predicate Valid()
      reads this
    {
      && Agrees(redis, log, clock) && Spaced(log)
      && forall i | 0 <= i < |log| :: log[i].ttl >= 0 && log[i].at <= clock
    }

    constructor (chatIDs: seq<string>, hasRedis: bool, cooldownTTL: int, start: int)
      ensures Valid() && log == [] && clock == start
      ensures this.chatIDs == chatIDs && this.hasRedis == hasRedis && this.cooldownTTL == cooldownTTL
    {
      this.chatIDs, this.hasRedis, this.cooldownTTL := chatIDs, hasRedis, cooldownTTL;
      redis, log, clock := map[], [], start;
    }

    /** Hot reload changes the default; admissions already made keep their lifetime. */
    method UpdateCooldownTTL(ttl: int)
      requires Valid()
      modifies this`cooldownTTL
      ensures Valid() && cooldownTTL == ttl
    {
      cooldownTTL := ttl;
    }

    /** Redis's set-if-absent; None is an error. `up`: the server answers. */
    method SetNX(key: string, ttl: int, now: int, up: bool) returns (ok: Option<bool>)
      requires Valid() && now >= clock
      modifies this`redis, this`log, this`clock
      ensures Valid() && clock == now
      ensures ok == if !up || ttl < 0 then None else Some(!Cooling(old(log), key, now))
      ensures log == if ok == Some(true) then old(log) + [Admission(key, now, ttl)] else old(log)
    {
      clock := now;
      if !up || ttl < 0 {
        return None;
      }
      if Live(redis, key, now) {
        return Some(false);
      }
      ghost var a := Admission(key, now, ttl);
      AdmitAgrees(redis, log, old(clock), a);
      AdmitSpaced(log, a);
      redis := redis[key := ExpiryOf(now, ttl)];
      log := log + [a];
      return Some(true);
    }

    /** Sent alerts went to every chat, Failed ones missed at least one, Cooled ones went to none;
        these are the source's (true, nil), (false, err) and (false, nil). */
    method Send(alert: Alert, answer: Answer) returns (outcome: Outcome)
      requires Valid() && answer.now >= clock && |answer.reached| == |chatIDs|
      modifies this`redis, this`log, this`clock
      ensures Valid() && clock == answer.now
      ensures outcome == Verdict(old(log), alert, cooldownTTL, hasRedis, answer)
      ensures log == Logged(old(log), alert, cooldownTTL, hasRedis, answer)
    {
      var key := KeyOf(alert);
      var ttl := cooldownTTL;
      if alert.ttlSeconds > 0 {
        ttl := alert.ttlSeconds * 1000;
      }
      if hasRedis {
        var ok := SetNX(key, ttl, answer.now, answer.up);
        if ok == Some(false) {
          return Cooled;
        }
      } else {
        clock := answer.now;
      }
      var lastErr := false;
      for i := 0 to |chatIDs|
        invariant lastErr <==> exists j :: 0 <= j < i && !answer.reached[j]
      {
        if !answer.reached[i] {
          lastErr := true;
        }
      }
      return if lastErr then Failed else Sent;
    }
  }

  // ---------------------------------------------------------------- how often a key is attempted

  /** Times at which a key was admitted in [from, from + span]. */
  function TimesIn(log: seq<Admission>, key: string, from: int, span: int): seq<int> {
    if log == [] then []
    else
      var a := log[|log| - 1];
      TimesIn(log[..|log| - 1], key, from, span)
      + if a.key == key && from <= a.at <= from + span then [a.at] else []
  }

  lemma {:induction false} TimesInBounds(log: seq<Admission>, key: string, from: int, span: int)
    ensures forall k | 0 <= k < |TimesIn(log, key, from, span)| ::
            from <= TimesIn(log, key, from, span)[k] <= from + span
  {
    if log != [] {
      TimesInBounds(log[..|log| - 1], key, from, span);
    }
  }

  /** The last time in the span is some admission's. */
  lemma {:induction false} LastIsLogged(log: seq<Admission>, key: string, from: int, span: int)
    requires TimesIn(log, key, from, span) != []
    ensures var times := TimesIn(log, key, from, span);
            exists i :: 0 <= i < |log| && log[i].key == key && log[i].at == times[|times| - 1]
  {
    var n := |log| - 1;
    var a := log[n];
    if !(a.key == key && from <= a.at <= from + span) {
      LastIsLogged(log[..n], key, from, span);
      var times := TimesIn(log[..n], key, from, span);
      var i :| 0 <= i < n && log[..n][i].key == key && log[..n][i].at == times[|times| - 1];
      assert log[i].at == times[|times| - 1];
    }
  }

  ghost predicate MinTtl(log: seq<Admission>, key: string, minTtl: int) {
    forall i | 0 <= i < |log| && log[i].key == key :: log[i].ttl >= minTtl
  }

  function Times(n: nat, m: int): int {
    n * m
  }

  lemma OneMore(n: nat, m: int)
    ensures Times(n + 1, m) == Times(n, m) + m
  {
  }

  lemma NextIsLater(log: seq<Admission>, a: Admission, key: string, from: int, span: int, minTtl: int)
    requires Spaced(log + [a]) && MinTtl(log + [a], key, minTtl) && a.key == key && TimesIn(log, key, from, span) != []
    ensures var times := TimesIn(log, key, from, span);
            a.at >= times[|times| - 1] + minTtl
  {
    LastIsLogged(log, key, from, span);
    var times := TimesIn(log, key, from, span);
    var i :| 0 <= i < |log| && log[i].key == key && log[i].at == times[|times| - 1];
    var all := log + [a];
    assert all[i] == log[i] && all[|log|] == a;
  }

  /** n admissions on a key span at least n - 1 lifetimes. */
  lemma {:induction false} AdmissionsSpread(log: seq<Admission>, key: string, from: int, span: int, minTtl: int)
    requires Spaced(log) && MinTtl(log, key, minTtl) && TimesIn(log, key, from, span) != []
    ensures var times := TimesIn(log, key, from, span);
            times[|times| - 1] - times[0] >= Times(|times| - 1, minTtl)
  {
    var n := |log| - 1;
    var a := log[n];
    var before := TimesIn(log[..n], key, from, span);
    if a.key == key && from <= a.at <= from + span {
      if before != [] {
        AdmissionsSpread(log[..n], key, from, span, minTtl);
        assert log == log[..n] + [a];
        NextIsLater(log[..n], a, key, from, span, minTtl);
        OneMore(|before| - 1, minTtl);
      }
    } else {
      AdmissionsSpread(log[..n], key, from, span, minTtl);
    }
  }

  lemma TimesGrows(a: nat, b: nat, m: int)
    requires a <= b && m > 0
    ensures Times(a, m) <= Times(b, m)
  {
  }

  lemma FitsIn(n: nat, m: int, span: int)
    requires m > 0 && Times(n, m) <= span
    ensures n <= span / m
  {
    var q := span / m;
    assert span < Times(q, m) + m;
    if n > q {
      OneMore(q, m);
      TimesGrows(q + 1, n, m);
    }
  }

  /** In any span, whatever mix of overrides and defaults was in force, a key is let through at most
      span / (shortest lifetime used) + 1 times. */
  lemma AttemptsAreBounded(log: seq<Admission>, key: string, from: int, span: int, minTtl: int)
    requires Spaced(log) && MinTtl(log, key, minTtl) && minTtl > 0 && span >= 0
    ensures |TimesIn(log, key, from, span)| <= span / minTtl + 1
  {
    var times := TimesIn(log, key, from, span);
    if times != [] {
      AdmissionsSpread(log, key, from, span, minTtl);
      TimesInBounds(log, key, from, span);
      FitsIn(|times| - 1, minTtl, span);
    }
  }

  // ---------------------------------------------------------------- which alerts share a key

  /** Default keys separate alerts: with no colon in a rule code, two share a key only when both the
      rule and the account agree. */
  lemma DefaultKeysSeparate(r1: string, a1: string, r2: string, a2: string)
    requires ':' !in r1 && ':' !in r2
    ensures DefaultKey(r1, a1) == DefaultKey(r2, a2) <==> r1 == r2 && a1 == a2
  {
    if DefaultKey(r1, a1) == DefaultKey(r2, a2) {
      var p := "sentinel:cooldown:";
      DropPrefix(p, r1 + ":" + a1);
      DropPrefix(p, r2 + ":" + a2);
      assert DefaultKey(r1, a1) == p + (r1 + ":" + a1) && DefaultKey(r2, a2) == p + (r2 + ":" + a2);
      SplitAtColon(r1, a1, r2, a2);
    }
  }

  /** M-001's key names a symbol and no account, so all accounts share it; it never meets the
      default key of an alert from another rule. */
  lemma SymbolKeysSeparate(symbol: string, a: Alert)
    requires ':' !in a.rule && a.cooldownKey == ""
    ensures V.KEY_PREFIX + symbol == KeyOf(a) <==> a.rule == "M-001" && a.account == symbol
  {
    DefaultKeysSeparate("M-001", symbol, a.rule, a.account);
    assert V.KEY_PREFIX == "sentinel:cooldown:" + "M-001" + ":";
  }

  /** Two alerts cool each other, in their own fields: one key of their own in common; or neither has one
      and rule and account agree; or one's own key spells the other's rule and account. */
  predicate SharesKey(a: Alert, b: Alert) {
    if a.cooldownKey == "" then
      if b.cooldownKey == "" then a.rule == b.rule && a.account == b.account
      else b.cooldownKey == "sentinel:cooldown:" + a.rule + ":" + a.account
    else if b.cooldownKey == "" then a.cooldownKey == "sentinel:cooldown:" + b.rule + ":" + b.account
    else a.cooldownKey == b.cooldownKey
  }

  lemma SharesKeyIff(a: Alert, b: Alert)
    requires ':' !in a.rule && ':' !in b.rule
    ensures KeyOf(a) == KeyOf(b) <==> SharesKey(a, b)
  {
    DefaultKeysSeparate(a.rule, a.account, b.rule, b.account);
  }

  /** Exactly when an alert that was let through cools another one, by the alerts' own fields and the
      defaults in force at each: they share a key and the first one's lifetime is not over. */
  lemma NextIsCooledIff(log: seq<Admission>, a: Alert, b: Alert, default: int, default': int, hasRedis: bool,
                        x: Answer, y: Answer)
    requires ':' !in a.rule && ':' !in b.rule && x.now <= y.now
    requires Asked(a, default, hasRedis, x) && Verdict(log, a, default, hasRedis, x) != Cooled
    requires Asked(b, default', hasRedis, y) && Verdict(log, b, default', hasRedis, y) != Cooled
    ensures Verdict(Logged(log, a, default, hasRedis, x), b, default', hasRedis, y) == Cooled
            <==> SharesKey(a, b)
                 && if a.ttlSeconds > 0 then y.now < x.now + a.ttlSeconds * 1000
                    else default == 0 || y.now < x.now + default
  {
    CoolingSnoc(log, Admission(KeyOf(a), x.now, TtlOf(a, default)), KeyOf(b), y.now);
    SharesKeyIff(a, b);
  }

  /** M-001's alert for a symbol, as it reaches the alerter. */
  function SymbolAlert(symbol: string, account: string, c: V.Config): Alert {
    var alert := V.AlertFor(symbol, c);
    Alert("M-001", account, alert.cooldownKey, alert.cooldownSeconds)
  }

  /** M-001's alerts cool each other by symbol alone: two symbols of one account both go out, and one
      symbol of two accounts only once in its lifetime. */
  lemma SymbolsCoolAlone(s1: string, a1: string, s2: string, a2: string, c: V.Config, default: int, now: int,
                         later: int)
    requires c.cooldown > 0 && now <= later
    ensures var first, second := SymbolAlert(s1, a1, c), SymbolAlert(s2, a2, c);
            var x, y := Answer(now, true, [true]), Answer(later, true, [true]);
            && Verdict([], first, default, true, x) == Sent
            && Verdict(Logged([], first, default, true, x), second, default, true, y)
               == if s1 == s2 && later < now + c.cooldown * 1000 then Cooled else Sent
  {
    var first, second := SymbolAlert(s1, a1, c), SymbolAlert(s2, a2, c);
    NextIsCooledIff([], first, second, default, default, true, Answer(now, true, [true]), Answer(later, true, [true]));
    if s1 != s2 {
      V.KeysDiffer(s1, s2);
    }
    assert |V.KEY_PREFIX| > 0;
  }

  /** An alert that misses one chat of two has failed. */
  lemma MissingOneChatFails(log: seq<Admission>, alert: Alert, default: int, hasRedis: bool, now: int)
    ensures var x := Answer(now, false, [true, false]); Verdict(log, alert, default, hasRedis, x) == Failed
    ensures var x := Answer(now, false, [false, true]); Verdict(log, alert, default, hasRedis, x) == Failed
  {
    assert ![true, false][1] && ![false, true][0];
  }

  lemma DropPrefix(p: string, s: string)
    ensures (p + s)[|p|..] == s
  {
  }

  lemma NoColonBefore(r: string, a: string)
    requires ':' !in r
    ensures forall k | 0 <= k < |r| :: (r + ":" + a)[k] != ':'
  {
    forall k | 0 <= k < |r|
      ensures (r + ":" + a)[k] != ':'
    {
      assert (r + ":" + a)[k] == r[k];
    }
  }

  lemma SplitAtColon(r1: string, a1: string, r2: string, a2: string)
    requires ':' !in r1 && ':' !in r2 && r1 + ":" + a1 == r2 + ":" + a2
    ensures r1 == r2 && a1 == a2
  {
    var s := r1 + ":" + a1;
    assert s[|r1|] == ':' && s[|r2|] == ':';
    NoColonBefore(r1, a1);
    NoColonBefore(r2, a2);
    assert s[..|r1|] == r1 && s[..|r1|] == r2;
    assert s[|r1| + 1..] == a1 && s[|r1| + 1..] == a2;
  }

  /** Exactly when the retry of a failed delivery is suppressed, for a retry Redis is asked about: the
      failed attempt was let through by Redis and its lifetime is not over, or Redis was not asked
      about it and an earlier admission still cools. The key is set before delivery, so a delivery
      that reaches nobody cools like any other. */
  lemma RetryIsCooledIff(log: seq<Admission>, alert: Alert, default: int, hasRedis: bool, first: Answer, retry: Answer)
    requires Verdict(log, alert, default, hasRedis, first) == Failed && Asked(alert, default, hasRedis, retry)
    requires first.now <= retry.now
    ensures var ttl := TtlOf(alert, default);
            Verdict(Logged(log, alert, default, hasRedis, first), alert, default, hasRedis, retry) == Cooled
            <==> if Asked(alert, default, hasRedis, first) then ttl == 0 || retry.now < first.now + ttl
                 else Cooling(log, KeyOf(alert), retry.now)
  {
    var a := Admission(KeyOf(alert), first.now, TtlOf(alert, default));
    CoolingSnoc(log, a, KeyOf(alert), retry.now);
    CoolingIsEarlier(log, KeyOf(alert), first.now, retry.now);
  }

  /** It happens: one chat, out of reach once, and a retry a second later. */
  lemma FailedDeliveryCools() returns (alert: Alert, first: Answer, retry: Answer)
    ensures first.reached == [false] && retry.reached == [true] && retry.now == first.now + 1000
    ensures Verdict([], alert, 300000, true, first) == Failed
    ensures Verdict(Logged([], alert, 300000, true, first), alert, 300000, true, retry) == Cooled
  {
    alert, first, retry := Alert("E-001", "a", "", 0), Answer(0, true, [false]), Answer(1000, true, [true]);
    assert !first.reached[0];
    RetryIsCooledIff([], alert, 300000, true, first, retry);
  }
}
