/** reconnect's retry loop on its own, as the variables it updates. */
module AdapterRetry {
  import opened Prelude
  import opened AdapterLifecycle
  import opened AdapterSafety

  /** How one attempt goes: stopCh is found closed, the listenKey request or the dial fails, or the
      dial succeeds. */
  datatype Try = Stopped | KeyFails | DialFails | Connects

  predicate Fails(t: Try) {
    t.KeyFails? || t.DialFails?
  }

  /** How many attempts fail before the first that does not. */
  function Failures(tries: seq<Try>): (k: nat)
    ensures k <= |tries|
    ensures forall i | 0 <= i < k :: Fails(tries[i])
    ensures k < |tries| ==> !Fails(tries[k])
  {
    if tries == [] || !Fails(tries[0]) then 0 else 1 + Failures(tries[1..])
  }

  /** listenKeys created by attempts: one each, unless that request is what failed. */
  function Keys(tries: seq<Try>): (n: nat)
    ensures n <= |tries|
  {
    if tries == [] then 0
    else Keys(tries[..|tries| - 1]) + if tries[|tries| - 1].KeyFails? || tries[|tries| - 1].Stopped? then 0 else 1
  }

  /** The outcome is decided by the attempts up to the first that does not fail: success exactly if
      it connects, at most one dial succeeds, and the sleeps add up to the closed form whichever
      call failed. */
  method Retry(tries: seq<Try>) returns (ok: bool, keys: nat, slept: nat)
    requires |tries| == MAX_ATTEMPTS
    ensures ok <==> Failures(tries) < MAX_ATTEMPTS && tries[Failures(tries)].Connects?
    ensures slept == TotalSleep(Failures(tries))
    ensures keys == Keys(tries[..if ok then Failures(tries) + 1 else Failures(tries)]) <= MAX_ATTEMPTS
  {
    var backoff := 1;
    keys, slept := 0, 0;
    for i := 0 to MAX_ATTEMPTS
      invariant forall j | 0 <= j < i :: Fails(tries[j])
      invariant backoff == Backoff(i) && slept == TotalSleep(i) && keys == Keys(tries[..i])
    {
      KeysNext(tries, i);
      if !Fails(tries[i]) {
        FailuresIs(tries, i);
      }
      if tries[i].Stopped? {
        return false, keys, slept;
      }
      if !tries[i].KeyFails? {
        keys := keys + 1;
        if tries[i].Connects? {
          return true, keys, slept;
        }
      }
      BackoffNext(i);
      slept := slept + backoff;
      backoff := backoff * 2;
      if backoff > MAX_BACKOFF {
        backoff := MAX_BACKOFF;
      }
    }
    FailuresIs(tries, MAX_ATTEMPTS);
    return false, keys, slept;
  }

  lemma KeysNext(tries: seq<Try>, i: nat)
    requires i < |tries|
    ensures Keys(tries[..i + 1]) == Keys(tries[..i]) + if tries[i].KeyFails? || tries[i].Stopped? then 0 else 1
  {
    assert tries[..i + 1][..i] == tries[..i];
  }

  lemma BackoffNext(i: nat)
    ensures Backoff(i + 1) == MinInt(Backoff(i) * 2, MAX_BACKOFF)
    ensures TotalSleep(i + 1) == TotalSleep(i) + Backoff(i)
  {
    BackoffFollowsClosedForm(Attempt(i, Backoff(i), TotalSleep(i)));
  }

  lemma FailuresIs(tries: seq<Try>, k: nat)
    requires k <= |tries| && (forall i | 0 <= i < k :: Fails(tries[i])) && (k < |tries| ==> !Fails(tries[k]))
    ensures Failures(tries) == k
  {
  }
}
