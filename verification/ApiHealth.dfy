/** Health statistics of the exchange's HTTP API: counters over a tumbling window of five minutes.
    Times are milliseconds. */
module ApiHealth {
  import opened Prelude
  import opened SentinelTypes

  const WINDOW_MS: int := 5 * MINUTE_MS

  datatype Request = Request(time: int, latency: int, error: bool)

  /** Greedy tumbling windows, each named by the request that opens it: a request joins its
      predecessor's window when it is at most five minutes after that window's opener, and opens its
      own otherwise. */
  ghost function WindowOf(log: seq<Request>, i: nat): (k: nat)
    requires i < |log|
    ensures k <= i
  {
    if i == 0 || log[i].time - log[WindowOf(log, i - 1)].time > WINDOW_MS then i else WindowOf(log, i - 1)
  }

  /** The opener of the window that is open after the whole log. */
  ghost function Opener(log: seq<Request>): (k: nat)
    requires log != []
    ensures k < |log|
  {
    WindowOf(log, |log| - 1)
  }

  function Errors(reqs: seq<Request>): nat {
    if reqs == [] then 0 else Errors(reqs[..|reqs| - 1]) + if reqs[|reqs| - 1].error then 1 else 0
  }

  function Latencies(reqs: seq<Request>): seq<int> {
    if reqs == [] then [] else Latencies(reqs[..|reqs| - 1]) + [reqs[|reqs| - 1].latency]
  }

  function Sum(xs: seq<int>): int {
    if xs == [] then 0 else Sum(xs[..|xs| - 1]) + xs[|xs| - 1]
  }

  datatype Stats = Stats(total: nat, errors: nat, sum: int, avg: real, max: int, windowStart: int)

  ghost predicate CountsOf(log: seq<Request>, windowStart: Option<int>, latencies: seq<int>, errors: nat, total: nat) {
    if log == [] then windowStart == None && latencies == [] && errors == 0 && total == 0
    else
      var open := log[Opener(log)..];
      && windowStart == Some(log[Opener(log)].time)
      && latencies == Latencies(open) && errors == Errors(open) && total == |open|
  }

  class HealthMeter {
    var windowStart: Option<int>
    var latencies: seq<int>
    var errors: nat
    var total: nat
    ghost var log: seq<Request>

    /** The counters are those of the open window: the log from its opener on. */
    ghost predicate Valid()
      reads this
    {
      CountsOf(log, windowStart, latencies, errors, total)
    }

    constructor ()
      ensures Valid() && log == []
    {
      windowStart, latencies, errors, total, log := None, [], 0, 0, [];
    }

    method RecordLatency(latency: int, isError: bool, now: int)
      requires Valid()
      modifies this
      ensures Valid() && log == old(log) + [Request(now, latency, isError)]
    {
      ghost var r := Request(now, latency, isError);
      CountsStep(log, r, windowStart, latencies, errors, total);
      CountsFresh(log, r);
      if windowStart.None? || now - windowStart.value > WINDOW_MS {
        latencies, errors, total, windowStart := [], 0, 0, Some(now);
      }
      latencies := latencies + [latency];
      total := total + 1;
      if isError {
        errors := errors + 1;
      }
      log := log + [r];
    }

    /** Statistics of the open window, or none before the first request. */
    method GetHealthStats() returns (stats: Option<Stats>)
      requires Valid()
      ensures stats.None? <==> log == []
      ensures stats.Some? ==>
                var s, open := stats.value, log[Opener(log)..];
                && s.total == |open| > 0 && s.errors == Errors(open) <= s.total
                && s.sum == Sum(Latencies(open)) && s.avg == s.sum as real / |open| as real
                && IsMax(Latencies(open), s.max) && s.avg <= s.max as real
                && s.windowStart == log[Opener(log)].time
    {
      if total == 0 {
        return None;
      }
      var sum, max := Summarize(latencies);
      LatenciesLength(log[Opener(log)..]);
      ErrorsBounded(log[Opener(log)..]);
      AverageIsBounded(sum, |latencies|, max);
      stats := Some(Stats(total, errors, sum, sum as real / |latencies| as real, max, windowStart.value));
    }
  }

  /** The loop over the stored latencies. */
  method Summarize(latencies: seq<int>) returns (sum: int, max: int)
    ensures sum == Sum(latencies) <= Scaled(|latencies|, max) && IsMax(latencies, max)
  {
    sum, max := 0, 0;
    for i := 0 to |latencies|
      invariant sum == Sum(latencies[..i]) && IsMax(latencies[..i], max)
    {
      assert latencies[..i + 1][..i] == latencies[..i];
      sum := sum + latencies[i];
      if latencies[i] > max {
        max := latencies[i];
      }
    }
    assert latencies[..|latencies|] == latencies;
    SumIsBounded(latencies, max);
  }

  /** The largest value, or zero when none is positive. */
  ghost predicate IsMax(xs: seq<int>, m: int) {
    && m >= 0 && (forall i | 0 <= i < |xs| :: xs[i] <= m)
    && (m > 0 ==> m in xs)
  }

  lemma {:induction false} WindowOfEarlier(log: seq<Request>, r: Request, i: nat)
    requires i < |log|
    ensures WindowOf(log + [r], i) == WindowOf(log, i)
  {
    if i > 0 {
      WindowOfEarlier(log, r, i - 1);
    }
  }

  /** A request opens a window of its own or joins the open one. */
  lemma OpenerStep(log: seq<Request>, r: Request)
    ensures var all := log + [r];
            Opener(all) == if log == [] || r.time - log[Opener(log)].time > WINDOW_MS then |log| else Opener(log)
  {
    if log != [] {
      WindowOfEarlier(log, r, |log| - 1);
    }
  }

  lemma TailGrows(log: seq<Request>, r: Request, k: nat)
    requires k <= |log|
    ensures (log + [r])[k..] == log[k..] + [r]
  {
  }

  lemma CountersStep(open: seq<Request>, r: Request)
    ensures Latencies(open + [r]) == Latencies(open) + [r.latency]
    ensures Errors(open + [r]) == Errors(open) + if r.error then 1 else 0
  {
    assert (open + [r])[..|open|] == open;
  }

  lemma RecordStep(log: seq<Request>, r: Request)
    ensures var all := log + [r];
            if log == [] || r.time - log[Opener(log)].time > WINDOW_MS
            then Opener(all) == |log| && all[Opener(all)..] == [r] && all[Opener(all)].time == r.time
            else Opener(all) == Opener(log) && all[Opener(all)..] == log[Opener(log)..] + [r]
                 && all[Opener(all)].time == log[Opener(log)].time
  {
    OpenerStep(log, r);
    TailGrows(log, r, Opener(log + [r]));
    assert log[|log|..] + [r] == [r];
  }

  /** A request that stays in the open window. */
  lemma CountsStep(log: seq<Request>, r: Request, windowStart: Option<int>, latencies: seq<int>, errors: nat,
                   total: nat)
    requires CountsOf(log, windowStart, latencies, errors, total)
    ensures windowStart.Some? && r.time - windowStart.value <= WINDOW_MS ==>
              CountsOf(log + [r], windowStart, latencies + [r.latency], if r.error then errors + 1 else errors,
                       total + 1)
    ensures windowStart.None? <==> log == []
    ensures log != [] ==> windowStart == Some(log[Opener(log)].time)
  {
    if log != [] {
      RecordStep(log, r);
      CountersStep(log[Opener(log)..], r);
    }
  }

  /** A request that opens a window. */
  lemma CountsFresh(log: seq<Request>, r: Request)
    ensures log == [] || r.time - log[Opener(log)].time > WINDOW_MS ==>
              CountsOf(log + [r], Some(r.time), [r.latency], if r.error then 1 else 0, 1)
  {
    RecordStep(log, r);
    CountersStep([], r);
    assert [] + [r] == [r] && [] + [r.latency] == [r.latency];
  }

  lemma {:induction false} LatenciesLength(reqs: seq<Request>)
    ensures |Latencies(reqs)| == |reqs|
  {
    if reqs != [] {
      LatenciesLength(reqs[..|reqs| - 1]);
    }
  }

  lemma {:induction false} ErrorsBounded(reqs: seq<Request>)
    ensures Errors(reqs) <= |reqs|
  {
    if reqs != [] {
      ErrorsBounded(reqs[..|reqs| - 1]);
    }
  }

  function Scaled(n: nat, m: int): int {
    n * m
  }

  lemma {:induction false} SumIsBounded(xs: seq<int>, m: int)
    requires forall i | 0 <= i < |xs| :: xs[i] <= m
    ensures Sum(xs) <= Scaled(|xs|, m)
  {
    if xs != [] {
      SumIsBounded(xs[..|xs| - 1], m);
      assert Scaled(|xs|, m) == Scaled(|xs| - 1, m) + m;
    }
  }

  lemma AverageIsBounded(sum: int, n: nat, m: int)
    requires n > 0 && sum <= Scaled(n, m)
    ensures sum as real / n as real <= m as real
  {
    assert sum as real <= n as real * m as real;
    assert m as real == n as real * m as real / n as real;
  }

  // ---------------------------------------------------------------- windows tile the log

  /** Every request is in exactly one window, whose opener is in it too. */
  lemma {:induction false} OpenersOpen(log: seq<Request>, i: nat)
    requires i < |log|
    ensures WindowOf(log, WindowOf(log, i)) == WindowOf(log, i)
  {
    if WindowOf(log, i) < i {
      OpenersOpen(log, i - 1);
    }
  }

  lemma {:induction false} WindowsAreOrdered(log: seq<Request>, i: nat, j: nat)
    requires i <= j < |log|
    ensures WindowOf(log, i) <= WindowOf(log, j)
    decreases j - i
  {
    if i < j {
      WindowsAreOrdered(log, i, j - 1);
    }
  }

  /** Windows never interleave: a request between two of one window is in it. */
  lemma WindowsAreContiguous(log: seq<Request>, i: nat, j: nat, k: nat)
    requires i <= j <= k < |log| && WindowOf(log, i) == WindowOf(log, k)
    ensures WindowOf(log, j) == WindowOf(log, i)
  {
    WindowsAreOrdered(log, i, j);
    WindowsAreOrdered(log, j, k);
  }

  /** A window spans at most five minutes from its opener, by the clock of each request in it. */
  lemma WindowsAreShort(log: seq<Request>, i: nat)
    requires i < |log|
    ensures log[i].time - log[WindowOf(log, i)].time <= WINDOW_MS
  {
  }

  /** The open window is exactly the requests whose window is the latest one: so when statistics are
      read after every request, each request is counted in the window it belongs to and in no other. */
  lemma OpenWindowIsExact(log: seq<Request>, i: nat)
    requires i < |log|
    ensures i >= Opener(log) <==> WindowOf(log, i) == Opener(log)
  {
    OpenersOpen(log, |log| - 1);
    if i >= Opener(log) {
      WindowsAreOrdered(log, Opener(log), i);
      WindowsAreOrdered(log, i, |log| - 1);
    }
  }
}
