/** Hot reload against running rounds: reloads replace the rule list and the thresholds one field at
    a time under a write lock, rounds copy both fields one at a time under a read lock. Each step
    of this machine is one such field access or lock operation by one thread. */
module ConfigSnapshot {
  import opened Prelude

  /** A rule list and the thresholds loaded with it. */
  datatype Pair<R, C> = Pair(rules: R, cfg: C)

  datatype Thread<R, C> =
    | Idle
    | Loaded(pair: Pair<R, C>)        // a reload has read the database, waits for the lock
    | Locked(pair: Pair<R, C>)
    | WroteRules(pair: Pair<R, C>)
    | WroteBoth(pair: Pair<R, C>)
    | Reading                         // a round holds the read lock
    | ReadRules(rules: R)
    | ReadBoth(pair: Pair<R, C>)

  datatype Shared<R, C> = Shared(
    rules: R, cfg: C,
    writer: Option<nat>, readers: set<nat>,
    published: seq<Pair<R, C>>,       // the initial pair, then one per completed reload
    taken: seq<Pair<R, C>>)           // what completed snapshots returned

  datatype State<R, C> = State(g: Shared<R, C>, threads: map<nat, Thread<R, C>>)

  datatype Label<R, C> =
    | Load(t: nat, pair: Pair<R, C>)
    | Lock(t: nat) | SetRules(t: nat) | SetCfg(t: nat) | Unlock(t: nat)
    | RLock(t: nat) | GetRules(t: nat) | GetCfg(t: nat) | RUnlock(t: nat)

  function ThreadAt<R, C>(s: State<R, C>, t: nat): Thread<R, C> {
    if t in s.threads then s.threads[t] else Idle
  }

  function Initial<R, C>(pair: Pair<R, C>): State<R, C> {
    State(Shared(pair.rules, pair.cfg, None, {}, [pair], []), map[])
  }

  datatype Local<R, C> = Local(g: Shared<R, C>, th: Thread<R, C>)

  /** What one thread's step does to the shared part and to its own; None when it cannot be taken. */
  function Act<R, C>(g: Shared<R, C>, th: Thread<R, C>, l: Label<R, C>): Option<Local<R, C>> {
    match (l, th)
    case (Load(t, pair), Idle) => Some(Local(g, Loaded(pair)))
    case (Lock(t), Loaded(p)) =>
      if g.writer == None && g.readers == {} then Some(Local(g.(writer := Some(t)), Locked(p))) else None
    case (SetRules(t), Locked(p)) => Some(Local(g.(rules := p.rules), WroteRules(p)))
    case (SetCfg(t), WroteRules(p)) => Some(Local(g.(cfg := p.cfg), WroteBoth(p)))
    case (Unlock(t), WroteBoth(p)) => Some(Local(g.(writer := None, published := g.published + [p]), Idle))
    case (RLock(t), Idle) =>
      if g.writer == None then Some(Local(g.(readers := g.readers + {t}), Reading)) else None
    case (GetRules(t), Reading) => Some(Local(g, ReadRules(g.rules)))
    case (GetCfg(t), ReadRules(r)) => Some(Local(g, ReadBoth(Pair(r, g.cfg))))
    case (RUnlock(t), ReadBoth(p)) =>
      Some(Local(g.(readers := g.readers - {t}, taken := g.taken + [p]), Idle))
    case _ => None
  }

  function Step<R, C>(s: State<R, C>, l: Label<R, C>): Option<State<R, C>> {
    match Act(s.g, ThreadAt(s, l.t), l)
    case None => None
    case Some(n) => Some(State(n.g, s.threads[l.t := n.th]))
  }

  function Run<R, C>(s: State<R, C>, labels: seq<Label<R, C>>): Option<State<R, C>>
    decreases |labels|
  {
    if labels == [] then Some(s)
    else
      match Step(s, labels[0])
      case None => None
      case Some(s') => Run(s', labels[1..])
  }

  // ---------------------------------------------------------------- the invariant

  ghost predicate GlobalOk<R, C>(g: Shared<R, C>) {
    && g.published != []
    && (g.writer.Some? ==> g.readers == {})
    && (g.writer.None? ==> Pair(g.rules, g.cfg) == g.published[|g.published| - 1])
    && forall p | p in g.taken :: p in g.published
  }

  /** A thread holds exactly the lock its position says, and what it has read so far is current. */
  ghost predicate ThreadOk<R, C>(g: Shared<R, C>, t: nat, th: Thread<R, C>) {
    && (g.writer == Some(t) <==> th.Locked? || th.WroteRules? || th.WroteBoth?)
    && (t in g.readers <==> th.Reading? || th.ReadRules? || th.ReadBoth?)
    && (th.ReadRules? ==> th.rules == g.rules)
    && (th.ReadBoth? ==> th.pair == Pair(g.rules, g.cfg))
    && (th.WroteRules? || th.WroteBoth? ==> g.rules == th.pair.rules)
    && (th.WroteBoth? ==> g.cfg == th.pair.cfg)
  }

  ghost predicate Inv<R, C>(s: State<R, C>) {
    GlobalOk(s.g) && forall t: nat :: ThreadOk(s.g, t, ThreadAt(s, t))
  }

  lemma ActorStaysOk<R, C>(g: Shared<R, C>, th: Thread<R, C>, l: Label<R, C>)
    requires GlobalOk(g) && ThreadOk(g, l.t, th) && Act(g, th, l).Some?
    ensures GlobalOk(Act(g, th, l).value.g) && ThreadOk(Act(g, th, l).value.g, l.t, Act(g, th, l).value.th)
  {
  }

  lemma OthersStayOk<R, C>(g: Shared<R, C>, th: Thread<R, C>, l: Label<R, C>, u: nat, other: Thread<R, C>)
    requires GlobalOk(g) && ThreadOk(g, l.t, th) && Act(g, th, l).Some? && u != l.t && ThreadOk(g, u, other)
    ensures ThreadOk(Act(g, th, l).value.g, u, other)
  {
  }

  lemma StepKeepsInv<R, C>(s: State<R, C>, l: Label<R, C>)
    requires Inv(s) && Step(s, l).Some?
    ensures Inv(Step(s, l).value)
  {
    var th := ThreadAt(s, l.t);
    var s' := Step(s, l).value;
    ActorStaysOk(s.g, th, l);
    forall u: nat
      ensures ThreadOk(s'.g, u, ThreadAt(s', u))
    {
      if u != l.t {
        OthersStayOk(s.g, th, l, u, ThreadAt(s, u));
      }
    }
  }

  lemma {:induction false} RunKeepsInv<R, C>(s: State<R, C>, labels: seq<Label<R, C>>)
    requires Inv(s) && Run(s, labels).Some?
    ensures Inv(Run(s, labels).value)
    decreases |labels|
  {
    if labels != [] {
      StepKeepsInv(s, labels[0]);
      RunKeepsInv(Step(s, labels[0]).value, labels[1..]);
    }
  }

  /** Under any interleaving of any number of reloads and rounds, a round's rule list and thresholds
      come from one published pair, never half of two, and that pair is the newest one published
      when the round's snapshot ends. */
  lemma SnapshotsAreNeverTorn<R, C>(pair: Pair<R, C>, labels: seq<Label<R, C>>, l: Label<R, C>)
    requires l.RUnlock? && Run(Initial(pair), labels).Some? && Step(Run(Initial(pair), labels).value, l).Some?
    ensures var g := Step(Run(Initial(pair), labels).value, l).value.g;
            && g.taken != [] && g.published != [] && g.taken[|g.taken| - 1] == g.published[|g.published| - 1]
            && forall p | p in g.taken :: p in g.published
  {
    RunKeepsInv(Initial(pair), labels);
    var s := Run(Initial(pair), labels).value;
    StepKeepsInv(s, l);
    assert ThreadOk(s.g, l.t, ThreadAt(s, l.t));
  }

  // ---------------------------------------------------------------- it does get through

  lemma RunCons<R, C>(s: State<R, C>, l: Label<R, C>, rest: seq<Label<R, C>>)
    requires Step(s, l).Some?
    ensures Run(s, [l] + rest) == Run(Step(s, l).value, rest)
  {
    assert ([l] + rest)[1..] == rest;
  }

  lemma {:induction false} RunAppend<R, C>(s: State<R, C>, a: seq<Label<R, C>>, b: seq<Label<R, C>>)
    requires Run(s, a).Some?
    ensures Run(s, a + b) == Run(Run(s, a).value, b)
    decreases |a|
  {
    if a == [] {
      assert a + b == b;
    } else {
      assert (a + b)[1..] == a[1..] + b;
      RunAppend(Step(s, a[0]).value, a[1..], b);
    }
  }

  function Reload<R, C>(t: nat, pair: Pair<R, C>): seq<Label<R, C>> {
    [Load(t, pair)] + ([Lock(t)] + ([SetRules(t)] + ([SetCfg(t)] + ([Unlock(t)] + []))))
  }

  function Snapshot<R, C>(t: nat): seq<Label<R, C>> {
    [RLock(t)] + ([GetRules(t)] + ([GetCfg(t)] + ([RUnlock(t)] + [])))
  }

  lemma Reloads<R, C>(s: State<R, C>, t: nat, pair: Pair<R, C>) returns (s': State<R, C>)
    requires ThreadAt(s, t) == Idle && s.g.writer == None && s.g.readers == {}
    ensures Run(s, Reload(t, pair)) == Some(s')
    ensures s'.g == s.g.(rules := pair.rules, cfg := pair.cfg, published := s.g.published + [pair])
    ensures s'.threads == s.threads[t := Idle]
  {
    var s1 := Step(s, Load(t, pair)).value;
    var s2 := Step(s1, Lock(t)).value;
    var s3 := Step(s2, SetRules(t)).value;
    var s4 := Step(s3, SetCfg(t)).value;
    s' := Step(s4, Unlock(t)).value;
    RunCons(s4, Unlock(t), []);
    RunCons(s3, SetCfg(t), [Unlock(t)] + []);
    RunCons(s2, SetRules(t), [SetCfg(t)] + ([Unlock(t)] + []));
    RunCons(s1, Lock(t), [SetRules(t)] + ([SetCfg(t)] + ([Unlock(t)] + [])));
    RunCons(s, Load(t, pair), [Lock(t)] + ([SetRules(t)] + ([SetCfg(t)] + ([Unlock(t)] + []))));
  }

  lemma Snapshots<R, C>(s: State<R, C>, t: nat) returns (s': State<R, C>)
    requires ThreadAt(s, t) == Idle && s.g.writer == None && t !in s.g.readers
    ensures Run(s, Snapshot(t)) == Some(s')
    ensures s'.g == s.g.(taken := s.g.taken + [Pair(s.g.rules, s.g.cfg)])
    ensures s'.threads == s.threads[t := Idle]
  {
    var s1 := Step(s, RLock(t)).value;
    var s2 := Step(s1, GetRules(t)).value;
    var s3 := Step(s2, GetCfg(t)).value;
    s' := Step(s3, RUnlock(t)).value;
    RunCons(s3, RUnlock(t), []);
    RunCons(s2, GetCfg(t), [RUnlock(t)] + []);
    RunCons(s1, GetRules(t), [GetCfg(t)] + ([RUnlock(t)] + []));
    RunCons(s, RLock(t), [GetRules(t)] + ([GetCfg(t)] + ([RUnlock(t)] + [])));
    assert s.g.readers + {t} - {t} == s.g.readers;
  }

  /** Whenever nobody holds the lock an idle goroutine can reload any pair, and a round can then take a
      snapshot, which returns that pair. */
  lemma ReloadIsSeen<R, C>(s: State<R, C>, t: nat, u: nat, pair: Pair<R, C>)
    requires ThreadAt(s, t) == Idle && ThreadAt(s, u) == Idle && s.g.writer == None && s.g.readers == {}
    ensures var r := Run(s, Reload(t, pair) + Snapshot(u));
            && r.Some? && r.value.g.published == s.g.published + [pair] && r.value.g.taken == s.g.taken + [pair]
            && r.value.g.writer == None && r.value.g.readers == {}
  {
    var s1 := Reloads(s, t, pair);
    var s2 := Snapshots(s1, u);
    RunAppend(s, Reload(t, pair), Snapshot(u));
  }

  /** Exactly when a reload can take the lock, and a round the read lock: nobody holds it, or no reload. */
  lemma LocksIff<R, C>(s: State<R, C>, t: nat)
    requires Inv(s)
    ensures ThreadAt(s, t).Loaded? ==>
              (Step(s, Lock(t)).Some? <==>
                 forall u: nat :: ThreadAt(s, u).Idle? || ThreadAt(s, u).Loaded?)
    ensures ThreadAt(s, t).Idle? ==>
              (Step(s, RLock(t)).Some? <==>
                 forall u: nat :: !(ThreadAt(s, u).Locked? || ThreadAt(s, u).WroteRules? || ThreadAt(s, u).WroteBoth?))
  {
    if s.g.writer.Some? {
      var w := s.g.writer.value;
      assert ThreadOk(s.g, w, ThreadAt(s, w));
    }
    if r :| r in s.g.readers {
      assert ThreadOk(s.g, r, ThreadAt(s, r));
    }
    forall u: nat
      ensures ThreadOk(s.g, u, ThreadAt(s, u))
    {
    }
  }
}
