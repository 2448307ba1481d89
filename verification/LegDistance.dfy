/** Rule E-005: how far the account's legs moved between two successful collections. */
module LegDistance {
  import opened Prelude
  import opened SentinelTypes

  /** Notional per leg; a leg is a symbol and a position side. */
  type Legs = map<string, real>

  function Key(p: Position): string {
    p.symbol + "|" + p.side
  }

  /** Positions share a leg exactly when symbol and side agree; sides are words without a bar. */
  lemma SameLegIff(p: Position, q: Position)
    requires '|' !in p.side && '|' !in q.side
    ensures Key(p) == Key(q) <==> p.symbol == q.symbol && p.side == q.side
  {
    if Key(p) == Key(q) {
      var k := Key(p);
      assert k[|p.symbol|] == '|' && k[|q.symbol|] == '|';
      AfterBar(p);
      AfterBar(q);
      assert k[..|p.symbol|] == p.symbol && k[..|q.symbol|] == q.symbol;
      assert k[|p.symbol| + 1..] == p.side && k[|q.symbol| + 1..] == q.side;
    }
  }

  lemma AfterBar(p: Position)
    requires '|' !in p.side
    ensures forall i | |p.symbol| < i < |Key(p)| :: Key(p)[i] != '|'
  {
    forall i | |p.symbol| < i < |Key(p)|
      ensures Key(p)[i] != '|'
    {
      assert Key(p)[i] == p.side[i - |p.symbol| - 1];
    }
  }

  function At(m: Legs, k: string): real {
    if k in m then m[k] else 0.0
  }

  /** The leg map the rule builds; a repeated leg keeps its last notional. */
  function LegsOf(ps: seq<Position>): Legs {
    if ps == [] then map[] else LegsOf(ps[..|ps| - 1])[Key(ps[|ps| - 1]) := ps[|ps| - 1].notional]
  }

  lemma {:induction false} LegIsFromPosition(ps: seq<Position>, k: string)
    requires k in LegsOf(ps)
    ensures exists i :: 0 <= i < |ps| && Key(ps[i]) == k
  {
    var n := |ps| - 1;
    if Key(ps[n]) != k {
      LegIsFromPosition(ps[..n], k);
      var i :| 0 <= i < n && Key(ps[..n][i]) == k;
      assert Key(ps[i]) == k;
    }
  }

  ghost predicate DistinctLegs(ps: seq<Position>) {
    forall i, j | 0 <= i < j < |ps| :: Key(ps[i]) != Key(ps[j])
  }

  ghost predicate NonNegative(ps: seq<Position>) {
    forall i | 0 <= i < |ps| :: ps[i].notional >= 0.0
  }

  // ---------------------------------------------------------------- the distance

  /** The sum of |a - b| over a set of legs. */
  ghost function Dist(a: Legs, b: Legs, ks: set<string>): real {
    if ks == {} then 0.0
    else var k :| k in ks; AbsReal(At(a, k) - At(b, k)) + Dist(a, b, ks - {k})
  }

  /** The L1 distance between two leg maps, an absent leg counting as zero. */
  ghost function L1(a: Legs, b: Legs): real {
    Dist(a, b, a.Keys + b.Keys)
  }

  /** The order in which the legs are visited does not matter. */
  lemma {:induction false} DistPick(a: Legs, b: Legs, ks: set<string>, k: string)
    requires k in ks
    ensures Dist(a, b, ks) == AbsReal(At(a, k) - At(b, k)) + Dist(a, b, ks - {k})
    decreases ks
  {
    var c :| c in ks && Dist(a, b, ks) == AbsReal(At(a, c) - At(b, c)) + Dist(a, b, ks - {c});
    if c != k {
      DistPick(a, b, ks - {c}, k);
      DistPick(a, b, ks - {k}, c);
      assert ks - {c} - {k} == ks - {k} - {c};
    }
  }

  lemma {:induction false} DistWiden(a: Legs, b: Legs, ks: set<string>, all: set<string>)
    requires a.Keys + b.Keys <= ks <= all
    ensures Dist(a, b, ks) == Dist(a, b, all)
    decreases all
  {
    if ks != all {
      assert exists k :: k in all && k !in ks;
      var k :| k in all && k !in ks;
      DistPick(a, b, all, k);
      DistWiden(a, b, ks, all - {k});
    }
  }

  lemma {:induction false} DistSymmetric(a: Legs, b: Legs, ks: set<string>)
    ensures Dist(a, b, ks) == Dist(b, a, ks)
    decreases ks
  {
    if ks != {} {
      var k :| k in ks;
      DistPick(a, b, ks, k);
      DistPick(b, a, ks, k);
      DistSymmetric(a, b, ks - {k});
    }
  }

  lemma {:induction false} DistZero(a: Legs, b: Legs, ks: set<string>)
    ensures Dist(a, b, ks) >= 0.0
    ensures Dist(a, b, ks) == 0.0 <==> forall k | k in ks :: At(a, k) == At(b, k)
    decreases ks
  {
    if ks != {} {
      var k :| k in ks;
      DistPick(a, b, ks, k);
      DistZero(a, b, ks - {k});
      if forall j | j in ks - {k} :: At(a, j) == At(b, j) {
        assert At(a, k) == At(b, k) ==> forall j | j in ks :: At(a, j) == At(b, j);
      }
    }
  }

  lemma {:induction false} DistTriangle(a: Legs, b: Legs, c: Legs, ks: set<string>)
    ensures Dist(a, c, ks) <= Dist(a, b, ks) + Dist(b, c, ks)
    decreases ks
  {
    if ks != {} {
      var k :| k in ks;
      DistPick(a, b, ks, k);
      DistPick(b, c, ks, k);
      DistPick(a, c, ks, k);
      DistTriangle(a, b, c, ks - {k});
    }
  }

  /** L1 is a metric on leg maps read with zero for absent legs: symmetric, zero exactly when every
      leg agrees, and obeying the triangle inequality. */
  lemma L1IsMetric(a: Legs, b: Legs, c: Legs)
    ensures L1(a, b) == L1(b, a)
    ensures L1(a, b) >= 0.0 && (L1(a, b) == 0.0 <==> forall k :: At(a, k) == At(b, k))
    ensures L1(a, c) <= L1(a, b) + L1(b, c)
  {
    DistSymmetric(a, b, a.Keys + b.Keys);
    assert a.Keys + b.Keys == b.Keys + a.Keys;
    DistZero(a, b, a.Keys + b.Keys);
    var all := a.Keys + b.Keys + c.Keys;
    DistWiden(a, b, a.Keys + b.Keys, all);
    DistWiden(b, c, b.Keys + c.Keys, all);
    DistWiden(a, c, a.Keys + c.Keys, all);
    DistTriangle(a, b, c, all);
  }

  /** Among maps without zero legs, distance zero means the maps are equal. */
  lemma ZeroDistanceMeansEqual(a: Legs, b: Legs)
    requires forall k | k in a :: a[k] != 0.0
    requires forall k | k in b :: b[k] != 0.0
    ensures L1(a, b) == 0.0 <==> a == b
  {
    L1IsMetric(a, b, a);
    if L1(a, b) == 0.0 {
      assert forall k :: At(a, k) == At(b, k);
      assert forall k :: k in a <==> At(a, k) != 0.0;
      assert forall k :: k in b <==> At(b, k) != 0.0;
    }
  }

  // ---------------------------------------------------------------- the evaluator

  datatype Result = Result(skipReason: string, totalChange: real, changedLegs: nat, closedLegs: nat, triggered: bool)

  /** What the first loop adds up: each current position against the previous map. */
  function OpenPart(ps: seq<Position>, prev: Legs): real {
    if ps == [] then 0.0
    else
      var n := |ps| - 1;
      OpenPart(ps[..n], prev) + AbsReal(ps[n].notional - At(prev, Key(ps[n])))
  }

  function Moved(ps: seq<Position>, prev: Legs): nat {
    if ps == [] then 0
    else
      var n := |ps| - 1;
      Moved(ps[..n], prev) + if ps[n].notional != At(prev, Key(ps[n])) then 1 else 0
  }

  /** What the second loop adds up: the previous notionals of a set of legs. */
  ghost function ClosedPart(prev: Legs, ks: set<string>): real {
    if ks == {} then 0.0 else var k :| k in ks; At(prev, k) + ClosedPart(prev, ks - {k})
  }

  lemma {:induction false} ClosedPick(prev: Legs, ks: set<string>, k: string)
    requires k in ks
    ensures ClosedPart(prev, ks) == At(prev, k) + ClosedPart(prev, ks - {k})
    decreases ks
  {
    var c :| c in ks && ClosedPart(prev, ks) == At(prev, c) + ClosedPart(prev, ks - {c});
    if c != k {
      ClosedPick(prev, ks - {c}, k);
      ClosedPick(prev, ks - {k}, c);
      assert ks - {c} - {k} == ks - {k} - {c};
    }
  }

  ghost function TotalChange(prev: seq<Position>, ps: seq<Position>): real {
    OpenPart(ps, LegsOf(prev)) + ClosedPart(LegsOf(prev), LegsOf(prev).Keys - LegsOf(ps).Keys)
  }

  /** evalE005; the second loop visits the previous legs in an arbitrary order. */
  method EvalE005(dataError: bool, prev: seq<Position>, ps: seq<Position>, threshold: real) returns (r: Result)
    ensures dataError ==> r.skipReason == "data_error"
    ensures !dataError && prev == [] ==> r.skipReason == "no_prev_positions"
    ensures dataError || prev == [] ==> !r.triggered
    ensures !dataError && prev != [] ==>
              && r.totalChange == TotalChange(prev, ps)
              && r.changedLegs == Moved(ps, LegsOf(prev))
              && r.closedLegs == |LegsOf(prev).Keys - LegsOf(ps).Keys|
              && (r.triggered <==> r.totalChange >= threshold)
              && r.skipReason == (if r.triggered then "" else "below_threshold")
  {
    if dataError {
      return Result("data_error", 0.0, 0, 0, false);
    }
    if prev == [] {
      return Result("no_prev_positions", 0.0, 0, 0, false);
    }
    var prevMap := BuildMap(prev);
    var openTotal, currentMap, changedLegs := AddOpen(ps, prevMap);
    var closedTotal, closedLegs := AddClosed(prevMap, currentMap);
    var total := openTotal + closedTotal;
    var triggered := !(total < threshold);
    r := Result(if triggered then "" else "below_threshold", total, changedLegs, closedLegs, triggered);
  }

  /** The loop over the current positions. */
  method AddOpen(ps: seq<Position>, prevMap: Legs) returns (total: real, currentMap: Legs, changedLegs: nat)
    ensures total == OpenPart(ps, prevMap) && currentMap == LegsOf(ps) && changedLegs == Moved(ps, prevMap)
  {
    total, currentMap, changedLegs := 0.0, map[], 0;
    for i := 0 to |ps|
      invariant currentMap == LegsOf(ps[..i])
      invariant total == OpenPart(ps[..i], prevMap) && changedLegs == Moved(ps[..i], prevMap)
    {
      var p := ps[i];
      assert ps[..i + 1][..i] == ps[..i];
      currentMap := currentMap[Key(p) := p.notional];
      var diff := AbsReal(p.notional - At(prevMap, Key(p)));
      if diff > 0.0 {
        changedLegs := changedLegs + 1;
      }
      total := total + diff;
    }
    assert ps[..|ps|] == ps;
  }

  method BuildMap(ps: seq<Position>) returns (m: Legs)
    ensures m == LegsOf(ps)
  {
    m := map[];
    for i := 0 to |ps|
      invariant m == LegsOf(ps[..i])
    {
      assert ps[..i + 1][..i] == ps[..i];
      m := m[Key(ps[i]) := ps[i].notional];
    }
    assert ps[..|ps|] == ps;
  }

  /** The loop over the previous map: any visiting order gives the same sum and count. */
  method AddClosed(prevMap: Legs, currentMap: Legs) returns (total: real, closedLegs: nat)
    ensures total == ClosedPart(prevMap, prevMap.Keys - currentMap.Keys)
    ensures closedLegs == |prevMap.Keys - currentMap.Keys|
  {
    total, closedLegs := 0.0, 0;
    var todo := prevMap.Keys;
    while todo != {}
      invariant todo <= prevMap.Keys
      invariant Remaining(prevMap, currentMap, todo, total, closedLegs)
      decreases todo
    {
      var k :| k in todo;
      RemainingStep(prevMap, currentMap, todo, total, closedLegs, k);
      if k !in currentMap {
        total := total + prevMap[k];
        closedLegs := closedLegs + 1;
      }
      todo := todo - {k};
    }
    assert {} - currentMap.Keys == {};
  }

  /** What the second loop still has to add. */
  ghost predicate Remaining(prev: Legs, cur: Legs, todo: set<string>, total: real, closedLegs: nat) {
    && total + ClosedPart(prev, todo - cur.Keys) == ClosedPart(prev, prev.Keys - cur.Keys)
    && closedLegs + |todo - cur.Keys| == |prev.Keys - cur.Keys|
  }

  lemma RemainingStep(prev: Legs, cur: Legs, todo: set<string>, total: real, closedLegs: nat, k: string)
    requires k in todo && todo <= prev.Keys && Remaining(prev, cur, todo, total, closedLegs)
    ensures if k in cur then Remaining(prev, cur, todo - {k}, total, closedLegs)
            else Remaining(prev, cur, todo - {k}, total + prev[k], closedLegs + 1)
  {
    SetStep(todo, cur.Keys, k);
    if k !in cur {
      ClosedPick(prev, todo - cur.Keys, k);
    }
  }

  lemma SetStep(todo: set<string>, ks: set<string>, k: string)
    requires k in todo
    ensures k in ks ==> todo - {k} - ks == todo - ks
    ensures k !in ks ==> todo - {k} - ks == todo - ks - {k} && |todo - ks - {k}| + 1 == |todo - ks|
  {
  }

  // ---------------------------------------------------------------- the evaluator computes the distance

  lemma RepeatedLast(ps: seq<Position>)
    requires ps != [] && Key(ps[|ps| - 1]) in LegsOf(ps[..|ps| - 1])
    ensures !DistinctLegs(ps)
  {
    var n := |ps| - 1;
    LegIsFromPosition(ps[..n], Key(ps[n]));
    var i :| 0 <= i < n && Key(ps[..n][i]) == Key(ps[n]);
    assert Key(ps[i]) == Key(ps[n]);
  }

  lemma DistinctLast(ps: seq<Position>)
    requires DistinctLegs(ps) && ps != []
    ensures var n := |ps| - 1;
            && Key(ps[n]) !in LegsOf(ps[..n])
            && LegsOf(ps).Keys - {Key(ps[n])} == LegsOf(ps[..n]).Keys
            && At(LegsOf(ps), Key(ps[n])) == ps[n].notional
  {
    var n := |ps| - 1;
    if Key(ps[n]) in LegsOf(ps[..n]) {
      RepeatedLast(ps);
    } else {
      AddedKey(LegsOf(ps[..n]), Key(ps[n]), ps[n].notional);
    }
  }

  lemma AddedKey(m: Legs, k: string, v: real)
    requires k !in m
    ensures m[k := v].Keys - {k} == m.Keys && At(m[k := v], k) == v
  {
  }

  lemma {:induction false} OpenPartIsDist(ps: seq<Position>, prev: Legs)
    requires DistinctLegs(ps)
    ensures OpenPart(ps, prev) == Dist(prev, LegsOf(ps), LegsOf(ps).Keys)
  {
    if ps != [] {
      var n := |ps| - 1;
      var front, k, now := ps[..n], Key(ps[n]), LegsOf(ps);
      DistinctLast(ps);
      OpenPartIsDist(front, prev);
      DistPick(prev, now, now.Keys, k);
      DistSame(prev, now, LegsOf(front), LegsOf(front).Keys);
    }
  }

  lemma {:induction false} DistSame(a: Legs, b: Legs, b': Legs, ks: set<string>)
    requires forall k | k in ks :: At(b, k) == At(b', k)
    ensures Dist(a, b, ks) == Dist(a, b', ks)
    decreases ks
  {
    if ks != {} {
      var k :| k in ks;
      DistPick(a, b, ks, k);
      DistPick(a, b', ks, k);
      DistSame(a, b, b', ks - {k});
    }
  }

  lemma {:induction false} ClosedPartIsDist(prev: Legs, now: Legs, ks: set<string>)
    requires ks !! now.Keys && forall k | k in ks :: At(prev, k) >= 0.0
    ensures ClosedPart(prev, ks) == Dist(prev, now, ks)
    decreases ks
  {
    if ks != {} {
      var k :| k in ks;
      ClosedPick(prev, ks, k);
      DistPick(prev, now, ks, k);
      ClosedPartIsDist(prev, now, ks - {k});
    }
  }

  lemma {:induction false} DistSplit(a: Legs, b: Legs, ks: set<string>, js: set<string>)
    requires ks !! js
    ensures Dist(a, b, ks + js) == Dist(a, b, ks) + Dist(a, b, js)
    decreases js
  {
    if js == {} {
      assert ks + js == ks;
    } else {
      var j :| j in js;
      DistPick(a, b, ks + js, j);
      DistPick(a, b, js, j);
      assert ks + js - {j} == ks + (js - {j});
      DistSplit(a, b, ks, js - {j});
    }
  }

  lemma {:induction false} LegsNonNegative(ps: seq<Position>)
    requires NonNegative(ps)
    ensures forall k | k in LegsOf(ps) :: LegsOf(ps)[k] >= 0.0
  {
    if ps != [] {
      LegsNonNegative(ps[..|ps| - 1]);
    }
  }

  /** With distinct current legs and non-negative previous notionals, E-005's total change is the L1
      distance between the two leg maps. */
  lemma TotalChangeIsL1(prev: seq<Position>, ps: seq<Position>)
    requires DistinctLegs(ps) && NonNegative(prev)
    ensures TotalChange(prev, ps) == L1(LegsOf(prev), LegsOf(ps))
  {
    var a, b := LegsOf(prev), LegsOf(ps);
    var closed := a.Keys - b.Keys;
    OpenPartIsDist(ps, a);
    LegsNonNegative(prev);
    ClosedPartIsDist(a, b, closed);
    DistSplit(a, b, b.Keys, closed);
    assert b.Keys + closed == a.Keys + b.Keys;
  }

  // ---------------------------------------------------------------- over many rounds

  /** collectOne's snapshot of the previous positions, per account. */
  class Snapshots {
    var prevPositions: map<string, seq<Position>>
    ghost var fetched: map<string, seq<seq<Position>>>     // every successful fetch, in order

    ghost predicate Valid()
      reads this
    {
      prevPositions.Keys == fetched.Keys
      && forall a | a in fetched :: fetched[a] != [] && prevPositions[a] == fetched[a][|fetched[a]| - 1]
    }

    constructor ()
      ensures Valid() && fetched == map[]
    {
      prevPositions, fetched := map[], map[];
    }

    /** Hands out the account's last successful fetch and replaces it; a failed fetch leaves
        everything as it was. */
    method Collect(account: string, fetch: Option<seq<Position>>) returns (prev: seq<Position>)
      requires Valid()
      modifies this
      ensures Valid()
      ensures fetch.None? ==> fetched == old(fetched) && prevPositions == old(prevPositions) && prev == []
      ensures fetch.Some? ==>
                && prev == (if account in old(fetched) then old(fetched)[account][|old(fetched)[account]| - 1] else [])
                && var before := if account in old(fetched) then old(fetched)[account] else [];
                   fetched == old(fetched)[account := before + [fetch.value]]
    {
      prev := [];
      if fetch.None? {
        return;
      }
      if account in prevPositions {
        prev := prevPositions[account];
      }
      prevPositions := prevPositions[account := fetch.value];
      fetched := fetched[account := (if account in fetched then fetched[account] else []) + [fetch.value]];
    }
  }

  /** What a round reports: nothing when the previous snapshot was empty. */
  ghost function Reported(prev: seq<Position>, ps: seq<Position>): real {
    if prev == [] then 0.0 else TotalChange(prev, ps)
  }

  /** The reports of the rounds over an account's successful fetches, added up. */
  ghost function Summed(fs: seq<seq<Position>>): real {
    if |fs| <= 1 then 0.0
    else Summed(fs[..|fs| - 1]) + Reported(fs[|fs| - 2], fs[|fs| - 1])
  }

  ghost predicate Comparable(fs: seq<seq<Position>>) {
    forall i | 0 <= i < |fs| :: DistinctLegs(fs[i]) && NonNegative(fs[i])
  }

  /** What a round does not report: everything opened when the previous snapshot was empty, since the
      rule skips such a round. */
  ghost function Unreported(prev: seq<Position>, ps: seq<Position>): real {
    if prev == [] then L1(LegsOf([]), LegsOf(ps)) else 0.0
  }

  ghost function Skipped(fs: seq<seq<Position>>): real {
    if |fs| <= 1 then 0.0
    else Skipped(fs[..|fs| - 1]) + Unreported(fs[|fs| - 2], fs[|fs| - 1])
  }

  /** Reports and skipped openings together are the distance; a round reports all of it exactly when
      it was not skipped or there was nothing to report. */
  lemma ReportedIsL1Iff(prev: seq<Position>, ps: seq<Position>)
    requires DistinctLegs(ps) && NonNegative(prev)
    ensures Reported(prev, ps) + Unreported(prev, ps) == L1(LegsOf(prev), LegsOf(ps))
    ensures Reported(prev, ps) == L1(LegsOf(prev), LegsOf(ps)) <==> prev != [] || forall k :: At(LegsOf(ps), k) == 0.0
  {
    TotalChangeIsL1(prev, ps);
    L1IsMetric(LegsOf([]), LegsOf(ps), LegsOf(ps));
    assert forall k :: At(LegsOf([]), k) == 0.0;
  }

  /** Over any consecutive rounds the summed reports fall short of the distance from the first
      snapshot to the last by no more than the skipped openings: moving in small steps hides
      nothing else. */
  lemma {:induction false} SmallStepsHideNothing(fs: seq<seq<Position>>)
    requires fs != [] && Comparable(fs)
    ensures Summed(fs) + Skipped(fs) >= L1(LegsOf(fs[0]), LegsOf(fs[|fs| - 1]))
  {
    var n := |fs| - 1;
    var a := LegsOf(fs[0]);
    L1IsMetric(a, a, a);
    if n > 0 {
      SmallStepsHideNothing(fs[..n]);
      ReportedIsL1Iff(fs[n - 1], fs[n]);
      L1IsMetric(a, LegsOf(fs[n - 1]), LegsOf(fs[n]));
    }
  }

  /** With no empty snapshot but the last, nothing is skipped. */
  lemma {:induction false} NothingSkipped(fs: seq<seq<Position>>)
    requires forall i | 0 <= i < |fs| - 1 :: fs[i] != []
    ensures Skipped(fs) == 0.0
  {
    if |fs| > 1 {
      NothingSkipped(fs[..|fs| - 1]);
    }
  }

  /** So as long as positions stay open, moving in small steps hides nothing at all. */
  lemma OpenPositionsHideNothing(fs: seq<seq<Position>>)
    requires fs != [] && Comparable(fs)
    requires forall i | 0 <= i < |fs| - 1 :: fs[i] != []
    ensures Summed(fs) >= L1(LegsOf(fs[0]), LegsOf(fs[|fs| - 1]))
  {
    SmallStepsHideNothing(fs);
    NothingSkipped(fs);
  }

  /** A skipped round does hide a move: closing everything and opening a different leg reports only
      the closing. */
  lemma SkippedRoundHides(p: Position, q: Position)
    requires Key(p) != Key(q) && p.notional >= 0.0 && q.notional > 0.0
    ensures Summed([[p], [], [q]]) < L1(LegsOf([p]), LegsOf([q]))
  {
    var fs := [[p], [], [q]];
    assert fs[..2] == [[p], []] && fs[..2][..1] == [[p]];
    assert Summed(fs) == Summed(fs[..2]) + Reported([], [q]);
    assert Summed(fs[..2]) == Summed(fs[..2][..1]) + Reported([p], []);
    var a, b := LegsOf([p]), LegsOf([q]);
    assert [p][..0] == [] && [q][..0] == [];
    assert a == map[Key(p) := p.notional] && b == map[Key(q) := q.notional];
    TotalChangeIsL1([p], []);
    var none := LegsOf([]);
    DistPick(a, none, a.Keys + none.Keys, Key(p));
    assert a.Keys + none.Keys - {Key(p)} == {};
    DistPick(a, b, a.Keys + b.Keys, Key(p));
    assert a.Keys + b.Keys - {Key(p)} == {Key(q)};
    DistPick(a, b, {Key(q)}, Key(q));
    assert {Key(q)} - {Key(q)} == {};
  }
}
