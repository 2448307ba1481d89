/** Rule E-001 on the account's net delta, and the conversion of exchange positions it relies on. */
module NetDelta {
  import opened Prelude
  import opened SentinelTypes

  /** A parsed row of the exchange's position response. */
  datatype RawPosition = RawPosition(symbol: string, side: string, amount: real, markPrice: real, liqPrice: real,
                                     adl: int)

  function Value(r: RawPosition): real {
    r.amount * r.markPrice
  }

  function Convert(r: RawPosition): Position {
    Position(r.symbol, r.side, r.amount, r.markPrice, AbsReal(Value(r)), r.liqPrice, r.adl)
  }

  function Converted(rs: seq<RawPosition>): seq<Position> {
    if rs == [] then []
    else Converted(rs[..|rs| - 1]) + if rs[|rs| - 1].amount == 0.0 then [] else [Convert(rs[|rs| - 1])]
  }

  /** `at` says where each position comes from: rows in order, every non-empty one and no other, each
      with its notional |quantity * mark|. */
  ghost predicate Picks(rs: seq<RawPosition>, ps: seq<Position>, at: seq<nat>) {
    && |at| == |ps|
    && (forall i, j | 0 <= i < j < |at| :: at[i] < at[j])
    && (forall i | 0 <= i < |at| :: at[i] < |rs| && rs[at[i]].amount != 0.0 && CameFrom(ps[i], rs[at[i]]))
    && (forall k | 0 <= k < |rs| && rs[k].amount != 0.0 :: k in at)
  }

  predicate CameFrom(p: Position, r: RawPosition) {
    && p.symbol == r.symbol && p.side == r.side && p.quantity == r.amount && p.markPrice == r.markPrice
    && p.liqPrice == r.liqPrice && p.adl == r.adl
    && p.notional >= 0.0 && (p.notional == Value(r) || p.notional == -Value(r))
  }

  /** Drops empty positions and keeps the rest in order. */
  method ConvertPositions(rs: seq<RawPosition>) returns (ps: seq<Position>, ghost at: seq<nat>)
    ensures ps == Converted(rs) && Picks(rs, ps, at)
  {
    ps := [];
    for i := 0 to |rs|
      invariant ps == Converted(rs[..i])
    {
      assert rs[..i + 1][..i] == rs[..i];
      if rs[i].amount == 0.0 {
        continue;
      }
      ps := ps + [Convert(rs[i])];
    }
    assert rs[..|rs|] == rs;
    at := PicksOf(rs);
  }

  lemma {:induction false} PicksOf(rs: seq<RawPosition>) returns (at: seq<nat>)
    ensures Picks(rs, Converted(rs), at)
  {
    if rs == [] {
      at := [];
    } else {
      var n := |rs| - 1;
      assert rs == rs[..n] + [rs[n]];
      at := PicksOf(rs[..n]);
      if rs[n].amount == 0.0 {
        PicksLater(rs[..n], rs[n], Converted(rs[..n]), at);
      } else {
        PicksNext(rs[..n], rs[n], Converted(rs[..n]), at);
        at := at + [n];
      }
    }
  }

  lemma PicksLater(rs: seq<RawPosition>, r: RawPosition, ps: seq<Position>, at: seq<nat>)
    requires Picks(rs, ps, at) && r.amount == 0.0
    ensures Picks(rs + [r], ps, at)
  {
    forall i | 0 <= i < |at|
      ensures at[i] < |rs + [r]| && (rs + [r])[at[i]].amount != 0.0 && CameFrom(ps[i], (rs + [r])[at[i]])
    {
      assert (rs + [r])[at[i]] == rs[at[i]];
    }
  }

  lemma PicksNext(rs: seq<RawPosition>, r: RawPosition, ps: seq<Position>, at: seq<nat>)
    requires Picks(rs, ps, at) && r.amount != 0.0
    ensures Picks(rs + [r], ps + [Convert(r)], at + [|rs|])
  {
    var all, at' := rs + [r], at + [|rs|];
    forall i | 0 <= i < |at'|
      ensures at'[i] < |all| && all[at'[i]].amount != 0.0 && CameFrom((ps + [Convert(r)])[i], all[at'[i]])
    {
      if i < |at| {
        assert all[at[i]] == rs[at[i]];
      } else {
        ConvertedCameFrom(r);
      }
    }
    forall k | 0 <= k < |all| && all[k].amount != 0.0
      ensures k in at'
    {
      if k < |rs| {
        assert rs[k].amount != 0.0 && k in at;
      } else {
        assert at'[|at|] == k;
      }
    }
  }

  lemma ConvertedCameFrom(r: RawPosition)
    ensures CameFrom(Convert(r), r)
  {
  }

  function Worth(p: Position): real {
    p.quantity * p.markPrice
  }

  function Delta(ps: seq<Position>): real {
    if ps == [] then 0.0 else Delta(ps[..|ps| - 1]) + Worth(ps[|ps| - 1])
  }

  method CalcNetDelta(ps: seq<Position>) returns (d: real)
    ensures d == Delta(ps)
  {
    d := 0.0;
    for i := 0 to |ps|
      invariant d == Delta(ps[..i])
    {
      assert ps[..i + 1][..i] == ps[..i];
      d := d + Worth(ps[i]);
    }
    assert ps[..|ps|] == ps;
  }

  function Gross(ps: seq<Position>): real {
    if ps == [] then 0.0 else Gross(ps[..|ps| - 1]) + ps[|ps| - 1].notional
  }

  // ---------------------------------------------------------------- order and size

  function Without(ps: seq<Position>, i: nat): seq<Position>
    requires i < |ps|
  {
    ps[..i] + ps[i + 1..]
  }

  lemma WithoutLast(ps: seq<Position>, i: nat)
    requires i < |ps| - 1
    ensures Without(ps, i) == Without(ps[..|ps| - 1], i) + [ps[|ps| - 1]]
  {
  }

  lemma DeltaSnoc(ps: seq<Position>, p: Position)
    ensures Delta(ps + [p]) == Delta(ps) + Worth(p)
  {
    assert (ps + [p])[..|ps|] == ps;
  }

  lemma {:induction false} DeltaTakesOut(ps: seq<Position>, i: nat)
    requires i < |ps|
    ensures Delta(ps) == Delta(Without(ps, i)) + Worth(ps[i])
    decreases |ps|
  {
    var n := |ps| - 1;
    if i == n {
      assert Without(ps, i) == ps[..n];
    } else {
      DeltaTakesOut(ps[..n], i);
      WithoutLast(ps, i);
      DeltaSnoc(Without(ps[..n], i), ps[n]);
    }
  }

  lemma MultisetWithout(ps: seq<Position>, i: nat)
    requires i < |ps|
    ensures multiset(Without(ps, i)) == multiset(ps) - multiset{ps[i]}
  {
    assert ps == ps[..i] + ([ps[i]] + ps[i + 1..]);
  }

  /** Net delta does not depend on the order of the positions. */
  lemma {:induction false} DeltaIgnoresOrder(ps: seq<Position>, qs: seq<Position>)
    requires multiset(ps) == multiset(qs)
    ensures Delta(ps) == Delta(qs)
    decreases |ps|
  {
    if ps == [] {
      assert |multiset(qs)| == 0;
    } else {
      var n := |ps| - 1;
      assert ps[n] in multiset(ps);
      assert ps[n] in qs;
      var i :| 0 <= i < |qs| && qs[i] == ps[n];
      MultisetWithout(ps, n);
      MultisetWithout(qs, i);
      DeltaIgnoresOrder(Without(ps, n), Without(qs, i));
      DeltaTakesOut(ps, n);
      DeltaTakesOut(qs, i);
    }
  }

  ghost predicate Marked(ps: seq<Position>) {
    forall i | 0 <= i < |ps| :: ps[i].notional == AbsReal(Worth(ps[i]))
  }

  lemma {:induction false} ConvertedIsMarked(rs: seq<RawPosition>)
    ensures Marked(Converted(rs))
  {
    if rs != [] {
      ConvertedIsMarked(rs[..|rs| - 1]);
    }
  }

  lemma {:induction false} DeltaWithinGross(ps: seq<Position>)
    requires Marked(ps)
    ensures AbsReal(Delta(ps)) <= Gross(ps)
  {
    if ps != [] {
      DeltaWithinGross(ps[..|ps| - 1]);
    }
  }

  /** The net delta of converted positions is bounded by the sum of their notionals. */
  lemma DeltaIsBounded(rs: seq<RawPosition>)
    ensures AbsReal(Delta(Converted(rs))) <= Gross(Converted(rs))
  {
    ConvertedIsMarked(rs);
    DeltaWithinGross(Converted(rs));
  }

  // ---------------------------------------------------------------- long against short

  /** The notional of the positions on one side, long or short. */
  function SideOf(ps: seq<Position>, long: bool): real {
    if ps == [] then 0.0
    else
      var p := ps[|ps| - 1];
      SideOf(ps[..|ps| - 1], long) + if (p.quantity > 0.0) == long then p.notional else 0.0
  }

  lemma WorthOfConverted(r: RawPosition)
    requires r.markPrice > 0.0
    ensures Worth(Convert(r)) == if r.amount > 0.0 then Convert(r).notional else -Convert(r).notional
  {
  }

  lemma {:induction false} ConvertedSides(rs: seq<RawPosition>)
    requires forall i | 0 <= i < |rs| :: rs[i].markPrice > 0.0
    ensures Delta(Converted(rs)) == SideOf(Converted(rs), true) - SideOf(Converted(rs), false)
  {
    if rs != [] {
      var n := |rs| - 1;
      ConvertedSides(rs[..n]);
      if rs[n].amount != 0.0 {
        var front := Converted(rs[..n]);
        WorthOfConverted(rs[n]);
        DeltaSnoc(front, Convert(rs[n]));
        assert (front + [Convert(rs[n])])[..|front|] == front;
      } else {
        assert Converted(rs) == Converted(rs[..n]);
      }
    }
  }

  /** Net delta is what is long less what is short: on converted rows with positive marks, the long
      positions' notionals less the short ones'. */
  lemma DeltaIsLongLessShort(rs: seq<RawPosition>)
    requires forall i | 0 <= i < |rs| :: rs[i].markPrice > 0.0
    ensures Delta(Converted(rs)) == SideOf(Converted(rs), true) - SideOf(Converted(rs), false)
    ensures Gross(Converted(rs)) == SideOf(Converted(rs), true) + SideOf(Converted(rs), false)
  {
    ConvertedSides(rs);
    GrossIsBothSides(Converted(rs));
  }

  lemma {:induction false} GrossIsBothSides(ps: seq<Position>)
    ensures Gross(ps) == SideOf(ps, true) + SideOf(ps, false)
  {
    if ps != [] {
      GrossIsBothSides(ps[..|ps| - 1]);
    }
  }

  /** A hedge counts for nothing: equal and opposite quantities at one mark cancel, wherever they are. */
  lemma HedgesCancel(ps: seq<Position>, p: Position, q: Position)
    requires p.markPrice == q.markPrice && p.quantity == -q.quantity
    ensures Delta(ps + [p, q]) == Delta(ps)
  {
    assert ps + [p, q] == (ps + [p]) + [q];
    DeltaSnoc(ps + [p], q);
    DeltaSnoc(ps, p);
  }

  /** A short of two at three dollars counts as minus six. */
  lemma ShortIsNegative()
    ensures Delta(Converted([RawPosition("X", "SHORT", -2.0, 3.0, 0.0, 0)])) == -6.0
  {
    var r := RawPosition("X", "SHORT", -2.0, 3.0, 0.0, 0);
    assert [r][..0] == [];
    assert Converted([r]) == Converted([]) + [Convert(r)];
    assert [Convert(r)][..0] == [] && Delta([]) == 0.0;
  }

  // ---------------------------------------------------------------- the rule

  datatype Result = Result(skipReason: string, change: real, rateTriggered: bool, absTriggered: bool, triggered: bool)

  /** evalE001. With a zero divisor the source's quotient is infinite, and so at any rate, unless the
      change is zero too, when it is not a number and below every rate. */
  method EvalE001(dataError: bool, prev: seq<Position>, ps: seq<Position>, rateThreshold: real, absThreshold: real)
      returns (r: Result)
    ensures dataError ==> r.skipReason == "data_error"
    ensures !dataError && prev == [] ==> r.skipReason == "no_prev_positions"
    ensures dataError || prev == [] ==> !r.triggered
    ensures !dataError && prev != [] ==>
              && r.change == Delta(ps) - Delta(prev)
              && (r.triggered
                  <==> absThreshold <= 0.0 || AbsReal(r.change) >= Bound(Delta(prev), rateThreshold, absThreshold))
              && (r.absTriggered <==> AbsReal(r.change) >= absThreshold)
              && (r.rateTriggered <==> if Denominator(Delta(prev), absThreshold) == 0.0 then r.change != 0.0
                                       else AbsReal(r.change) >= Scaled(rateThreshold,
                                               Denominator(Delta(prev), absThreshold)))
              && r.triggered == (r.rateTriggered || r.absTriggered)
              && r.skipReason == (if r.triggered then "" else "below_threshold")
  {
    if dataError || prev == [] {
      return Result(if dataError then "data_error" else "no_prev_positions", 0.0, false, false, false);
    }
    var current := CalcNetDelta(ps);
    var before := CalcNetDelta(prev);
    var change := current - before;
    var denominator := Denominator(before, absThreshold);
    var rateTriggered := change != 0.0;
    if denominator != 0.0 {
      rateTriggered := AbsReal(Rate(change, denominator)) >= rateThreshold;
      RateAsAmount(change, denominator, rateThreshold);
    }
    var absTriggered := AbsReal(change) >= absThreshold;
    EitherIsMin(AbsReal(change), absThreshold, Scaled(rateThreshold, denominator));
    r := Result(if rateTriggered || absTriggered then "" else "below_threshold",
                change, rateTriggered, absTriggered, rateTriggered || absTriggered);
  }

  /** The rule's divisor. */
  function Denominator(before: real, absThreshold: real): (d: real)
    ensures d >= 0.0 && (d == 0.0 <==> before == 0.0 && absThreshold <= 0.0)
  {
    MaxReal(AbsReal(before), absThreshold)
  }

  function Rate(change: real, denominator: real): real
    requires denominator > 0.0
  {
    change / denominator
  }

  function Scaled(rate: real, denominator: real): real {
    rate * denominator
  }

  /** The smallest absolute change that triggers. */
  function Bound(before: real, rateThreshold: real, absThreshold: real): real {
    MinReal(absThreshold, Scaled(rateThreshold, Denominator(before, absThreshold)))
  }

  lemma EitherIsMin(x: real, a: real, b: real)
    ensures x >= b || x >= a <==> x >= MinReal(a, b)
  {
  }

  lemma RateAsAmount(change: real, denominator: real, rate: real)
    requires denominator > 0.0
    ensures AbsReal(Rate(change, denominator)) >= rate <==> AbsReal(change) >= Scaled(rate, denominator)
  {
    var q := Rate(change, denominator);
    assert q * denominator == change;
    assert AbsReal(q) * denominator == AbsReal(change);
    MulOrder(AbsReal(q), rate, denominator);
  }

  lemma MulOrder(x: real, y: real, d: real)
    requires d > 0.0
    ensures x >= y <==> x * d >= y * d
  {
    if x >= y {
      assert (x - y) * d >= 0.0;
    } else {
      assert (y - x) * d > 0.0;
    }
  }

  /** The rule always fires at the absolute threshold and, for rates up to 1, never below the rate
      times that threshold, however large the previous delta. */
  lemma BoundIsBetween(before: real, rateThreshold: real, absThreshold: real)
    requires absThreshold > 0.0
    ensures Bound(before, rateThreshold, absThreshold) <= absThreshold
    ensures 0.0 < rateThreshold <= 1.0 ==> Bound(before, rateThreshold, absThreshold) >= rateThreshold * absThreshold
  {
    if 0.0 < rateThreshold <= 1.0 {
      var d := MaxReal(AbsReal(before), absThreshold);
      assert rateThreshold * (d - absThreshold) >= 0.0;
      assert (1.0 - rateThreshold) * absThreshold >= 0.0;
    }
  }

  /** In the settings' own terms, for positive settings: the rule fires exactly when the change reaches
      the absolute threshold, or the rate's share both of the previous delta and of that threshold. */
  lemma BoundIs(change: real, before: real, rateThreshold: real, absThreshold: real)
    requires absThreshold > 0.0 && rateThreshold > 0.0
    ensures AbsReal(change) >= Bound(before, rateThreshold, absThreshold)
            <==> AbsReal(change) >= absThreshold
                 || (AbsReal(change) >= rateThreshold * AbsReal(before)
                     && AbsReal(change) >= rateThreshold * absThreshold)
  {
    var b := AbsReal(before);
    ShareOfLarger(rateThreshold, b, absThreshold);
    ReachesIff(AbsReal(change), absThreshold, Scaled(rateThreshold, Denominator(before, absThreshold)),
               rateThreshold * b, rateThreshold * absThreshold);
  }

  lemma ReachesIff(x: real, a: real, larger: real, y: real, z: real)
    requires larger == MaxReal(y, z)
    ensures x >= MinReal(a, larger) <==> x >= a || (x >= y && x >= z)
  {
  }

  lemma TimesMonotone(r: real, x: real, y: real)
    requires r > 0.0
    ensures x <= y ==> r * x <= r * y
    ensures y <= x ==> r * y <= r * x
  {
  }

  lemma ShareOfLarger(r: real, x: real, y: real)
    requires r > 0.0
    ensures r * MaxReal(x, y) == MaxReal(r * x, r * y)
  {
    TimesMonotone(r, x, y);
  }
}
