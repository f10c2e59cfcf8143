/** The estimate of a task: three points computed from facts by rules, with a stop when two methods disagree. */
module Estimation {
  import opened Texts

  // ---------------------------------------------------------------------------------------------
  // Facts and rules

  datatype Facts = Facts(
    workType: string, artifactType: string, scaffolding: real, units: seq<real>, integration: real,
    fpCount: real, fpHours: real, dataSufficiency: string,
    hasCriteria: bool, hasDependencies: bool, hasApi: bool, hasDataClass: bool, risks: seq<string>)

  datatype Span = Span(low: real, high: real)

  datatype Penalties = Penalties(criteria: real, dependencies: real, api: real, dataClass: real)

  datatype Rules = Rules(
    workType: map<string, real>, testRatio: real, penalties: Penalties, risk: map<string, Span>,
    artifactTypes: set<string>, optimistic: real, pessimistic: real, bufferK: real, maxDivergence: real,
    hoursPerDay: real, hoursPerPoint: real, scale: seq<real>)

  /** Rules a maintainer would write: shares and surcharges not negative, factors on their side of one. */
  ghost predicate Sane(r: Rules) {
    && (forall t :: t in r.workType ==> 0.0 < r.workType[t])
    && 0.0 <= r.testRatio
    && 0.0 <= r.penalties.criteria && 0.0 <= r.penalties.dependencies
    && 0.0 <= r.penalties.api && 0.0 <= r.penalties.dataClass
    && (forall k :: k in r.risk ==> 0.0 <= r.risk[k].low <= r.risk[k].high)
    && 0.0 < r.optimistic < 1.0 < r.pessimistic
    && 0.0 <= r.bufferK && 0.0 <= r.maxDivergence
    && 0.0 < r.hoursPerDay && 0.0 < r.hoursPerPoint && r.scale != []
  }

  datatype EstimationError =
    | UnknownWorkType
    | UnknownArtifact
    | NoWork
    | NoFunctionPoints
    | DivisionByZero
    | NotOrdered

  datatype Confidence = Low | Medium | High

  datatype Points = Stopped | Over(limit: real) | Nearest(value: real)

  datatype Estimate = Estimate(
    stopped: bool, divergence: real, base: real, tests: real, coefficient: real, decomposition: real, fp: real,
    optimistic: real, realistic: real, pessimistic: real, expected: real, buffered: real,
    points: Points, confidence: Confidence, risks: seq<(string, Span)>, penalties: real)

  datatype Outcome = Done(estimate: Estimate) | Failed(error: EstimationError)

  // ---------------------------------------------------------------------------------------------
  // The parts

  function PositiveUnits(units: seq<real>): (r: seq<real>)
    ensures forall i :: 0 <= i < |r| ==> 0.0 < r[i]
    ensures r == [] <==> forall i :: 0 <= i < |units| ==> units[i] <= 0.0
  {
    if units == [] then []
    else
      var rest := PositiveUnits(units[1..]);
      assert units == [units[0]] + units[1..];
      if 0.0 < units[0] then [units[0]] + rest else rest
  }

  function Sum(xs: seq<real>): real {
    if xs == [] then 0.0 else xs[0] + Sum(xs[1..])
  }

  function AtLeastZero(x: real): real {
    if x < 0.0 then 0.0 else x
  }

  function Min(x: real, y: real): real {
    if y < x then y else x
  }

  function Abs(x: real): real {
    if x < 0.0 then -x else x
  }

  /** The first reason why the facts cannot be estimated. */
  function Validate(f: Facts, r: Rules): Option<EstimationError> {
    if f.workType !in r.workType then Some(UnknownWorkType)
    else if f.artifactType !in r.artifactTypes then Some(UnknownArtifact)
    else if PositiveUnits(f.units) == [] then Some(NoWork)
    else if f.fpCount <= 0.0 || f.fpHours <= 0.0 then Some(NoFunctionPoints)
    else None
  }

  /** The risks the rules know, in the order given. */
  function AppliedRisks(risks: seq<string>, known: map<string, Span>): seq<(string, Span)> {
    if risks == [] then []
    else
      var last := risks[|risks| - 1];
      AppliedRisks(risks[..|risks| - 1], known) + if last in known then [(last, known[last])] else []
  }

  /** `at` names the places of the known risks, all of them and in order, and `applied` holds what the rules say of them. */
  ghost predicate KnownRisks(risks: seq<string>, known: map<string, Span>, applied: seq<(string, Span)>, at: seq<nat>) {
    && |at| == |applied|
    && (forall k :: 0 <= k < |at| ==>
          at[k] < |risks| && risks[at[k]] in known && applied[k] == (risks[at[k]], known[risks[at[k]]]))
    && (forall j, k :: 0 <= j < k < |at| ==> at[j] < at[k])
    && (forall i: nat :: i < |risks| && risks[i] in known ==> i in at)
  }

  lemma KnownRisksMore(risks: seq<string>, known: map<string, Span>, applied: seq<(string, Span)>, at: seq<nat>, risk: string)
    requires KnownRisks(risks, known, applied, at)
    ensures if risk in known then KnownRisks(risks + [risk], known, applied + [(risk, known[risk])], at + [|risks|])
      else KnownRisks(risks + [risk], known, applied, at)
  {
    var more := at + [|risks|];
    assert forall i :: i in at ==> i in more;
    assert more[|at|] == |risks|;
  }

  /**
   * The known risks, each as often as it was named and in the order of naming: the ones applied stand, in order, at
   * exactly the places `at` of the list where the rules know the risk named.
   */
  method Risks(risks: seq<string>, known: map<string, Span>) returns (applied: seq<(string, Span)>, ghost at: seq<nat>)
    ensures KnownRisks(risks, known, applied, at)
    ensures applied == AppliedRisks(risks, known)
  {
    applied, at := [], [];
    for i := 0 to |risks|
      invariant KnownRisks(risks[..i], known, applied, at)
      invariant applied == AppliedRisks(risks[..i], known)
    {
      assert risks[..i + 1][..i] == risks[..i] && risks[..i + 1] == risks[..i] + [risks[i]];
      KnownRisksMore(risks[..i], known, applied, at, risks[i]);
      if risks[i] !in known { continue; }
      applied, at := applied + [(risks[i], known[risks[i]])], at + [i];
    }
    assert risks[..|risks|] == risks;
  }

  function Lows(risks: seq<(string, Span)>): real {
    if risks == [] then 0.0 else Lows(risks[..|risks| - 1]) + risks[|risks| - 1].1.low
  }

  function Highs(risks: seq<(string, Span)>): real {
    if risks == [] then 0.0 else Highs(risks[..|risks| - 1]) + risks[|risks| - 1].1.high
  }

  function Surcharge(f: Facts, p: Penalties): real {
    (if f.hasCriteria then 0.0 else p.criteria) + (if f.hasDependencies then 0.0 else p.dependencies)
    + (if f.hasApi then 0.0 else p.api) + (if f.hasDataClass then 0.0 else p.dataClass)
  }

  function Sufficiency(level: string): Confidence {
    if level == "complete" || level == "sufficient" then High else if level == "minimal" then Medium else Low
  }

  function ConfidenceOf(level: string, divergence: real, maxDivergence: real): Confidence {
    if divergence > maxDivergence / 2.0 then
      match Sufficiency(level) case High => Medium case _ => Low
    else Sufficiency(level)
  }

  function Largest(scale: seq<real>): (m: real)
    requires scale != []
    ensures m in scale && forall x :: x in scale ==> x <= m
  {
    if |scale| == 1 then scale[0]
    else
      var rest := Largest(scale[1..]);
      assert scale == [scale[0]] + scale[1..];
      if scale[0] < rest then rest else scale[0]
  }

  /** The value of the scale closest to `x`, the first of them on a tie. */
  function Closest(scale: seq<real>, x: real): (v: real)
    requires scale != []
    ensures v in scale && forall y :: y in scale ==> Abs(v - x) <= Abs(y - x)
  {
    if |scale| == 1 then scale[0]
    else
      var rest := Closest(scale[1..], x);
      assert scale == [scale[0]] + scale[1..];
      if Abs(rest - x) < Abs(scale[0] - x) then rest else scale[0]
  }

  function StoryPoints(hours: real, hoursPerPoint: real, scale: seq<real>): Points
    requires hoursPerPoint != 0.0 && scale != []
  {
    var points := hours / hoursPerPoint;
    if points > Largest(scale) then Over(Largest(scale)) else Nearest(Closest(scale, points))
  }

  // ---------------------------------------------------------------------------------------------
  // The whole

  function Base(f: Facts): real {
    AtLeastZero(f.scaffolding) + Sum(PositiveUnits(f.units)) + AtLeastZero(f.integration)
  }

  function Divergence(x: real, y: real): real
    requires Min(x, y) != 0.0
  {
    Abs(x - y) / Min(x, y)
  }

  function Expected(o: real, m: real, p: real): real {
    (o + 4.0 * m + p) / 6.0
  }

  /** The expectation and `k` standard deviations on top. */
  function Buffered(o: real, m: real, p: real, k: real): real {
    Expected(o, m, p) + k * ((p - o) / 6.0)
  }

  function Optimistic(hours: real, factor: real): real {
    hours * factor
  }

  function Realistic(hours: real, low: real): real {
    hours * (1.0 + low)
  }

  function Pessimistic(hours: real, factor: real, high: real, surcharge: real): real {
    hours * factor * (1.0 + high) * (1.0 + surcharge)
  }

  /** What the three points in hours add to an estimate that holds the rest. */
  function WithPoints(e: Estimate, o: real, m: real, p: real, r: Rules): Outcome {
    if !(o < m < p) then Failed(NotOrdered)
    else if r.hoursPerDay == 0.0 || r.hoursPerPoint == 0.0 || r.scale == [] then Failed(DivisionByZero)
    else
      Done(e.(optimistic := o / r.hoursPerDay, realistic := m / r.hoursPerDay, pessimistic := p / r.hoursPerDay,
              expected := Expected(o, m, p) / r.hoursPerDay, buffered := Buffered(o, m, p, r.bufferK) / r.hoursPerDay,
              points := StoryPoints(m, r.hoursPerPoint, r.scale)))
  }

  /** The estimate without points. */
  function WithoutPoints(level: string, base: real, tests: real, coefficient: real, decomposition: real, fp: real,
                         risks: seq<(string, Span)>, surcharge: real, limit: real): Estimate
    requires Min(decomposition, fp) != 0.0
  {
    var divergence := Divergence(decomposition, fp);
    Estimate(divergence > limit, divergence, base, tests, coefficient, decomposition, fp,
             0.0, 0.0, 0.0, 0.0, 0.0, Stopped, ConfidenceOf(level, divergence, limit), risks, surcharge)
  }

  /** The estimate from the hours of both methods; stopped, it holds no points. */
  function Weigh(level: string, base: real, tests: real, coefficient: real, decomposition: real, fp: real,
                 risks: seq<(string, Span)>, surcharge: real, r: Rules): Outcome {
    if Min(decomposition, fp) == 0.0 then Failed(DivisionByZero)
    else
      var e := WithoutPoints(level, base, tests, coefficient, decomposition, fp, risks, surcharge, r.maxDivergence);
      if e.stopped then Done(e)
      else WithPoints(e, Optimistic(decomposition, r.optimistic), Realistic(decomposition, Lows(risks)),
                      Pessimistic(decomposition, r.pessimistic, Highs(risks), surcharge), r)
  }

  function TestHours(f: Facts, r: Rules): real {
    Base(f) * r.testRatio
  }

  /** The work with its tests. */
  function Work(f: Facts, r: Rules): real {
    Base(f) + TestHours(f, r)
  }

  function Weighted(hours: real, coefficient: real): real {
    hours * coefficient
  }

  /** Hours by decomposition, for the type of work. */
  function Decomposition(f: Facts, r: Rules): real
    requires f.workType in r.workType
  {
    Weighted(Work(f, r), r.workType[f.workType])
  }

  /** Hours by function points. */
  function FunctionPoints(f: Facts, r: Rules): real
    requires f.workType in r.workType
  {
    Weighted(f.fpCount * f.fpHours, r.workType[f.workType])
  }

  function Compute(f: Facts, r: Rules): Outcome {
    if Validate(f, r).Some? then Failed(Validate(f, r).value)
    else
      Weigh(f.dataSufficiency, Base(f), TestHours(f, r), r.workType[f.workType], Decomposition(f, r),
            FunctionPoints(f, r), AppliedRisks(f.risks, r.risk), Surcharge(f, r.penalties), r)
  }

  // ---------------------------------------------------------------------------------------------
  // Arithmetic

  lemma ProductIsPositive(x: real, y: real)
    requires 0.0 < x && 0.0 < y
    ensures 0.0 < x * y
  {
  }

  lemma Scaled(d: real, x: real, y: real)
    requires 0.0 < d
    ensures x < y ==> d * x < d * y
    ensures x <= y ==> d * x <= d * y
  {
  }

  lemma Divided(d: real, x: real, y: real)
    requires 0.0 < d
    ensures x < y ==> x / d < y / d
    ensures x <= y ==> x / d <= y / d
    ensures 0.0 < x ==> 0.0 < x / d
  {
    assert x / d * d == x && y / d * d == y;
    if y / d < x / d { Scaled(d, y / d, x / d); }
  }

  lemma {:induction false} SumOfPositive(xs: seq<real>)
    requires forall i :: 0 <= i < |xs| ==> 0.0 < xs[i]
    ensures 0.0 <= Sum(xs) && (xs != [] ==> 0.0 < Sum(xs))
    decreases |xs|
  {
    if xs != [] { SumOfPositive(xs[1..]); }
  }

  ghost predicate SaneRisks(risks: seq<(string, Span)>) {
    forall i :: 0 <= i < |risks| ==> 0.0 <= risks[i].1.low <= risks[i].1.high
  }

  lemma {:induction false} AppliedAreSane(risks: seq<string>, known: map<string, Span>)
    requires forall k :: k in known ==> 0.0 <= known[k].low <= known[k].high
    ensures SaneRisks(AppliedRisks(risks, known))
    decreases |risks|
  {
    if risks != [] { AppliedAreSane(risks[..|risks| - 1], known); }
  }

  lemma {:induction false} LowsBelowHighs(risks: seq<(string, Span)>)
    requires SaneRisks(risks)
    ensures 0.0 <= Lows(risks) <= Highs(risks)
    decreases |risks|
  {
    if risks != [] { LowsBelowHighs(risks[..|risks| - 1]); }
  }

  /** Both methods give hours when the facts can be estimated. */
  lemma BothPositive(f: Facts, r: Rules)
    requires Sane(r) && Validate(f, r) == None
    ensures 0.0 < Work(f, r) && 0.0 < f.fpCount * f.fpHours
    ensures 0.0 < Decomposition(f, r) && 0.0 < FunctionPoints(f, r)
  {
    SumOfPositive(PositiveUnits(f.units));
    Scaled(Base(f), 0.0, r.testRatio);
    ProductIsPositive(f.fpCount, f.fpHours);
    ProductIsPositive(Work(f, r), r.workType[f.workType]);
    ProductIsPositive(f.fpCount * f.fpHours, r.workType[f.workType]);
  }

  /** A factor above one, and another not below one, make a number larger, and any multiple of it. */
  lemma Raised(d: real, u: real, p: real, v: real) returns (y: real)
    requires 0.0 < u && 1.0 < p && 1.0 <= v
    ensures u < y && d * p * u * v == d * y
  {
    y := p * u * v;
    Scaled(u, 1.0, p);
    ProductIsPositive(p, u);
    Scaled(p * u, 1.0, v);
  }

  /** The three points in their order, for any size of the work. */
  lemma PointsOrdered(d: real, o: real, a: real, p: real, b: real, c: real)
    requires 0.0 < d && 0.0 < o < 1.0 < p && 0.0 <= a <= b && 0.0 <= c
    ensures 0.0 < Optimistic(d, o) < Realistic(d, a) < Pessimistic(d, p, b, c)
  {
    ProductIsPositive(d, o);
    Scaled(d, o, 1.0 + a);
    PessimisticAbove(d, 1.0 + a, p, 1.0 + b, 1.0 + c);
  }

  lemma PessimisticAbove(d: real, m: real, p: real, u: real, v: real)
    requires 0.0 < d && 0.0 < m <= u && 1.0 < p && 1.0 <= v
    ensures d * m < d * p * u * v
  {
    var y := Raised(d, u, p, v);
    Scaled(d, m, y);
  }

  // ---------------------------------------------------------------------------------------------
  // What an estimate promises

  /** The three points, the expectation among them, and the expectation with its buffer. */
  predicate InOrder(e: Estimate) {
    && 0.0 < e.optimistic < e.realistic < e.pessimistic
    && e.optimistic < e.expected < e.pessimistic
    && e.expected <= e.buffered
  }

  /** Neither method gives more than `1 + limit` times the other. */
  predicate Agree(x: real, y: real, limit: real) {
    x <= y * (1.0 + limit) && y <= x * (1.0 + limit)
  }

  lemma Expectation(o: real, m: real, p: real, k: real)
    requires o < m < p && 0.0 <= k
    ensures o < Expected(o, m, p) < p && Expected(o, m, p) <= Buffered(o, m, p, k)
  {
  }

  lemma DivergenceIs(x: real, y: real, limit: real)
    requires 0.0 < x && 0.0 < y
    ensures Min(x, y) != 0.0 && (Divergence(x, y) <= limit <==> Agree(x, y, limit))
  {
    var low, high := Min(x, y), if y < x then x else y;
    assert Abs(x - y) == high - low;
    assert (high - low) / low * low == high - low;
    if (high - low) / low <= limit {
      Scaled(low, (high - low) / low, limit);
      assert high <= low * (1.0 + limit);
      Scaled(high, 1.0, 1.0 + limit);
    } else {
      Scaled(low, limit, (high - low) / low);
      assert low * (1.0 + limit) < high;
    }
  }

  lemma PointsInOrder(e: Estimate, o: real, m: real, p: real, r: Rules)
    requires Sane(r) && 0.0 < o < m < p
    ensures WithPoints(e, o, m, p, r).Done? && InOrder(WithPoints(e, o, m, p, r).estimate)
    ensures WithPoints(e, o, m, p, r).estimate.stopped == e.stopped
  {
    Expectation(o, m, p, r.bufferK);
    InDays(r.hoursPerDay, o, m, p, Expected(o, m, p), Buffered(o, m, p, r.bufferK));
  }

  lemma WeighIsSound(level: string, base: real, tests: real, coefficient: real, decomposition: real, fp: real,
                     risks: seq<(string, Span)>, surcharge: real, r: Rules)
    requires Sane(r) && 0.0 < decomposition && 0.0 < fp && SaneRisks(risks) && 0.0 <= surcharge
    ensures var w := Weigh(level, base, tests, coefficient, decomposition, fp, risks, surcharge, r);
      && w.Done?
      && (w.estimate.stopped <==> !Agree(decomposition, fp, r.maxDivergence))
      && (!w.estimate.stopped ==> InOrder(w.estimate))
  {
    DivergenceIs(decomposition, fp, r.maxDivergence);
    LowsBelowHighs(risks);
    PointsOrdered(decomposition, r.optimistic, Lows(risks), r.pessimistic, Highs(risks), surcharge);
    PointsInOrder(WithoutPoints(level, base, tests, coefficient, decomposition, fp, risks, surcharge, r.maxDivergence),
                  Optimistic(decomposition, r.optimistic), Realistic(decomposition, Lows(risks)),
                  Pessimistic(decomposition, r.pessimistic, Highs(risks), surcharge), r);
  }

  lemma InDays(day: real, o: real, m: real, p: real, e: real, b: real)
    requires 0.0 < day && 0.0 < o < m < p && o < e < p && e <= b
    ensures 0.0 < o / day < m / day < p / day && o / day < e / day < p / day && e / day <= b / day
  {
    Divided(day, o, m);
    Divided(day, m, p);
    Divided(day, o, e);
    Divided(day, e, p);
    Divided(day, e, b);
  }

  /** With sane rules nothing is divided by zero, and the order of the points never breaks. */
  lemma ComputesWell(f: Facts, r: Rules)
    requires Sane(r)
    ensures Compute(f, r).Failed? <==> Validate(f, r).Some?
    ensures Compute(f, r).Failed? ==> Validate(f, r) == Some(Compute(f, r).error)
    ensures Validate(f, r) == None ==>
      && (Compute(f, r).estimate.stopped <==> !Agree(Decomposition(f, r), FunctionPoints(f, r), r.maxDivergence))
      && (!Compute(f, r).estimate.stopped ==> InOrder(Compute(f, r).estimate))
  {
    if Validate(f, r).None? {
      BothPositive(f, r);
      AppliedAreSane(f.risks, r.risk);
      WeighIsSound(f.dataSufficiency, Base(f), TestHours(f, r), r.workType[f.workType], Decomposition(f, r),
                   FunctionPoints(f, r), AppliedRisks(f.risks, r.risk), Surcharge(f, r.penalties), r);
    }
  }

  // ---------------------------------------------------------------------------------------------
  // What an estimate does not depend on

  lemma Quotient(a: real, b: real, c: real)
    requires 0.0 < b && 0.0 < c
    ensures 0.0 < b * c && (a * c) / (b * c) == a / b
  {
    assert a / b * b == a;
    assert (a / b) * (b * c) == a * c;
  }

  lemma MinScales(x: real, y: real, c: real)
    requires 0.0 < c
    ensures Min(x * c, y * c) == Min(x, y) * c
  {
    Scaled(c, x, y);
    Scaled(c, y, x);
  }

  lemma AbsScales(x: real, y: real, c: real)
    requires 0.0 < c
    ensures Abs(x * c - y * c) == Abs(x - y) * c
  {
    assert x * c - y * c == (x - y) * c;
    Scaled(c, x, y);
    Scaled(c, y, x);
  }

  lemma DivergenceScales(x: real, y: real, c: real)
    requires 0.0 < x && 0.0 < y && 0.0 < c
    ensures 0.0 < Min(Weighted(x, c), Weighted(y, c)) && 0.0 < Min(x, y)
    ensures Divergence(Weighted(x, c), Weighted(y, c)) == Divergence(x, y)
  {
    MinScales(x, y, c);
    AbsScales(x, y, c);
    Quotient(Abs(x - y), Min(x, y), c);
  }

  lemma DivergenceOf(f: Facts, r: Rules)
    requires Sane(r) && Validate(f, r) == None
    ensures Compute(f, r).Done? && 0.0 < Decomposition(f, r) && 0.0 < FunctionPoints(f, r)
    ensures var e := Compute(f, r).estimate;
      e.divergence == Divergence(Decomposition(f, r), FunctionPoints(f, r)) && (e.stopped <==> e.divergence > r.maxDivergence)
  {
    ComputesWell(f, r);
    BothPositive(f, r);
    StopsByDivergence(f, r);
  }

  /** The divergence is that of the hours before the type of work is taken into account. */
  lemma PlainDivergence(f: Facts, r: Rules, work: real, points: real)
    requires Sane(r) && Validate(f, r) == None && work == Work(f, r) && points == f.fpCount * f.fpHours
    ensures 0.0 < Min(work, points) && 0.0 < Decomposition(f, r) && 0.0 < FunctionPoints(f, r)
    ensures Divergence(Decomposition(f, r), FunctionPoints(f, r)) == Divergence(work, points)
  {
    BothPositive(f, r);
    DivergenceScales(work, points, r.workType[f.workType]);
  }

  lemma StopsByDivergence(f: Facts, r: Rules)
    requires Compute(f, r).Done?
    ensures var e := Compute(f, r).estimate; e.stopped <==> e.divergence > r.maxDivergence
  {
  }

  lemma SameWork(f: Facts, workType: string, r: Rules)
    requires Validate(f, r) == None && workType in r.workType
    ensures var g := f.(workType := workType); Work(g, r) == Work(f, r) && Validate(g, r) == None
  {
    assert Base(f.(workType := workType)) == Base(f);
  }

  /** Whether the methods disagree does not depend on the type of work. */
  lemma StopIgnoresWorkType(f: Facts, workType: string, r: Rules)
    requires Sane(r) && Validate(f, r) == None && workType in r.workType
    ensures var g := f.(workType := workType);
      && Compute(f, r).Done? && Compute(g, r).Done?
      && Compute(g, r).estimate.divergence == Compute(f, r).estimate.divergence
      && Compute(g, r).estimate.stopped == Compute(f, r).estimate.stopped
  {
    var g := f.(workType := workType);
    SameWork(f, workType, r);
    DivergenceOf(f, r);
    DivergenceOf(g, r);
    SameDivergence(f, g, r);
  }

  lemma SameDivergence(f: Facts, g: Facts, r: Rules)
    requires Sane(r) && Validate(f, r) == None && Validate(g, r) == None
    requires Work(g, r) == Work(f, r) && g.fpCount == f.fpCount && g.fpHours == f.fpHours
    ensures 0.0 < Decomposition(f, r) && 0.0 < FunctionPoints(f, r) && 0.0 < Decomposition(g, r) && 0.0 < FunctionPoints(g, r)
    ensures Divergence(Decomposition(g, r), FunctionPoints(g, r)) == Divergence(Decomposition(f, r), FunctionPoints(f, r))
  {
    PlainDivergence(f, r, Work(f, r), f.fpCount * f.fpHours);
    PlainDivergence(g, r, Work(f, r), f.fpCount * f.fpHours);
  }

  lemma {:induction false} PositiveUnitsJoin(a: seq<real>, b: seq<real>)
    ensures PositiveUnits(a + b) == PositiveUnits(a) + PositiveUnits(b)
    decreases |a|
  {
    if a == [] {
      assert a + b == b;
    } else {
      PositiveUnitsJoin(a[1..], b);
      assert (a + b)[1..] == a[1..] + b;
    }
  }

  /** A unit of work without positive hours, wherever it stands, changes nothing at all. */
  lemma NoiseIsDropped(f: Facts, before: seq<real>, noise: real, after: seq<real>, r: Rules)
    requires f.units == before + [noise] + after && noise <= 0.0
    ensures Compute(f.(units := before + after), r) == Compute(f, r)
  {
    PositiveUnitsJoin(before + [noise], after);
    PositiveUnitsJoin(before, [noise]);
    PositiveUnitsJoin(before, after);
    assert PositiveUnits([noise]) == [];
    SameUnits(f, before + after, r);
  }

  lemma SameUnits(f: Facts, units: seq<real>, r: Rules)
    requires PositiveUnits(units) == PositiveUnits(f.units)
    ensures Compute(f.(units := units), r) == Compute(f, r)
  {
    var g := f.(units := units);
    SameBase(f, units);
    assert Validate(g, r) == Validate(f, r) && Surcharge(g, r.penalties) == Surcharge(f, r.penalties);
    if Validate(f, r).None? {
      SameHours(f, g, r);
      SameWeigh(f, g, r);
    }
  }

  lemma SameBase(f: Facts, units: seq<real>)
    requires PositiveUnits(units) == PositiveUnits(f.units)
    ensures Base(f.(units := units)) == Base(f)
  {
  }

  lemma SameWeigh(f: Facts, g: Facts, r: Rules)
    requires Validate(f, r) == None && Validate(g, r) == None && g.workType == f.workType
    requires g.dataSufficiency == f.dataSufficiency && g.risks == f.risks && Surcharge(g, r.penalties) == Surcharge(f, r.penalties)
    requires Base(g) == Base(f) && TestHours(g, r) == TestHours(f, r)
    requires Decomposition(g, r) == Decomposition(f, r) && FunctionPoints(g, r) == FunctionPoints(f, r)
    ensures Compute(g, r) == Compute(f, r)
  {
  }

  lemma SameHours(f: Facts, g: Facts, r: Rules)
    requires f.workType in r.workType && g.workType == f.workType
    requires Base(g) == Base(f) && g.fpCount == f.fpCount && g.fpHours == f.fpHours
    ensures TestHours(g, r) == TestHours(f, r) && Work(g, r) == Work(f, r) && Decomposition(g, r) == Decomposition(f, r) && FunctionPoints(g, r) == FunctionPoints(f, r)
  {
  }

  // ---------------------------------------------------------------------------------------------
  // More trouble never makes an estimate smaller

  /** Story points in the order of the scale; more than the whole scale is above all of it. */
  predicate NoMore(p: Points, q: Points) {
    match (p, q)
    case (Nearest(v), Nearest(w)) => v <= w
    case (Nearest(_), Over(_)) => true
    case (Over(v), Over(w)) => v == w
    case _ => false
  }

  lemma PointsGrow(x: real, y: real, hoursPerPoint: real, scale: seq<real>)
    requires x <= y && 0.0 < hoursPerPoint && scale != []
    ensures NoMore(StoryPoints(x, hoursPerPoint, scale), StoryPoints(y, hoursPerPoint, scale))
  {
    Divided(hoursPerPoint, x, y);
    var p, q := x / hoursPerPoint, y / hoursPerPoint;
    if p < q { ClosestGrows(scale, p, q); }
  }

  lemma ClosestGrows(scale: seq<real>, p: real, q: real)
    requires p < q && scale != []
    ensures Closest(scale, p) <= Closest(scale, q)
  {
    var a, b := Closest(scale, p), Closest(scale, q);
    assert Abs(a - p) <= Abs(b - p) && Abs(b - q) <= Abs(a - q);
  }

  /** The same task with more risks named, in any order, and no more known about it. */
  predicate Worse(f: Facts, g: Facts) {
    && multiset(f.risks) <= multiset(g.risks)
    && (g.hasCriteria ==> f.hasCriteria) && (g.hasDependencies ==> f.hasDependencies)
    && (g.hasApi ==> f.hasApi) && (g.hasDataClass ==> f.hasDataClass)
    && g == f.(risks := g.risks, hasCriteria := g.hasCriteria, hasDependencies := g.hasDependencies,
               hasApi := g.hasApi, hasDataClass := g.hasDataClass)
  }

  /** What one named risk adds to the estimate: its lower and its upper share. */
  function Share(risk: string, known: map<string, Span>): Span {
    if risk in known then known[risk] else Span(0.0, 0.0)
  }

  lemma SumsOne(risks: seq<string>, risk: string, known: map<string, Span>)
    ensures Lows(AppliedRisks(risks + [risk], known)) == Lows(AppliedRisks(risks, known)) + Share(risk, known).low
    ensures Highs(AppliedRisks(risks + [risk], known)) == Highs(AppliedRisks(risks, known)) + Share(risk, known).high
  {
    var before := AppliedRisks(risks, known);
    assert (risks + [risk])[..|risks|] == risks;
    if risk in known {
      assert AppliedRisks(risks + [risk], known) == before + [(risk, known[risk])];
      assert (before + [(risk, known[risk])])[..|before|] == before;
    } else {
      assert AppliedRisks(risks + [risk], known) == before;
    }
  }

  /** A risk counts the same wherever it is named. */
  lemma {:induction false} SumsInsert(a: seq<string>, risk: string, b: seq<string>, known: map<string, Span>)
    ensures Lows(AppliedRisks(a + [risk] + b, known)) == Lows(AppliedRisks(a + b, known)) + Share(risk, known).low
    ensures Highs(AppliedRisks(a + [risk] + b, known)) == Highs(AppliedRisks(a + b, known)) + Share(risk, known).high
    decreases |b|
  {
    if b == [] {
      assert a + [risk] + b == a + [risk] && a + b == a;
      SumsOne(a, risk, known);
    } else {
      var n := |b| - 1;
      SumsInsert(a, risk, b[..n], known);
      assert a + [risk] + b == (a + [risk] + b[..n]) + [b[n]] && a + b == (a + b[..n]) + [b[n]];
      SumsOne(a + [risk] + b[..n], b[n], known);
      SumsOne(a + b[..n], b[n], known);
    }
  }

  lemma {:induction false} RisksGrow(f: seq<string>, g: seq<string>, known: map<string, Span>)
    requires multiset(f) <= multiset(g) && forall k :: k in known ==> 0.0 <= known[k].low <= known[k].high
    ensures Lows(AppliedRisks(f, known)) <= Lows(AppliedRisks(g, known))
    ensures Highs(AppliedRisks(f, known)) <= Highs(AppliedRisks(g, known))
    decreases |f|
  {
    if f == [] {
      AppliedAreSane(g, known);
      LowsBelowHighs(AppliedRisks(g, known));
    } else {
      var n := |f| - 1;
      var a, b := TakeOut(f, g);
      assert f == f[..n] + [f[n]];
      RisksGrow(f[..n], a + b, known);
      SumsOne(f[..n], f[n], known);
      SumsInsert(a, f[n], b, known);
    }
  }

  /** The last risk of `f`, taken out of `g`, leaves the rest of `f` among the rest of `g`. */
  lemma TakeOut(f: seq<string>, g: seq<string>) returns (a: seq<string>, b: seq<string>)
    requires f != [] && multiset(f) <= multiset(g)
    ensures g == a + [f[|f| - 1]] + b && multiset(f[..|f| - 1]) <= multiset(a + b)
  {
    var n := |f| - 1;
    assert f == f[..n] + [f[n]];
    assert multiset(f)[f[n]] > 0;
    assert f[n] in multiset(g);
    var i :| 0 <= i < |g| && g[i] == f[n];
    a, b := g[..i], g[i + 1..];
    assert g == a + [f[n]] + b;
    assert multiset(g) == multiset(a + b) + multiset{f[n]};
    assert multiset(f) == multiset(f[..n]) + multiset{f[n]};
    OneLess(f[n], multiset(f[..n]), multiset(a + b));
  }

  lemma OneLess(x: string, f: multiset<string>, g: multiset<string>)
    requires f + multiset{x} <= g + multiset{x}
    ensures f <= g
  {
    forall y | y in f ensures f[y] <= g[y] {
      assert (f + multiset{x})[y] <= (g + multiset{x})[y];
    }
  }

  lemma PessimisticGrows(hours: real, factor: real, a: real, b: real, c: real, d: real)
    requires 0.0 < hours && 0.0 < factor && 0.0 <= a <= b && 0.0 <= c <= d
    ensures Pessimistic(hours, factor, a, c) <= Pessimistic(hours, factor, b, d)
  {
    var h := hours * factor;
    ProductIsPositive(hours, factor);
    Scaled(h, 1.0 + a, 1.0 + b);
    ProductIsPositive(h, 1.0 + b);
    Scaled(1.0 + c, h * (1.0 + a), h * (1.0 + b));
    Scaled(h * (1.0 + b), 1.0 + c, 1.0 + d);
  }

  predicate NoLess(e: Estimate, g: Estimate) {
    && g.optimistic == e.optimistic && e.realistic <= g.realistic && e.pessimistic <= g.pessimistic
    && e.expected <= g.expected && e.buffered <= g.buffered && NoMore(e.points, g.points)
  }

  lemma WithPointsGrows(e: Estimate, g: Estimate, o: real, m: real, p: real, m': real, p': real, r: Rules)
    requires Sane(r) && 0.0 < o < m < p && o < m' < p' && m <= m' && p <= p'
    ensures WithPoints(e, o, m, p, r).Done? && WithPoints(g, o, m', p', r).Done?
    ensures NoLess(WithPoints(e, o, m, p, r).estimate, WithPoints(g, o, m', p', r).estimate)
  {
    var day := r.hoursPerDay;
    Divided(day, m, m');
    Divided(day, p, p');
    BufferedGrows(o, m, p, m', p', r.bufferK);
    Divided(day, Expected(o, m, p), Expected(o, m', p'));
    Divided(day, Buffered(o, m, p, r.bufferK), Buffered(o, m', p', r.bufferK));
    PointsGrow(m, m', r.hoursPerPoint, r.scale);
  }

  lemma BufferedGrows(o: real, m: real, p: real, m': real, p': real, k: real)
    requires m <= m' && p <= p' && 0.0 <= k
    ensures Expected(o, m, p) <= Expected(o, m', p') && Buffered(o, m, p, k) <= Buffered(o, m', p', k)
  {
    if 0.0 < k { Scaled(k, (p - o) / 6.0, (p' - o) / 6.0); }
  }

  lemma WeighGrows(level: string, base: real, tests: real, coefficient: real, hours: real, fp: real,
                   a: seq<(string, Span)>, b: seq<(string, Span)>, c: real, d: real, r: Rules)
    requires Sane(r) && 0.0 < hours && 0.0 < fp && SaneRisks(a) && SaneRisks(b) && 0.0 <= c <= d
    requires Lows(a) <= Lows(b) && Highs(a) <= Highs(b)
    ensures var v := Weigh(level, base, tests, coefficient, hours, fp, a, c, r);
      var w := Weigh(level, base, tests, coefficient, hours, fp, b, d, r);
      && v.Done? && w.Done? && w.estimate.stopped == v.estimate.stopped
      && (!v.estimate.stopped ==> NoLess(v.estimate, w.estimate))
  {
    DivergenceIs(hours, fp, r.maxDivergence);
    LowsBelowHighs(a);
    LowsBelowHighs(b);
    PointsOrdered(hours, r.optimistic, Lows(a), r.pessimistic, Highs(a), c);
    PointsOrdered(hours, r.optimistic, Lows(b), r.pessimistic, Highs(b), d);
    RealisticGrows(hours, Lows(a), Lows(b));
    PessimisticGrows(hours, r.pessimistic, Highs(a), Highs(b), c, d);
    WithPointsGrows(WithoutPoints(level, base, tests, coefficient, hours, fp, a, c, r.maxDivergence),
                    WithoutPoints(level, base, tests, coefficient, hours, fp, b, d, r.maxDivergence),
                    Optimistic(hours, r.optimistic),
                    Realistic(hours, Lows(a)), Pessimistic(hours, r.pessimistic, Highs(a), c),
                    Realistic(hours, Lows(b)), Pessimistic(hours, r.pessimistic, Highs(b), d), r);
  }

  lemma RealisticGrows(hours: real, a: real, b: real)
    requires 0.0 < hours && a <= b
    ensures Realistic(hours, a) <= Realistic(hours, b)
  {
    Scaled(hours, 1.0 + a, 1.0 + b);
  }

  lemma SurchargeGrows(f: Facts, g: Facts, p: Penalties)
    requires Worse(f, g) && 0.0 <= p.criteria && 0.0 <= p.dependencies && 0.0 <= p.api && 0.0 <= p.dataClass
    ensures 0.0 <= Surcharge(f, p) <= Surcharge(g, p)
  {
  }

  /**
   * Naming more risks, or saying less about the work, leaves the optimistic point and the stop as they are and makes
   * nothing else smaller: not the other points, the expectation, its buffer or the story points.
   */
  lemma TroubleCosts(f: Facts, g: Facts, r: Rules)
    requires Sane(r) && Validate(f, r) == None && Worse(f, g)
    ensures Compute(f, r).Done? && Compute(g, r).Done?
    ensures Compute(g, r).estimate.stopped == Compute(f, r).estimate.stopped
    ensures !Compute(f, r).estimate.stopped ==> NoLess(Compute(f, r).estimate, Compute(g, r).estimate)
  {
    assert Validate(g, r) == None && Base(g) == Base(f);
    SameHours(f, g, r);
    BothPositive(f, r);
    AppliedAreSane(f.risks, r.risk);
    AppliedAreSane(g.risks, r.risk);
    RisksGrow(f.risks, g.risks, r.risk);
    SurchargeGrows(f, g, r.penalties);
    WeighGrows(f.dataSufficiency, Base(f), TestHours(f, r), r.workType[f.workType], Decomposition(f, r),
               FunctionPoints(f, r), AppliedRisks(f.risks, r.risk), AppliedRisks(g.risks, r.risk),
               Surcharge(f, r.penalties), Surcharge(g, r.penalties), r);
  }

  /** The rules in use. */
  const RULES: Rules := Rules(
    map["copy_existing" := 0.35, "documentation" := 0.5, "research" := 0.6, "new_development" := 1.0,
        "enhancement" := 0.9, "deployment" := 0.75],
    0.3,
    Penalties(0.2, 0.15, 0.3, 0.3),
    map["personal_data" := Span(0.3, 0.8), "cross_team" := Span(0.2, 0.5),
        "undocumented_external_api" := Span(0.4, 0.6), "unagreed_api_contract" := Span(0.2, 0.3),
        "security_unreviewed" := Span(0.5, 1.0)],
    {"bugfix", "validation", "subtask", "new_module"},
    0.7, 1.5, 2.0, 1.0, 8.0, 4.0, [0.5, 1.0, 2.0, 3.0, 5.0, 8.0, 13.0, 20.0])

  lemma RulesAreSane()
    ensures Sane(RULES)
  {
  }
}
