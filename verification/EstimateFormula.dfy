/** What the numbers of an estimate are, said of the facts, the rules and the numbers reported beside them. */
module EstimateFormula {
  import opened Estimation
  import opened Texts

  // ---------------------------------------------------------------------------------------------
  // When there is an estimate

  predicate HasWork(f: Facts) {
    exists i :: 0 <= i < |f.units| && 0.0 < f.units[i]
  }

  /** The facts name a known type of work and of artifact, some work and some function points. */
  predicate Estimable(f: Facts, r: Rules) {
    f.workType in r.workType && f.artifactType in r.artifactTypes && HasWork(f) && 0.0 < f.fpCount && 0.0 < f.fpHours
  }

  lemma WorkIff(f: Facts)
    ensures PositiveUnits(f.units) == [] <==> !HasWork(f)
  {
  }

  lemma EstimableIff(f: Facts, r: Rules)
    ensures Validate(f, r) == None <==> Estimable(f, r)
  {
    WorkIff(f);
  }

  lemma FailsOn(f: Facts, r: Rules)
    requires Compute(f, r).Done?
    ensures Estimable(f, r)
  {
    EstimableIff(f, r);
  }

  /** With sane rules there is an estimate exactly of estimable facts; else the first thing missing is named. */
  lemma FailsBecause(f: Facts, r: Rules)
    requires Sane(r)
    ensures Compute(f, r).Done? <==> Estimable(f, r)
    ensures Compute(f, r) == Failed(UnknownWorkType) <==> f.workType !in r.workType
    ensures Compute(f, r) == Failed(UnknownArtifact) <==> f.workType in r.workType && f.artifactType !in r.artifactTypes
    ensures Compute(f, r) == Failed(NoWork) <==>
      f.workType in r.workType && f.artifactType in r.artifactTypes && !HasWork(f)
    ensures Compute(f, r) == Failed(NoFunctionPoints) <==>
      f.workType in r.workType && f.artifactType in r.artifactTypes && HasWork(f) && (f.fpCount <= 0.0 || f.fpHours <= 0.0)
  {
    ComputesWell(f, r);
    WorkIff(f);
  }

  // ---------------------------------------------------------------------------------------------
  // The hours

  /** The hours reported, each from the ones before it. */
  ghost predicate HoursOf(f: Facts, r: Rules, e: Estimate)
    requires f.workType in r.workType
  {
    && e.coefficient == r.workType[f.workType]
    && e.tests == e.base * r.testRatio
    && e.decomposition == (e.base + e.tests) * e.coefficient
    && e.fp == f.fpCount * f.fpHours * e.coefficient
  }

  /** Weighing reports what it was given. */
  lemma WeighReports(level: string, base: real, tests: real, coefficient: real, decomposition: real, fp: real,
                     risks: seq<(string, Span)>, surcharge: real, r: Rules, e: Estimate)
    requires Weigh(level, base, tests, coefficient, decomposition, fp, risks, surcharge, r) == Done(e)
    ensures e.base == base && e.tests == tests && e.coefficient == coefficient
    ensures e.decomposition == decomposition && e.fp == fp && e.risks == risks && e.penalties == surcharge
  {
  }

  /** The computation is one weighing. */
  lemma Weighs(f: Facts, r: Rules, e: Estimate)
    requires Compute(f, r) == Done(e)
    ensures f.workType in r.workType
    ensures Weigh(f.dataSufficiency, Base(f), TestHours(f, r), r.workType[f.workType], Decomposition(f, r),
                  FunctionPoints(f, r), AppliedRisks(f.risks, r.risk), Surcharge(f, r.penalties), r) == Done(e)
  {
  }

  lemma Reports(f: Facts, r: Rules, e: Estimate)
    requires Compute(f, r) == Done(e)
    ensures f.workType in r.workType && e.base == Base(f) && e.tests == TestHours(f, r)
    ensures e.coefficient == r.workType[f.workType] && e.decomposition == Decomposition(f, r) && e.fp == FunctionPoints(f, r)
    ensures e.risks == AppliedRisks(f.risks, r.risk) && e.penalties == Surcharge(f, r.penalties)
  {
    Weighs(f, r, e);
    WeighReports(f.dataSufficiency, Base(f), TestHours(f, r), r.workType[f.workType], Decomposition(f, r),
                 FunctionPoints(f, r), AppliedRisks(f.risks, r.risk), Surcharge(f, r.penalties), r, e);
  }

  lemma HoursFrom(f: Facts, r: Rules, e: Estimate)
    requires f.workType in r.workType && e.base == Base(f) && e.tests == TestHours(f, r)
    requires e.coefficient == r.workType[f.workType] && e.decomposition == Decomposition(f, r) && e.fp == FunctionPoints(f, r)
    ensures HoursOf(f, r, e)
  {
  }

  lemma HoursAre(f: Facts, r: Rules, e: Estimate)
    requires Compute(f, r) == Done(e)
    ensures f.workType in r.workType && HoursOf(f, r, e)
  {
    Reports(f, r, e);
    HoursFrom(f, r, e);
  }

  function Counted(hours: real): real {
    if hours < 0.0 then 0.0 else hours
  }

  lemma {:induction false} SumJoin(a: seq<real>, b: seq<real>)
    ensures Sum(a + b) == Sum(a) + Sum(b)
    decreases |a|
  {
    if a == [] {
      assert a + b == b;
    } else {
      assert (a + b)[1..] == a[1..] + b;
      SumJoin(a[1..], b);
    }
  }

  lemma UnitsInsert(before: seq<real>, unit: real, after: seq<real>)
    ensures Sum(PositiveUnits(before + [unit] + after)) == Sum(PositiveUnits(before + after)) + Counted(unit)
  {
    PositiveUnitsJoin(before + [unit], after);
    PositiveUnitsJoin(before, [unit]);
    PositiveUnitsJoin(before, after);
    var a, u, b := PositiveUnits(before), PositiveUnits([unit]), PositiveUnits(after);
    assert u == if 0.0 < unit then [unit] else [];
    SumJoin(a + u, b);
    SumJoin(a, u);
    SumJoin(a, b);
  }

  /**
   * The base hours: one unit of work counts with its scaffolding and integration, each unit more adds its hours wherever
   * it stands, and hours below zero count as none.
   */
  lemma BaseCounts(f: Facts, before: seq<real>, unit: real, after: seq<real>, r: Rules, e: Estimate, g: Estimate)
    requires f.units == before + after && Compute(f, r) == Done(e)
    requires Compute(f.(units := before + [unit] + after), r) == Done(g)
    ensures g.base == e.base + Counted(unit)
    ensures |f.units| == 1 ==> e.base == Counted(f.scaffolding) + f.units[0] + Counted(f.integration)
  {
    Reports(f, r, e);
    Reports(f.(units := before + [unit] + after), r, g);
    UnitsInsert(before, unit, after);
    FailsOn(f, r);
    if |f.units| == 1 { OneUnit(f); }
  }

  lemma OneUnit(f: Facts)
    requires HasWork(f) && |f.units| == 1
    ensures Base(f) == Counted(f.scaffolding) + f.units[0] + Counted(f.integration)
  {
    assert PositiveUnits(f.units) == f.units;
    assert Sum(f.units) == f.units[0];
  }

  // ---------------------------------------------------------------------------------------------
  // The three points

  /** The three points, times the hours of a day, are these hours. */
  ghost predicate InHours(e: Estimate, day: real, o: real, m: real, p: real) {
    e.optimistic * day == o && e.realistic * day == m && e.pessimistic * day == p
  }

  /** The expectation weighs the realistic point four times; the buffer is `k` sixths of the way between the outer two. */
  ghost predicate Pert(e: Estimate, k: real) {
    && 6.0 * e.expected == e.optimistic + 4.0 * e.realistic + e.pessimistic
    && 6.0 * (e.buffered - e.expected) == k * (e.pessimistic - e.optimistic)
  }

  /** The value of the scale whose hours are nearest to `hours`, the first one if there are two; none above the scale. */
  ghost predicate PointsOf(p: Points, hours: real, hoursPerPoint: real, scale: seq<real>) {
    match p
    case Stopped => false
    case Over(limit) => limit in scale && forall y :: y in scale ==> y <= limit && Worth(y, hoursPerPoint) < hours
    case Nearest(v) =>
      && (exists y :: y in scale && hours <= Worth(y, hoursPerPoint))
      && FirstNearest(scale, v, hours, hoursPerPoint)
  }

  function Worth(points: real, hoursPerPoint: real): real {
    points * hoursPerPoint
  }

  /** How many hours the points are off. */
  function Off(points: real, hours: real, hoursPerPoint: real): real {
    Abs(Worth(points, hoursPerPoint) - hours)
  }

  ghost predicate FirstNearest(scale: seq<real>, v: real, hours: real, hoursPerPoint: real) {
    exists i :: 0 <= i < |scale| && scale[i] == v
      && (forall j :: 0 <= j < i ==> Off(v, hours, hoursPerPoint) < Off(scale[j], hours, hoursPerPoint))
      && (forall j :: i <= j < |scale| ==> Off(v, hours, hoursPerPoint) <= Off(scale[j], hours, hoursPerPoint))
  }

  ghost predicate FirstClosest(scale: seq<real>, v: real, x: real, i: int) {
    && 0 <= i < |scale| && scale[i] == v
    && (forall j :: 0 <= j < i ==> Abs(v - x) < Abs(scale[j] - x))
    && (forall j :: i <= j < |scale| ==> Abs(v - x) <= Abs(scale[j] - x))
  }

  lemma FirstOrLater(scale: seq<real>, rest: real, x: real, k: int)
    requires 1 < |scale| && FirstClosest(scale[1..], rest, x, k)
    ensures Abs(rest - x) < Abs(scale[0] - x) ==> FirstClosest(scale, rest, x, k + 1)
    ensures Abs(scale[0] - x) <= Abs(rest - x) ==> FirstClosest(scale, scale[0], x, 0)
  {
    forall j | 1 <= j < |scale| ensures scale[j] == scale[1..][j - 1] {}
  }

  lemma {:induction false} ClosestIsFirst(scale: seq<real>, x: real) returns (i: int)
    requires scale != []
    ensures FirstClosest(scale, Closest(scale, x), x, i)
    decreases |scale|
  {
    if |scale| == 1 {
      i := 0;
    } else {
      var k := ClosestIsFirst(scale[1..], x);
      var rest := Closest(scale[1..], x);
      FirstOrLater(scale, rest, x, k);
      i := if Abs(rest - x) < Abs(scale[0] - x) then k + 1 else 0;
    }
  }

  lemma OffIs(v: real, x: real, h: real)
    requires 0.0 < h
    ensures Off(v, Worth(x, h), h) == h * Abs(v - x)
  {
    AbsScales(v, x, h);
  }

  /** Distances in points and in hours are in the same order. */
  lemma InPoints(v: real, y: real, x: real, h: real)
    requires 0.0 < h
    ensures Abs(v - x) <= Abs(y - x) ==> Off(v, Worth(x, h), h) <= Off(y, Worth(x, h), h)
    ensures Abs(v - x) < Abs(y - x) ==> Off(v, Worth(x, h), h) < Off(y, Worth(x, h), h)
  {
    OffIs(v, x, h);
    OffIs(y, x, h);
    Scaled(h, Abs(v - x), Abs(y - x));
  }

  lemma AboveScale(y: real, x: real, h: real)
    requires 0.0 < h
    ensures y < x <==> Worth(y, h) < Worth(x, h)
  {
    Scaled(h, y, x);
    Scaled(h, x, y);
  }

  lemma NearestIs(x: real, hours: real, h: real, scale: seq<real>)
    requires 0.0 < h && scale != [] && hours == Worth(x, h)
    ensures FirstNearest(scale, Closest(scale, x), hours, h)
  {
    var v := Closest(scale, x);
    var i := ClosestIsFirst(scale, x);
    forall j | 0 <= j < |scale|
      ensures j < i ==> Off(v, hours, h) < Off(scale[j], hours, h)
      ensures i <= j ==> Off(v, hours, h) <= Off(scale[j], hours, h)
    {
      InPoints(v, scale[j], x, h);
    }
  }

  lemma OverIs(x: real, h: real, scale: seq<real>)
    requires 0.0 < h && scale != [] && x > Largest(scale)
    ensures PointsOf(Over(Largest(scale)), Worth(x, h), h, scale)
  {
    forall y | y in scale ensures Worth(y, h) < Worth(x, h) { AboveScale(y, x, h); }
  }

  lemma WithinScale(x: real, h: real, scale: seq<real>)
    requires 0.0 < h && scale != [] && x <= Largest(scale)
    ensures PointsOf(Nearest(Closest(scale, x)), Worth(x, h), h, scale)
  {
    AboveScale(Largest(scale), x, h);
    NearestIs(x, Worth(x, h), h, scale);
  }

  lemma PointsAt(x: real, hours: real, h: real, scale: seq<real>)
    requires 0.0 < h && scale != [] && hours == Worth(x, h)
    ensures x > Largest(scale) ==> PointsOf(Over(Largest(scale)), hours, h, scale)
    ensures x <= Largest(scale) ==> PointsOf(Nearest(Closest(scale, x)), hours, h, scale)
  {
    if x > Largest(scale) { OverIs(x, h, scale); } else { WithinScale(x, h, scale); }
  }

  lemma PointsAre(hours: real, h: real, scale: seq<real>)
    requires 0.0 < h && scale != []
    ensures PointsOf(StoryPoints(hours, h, scale), hours, h, scale)
  {
    TimesBack(hours, h);
    PointsAt(hours / h, hours, h, scale);
  }

  lemma TimesBack(x: real, d: real)
    requires d != 0.0
    ensures x / d * d == x
  {
  }

  lemma InDaysAre(e: Estimate, day: real, o: real, m: real, p: real)
    requires day != 0.0 && e.optimistic == o / day && e.realistic == m / day && e.pessimistic == p / day
    ensures InHours(e, day, o, m, p)
  {
    TimesBack(o, day);
    TimesBack(m, day);
    TimesBack(p, day);
  }

  lemma Sixth(x: real, y: real, day: real)
    requires day != 0.0 && y == x / 6.0
    ensures 6.0 * (y / day) == x / day
  {
  }

  lemma QuotientsAdd(x: real, y: real, day: real)
    requires day != 0.0
    ensures (x + y) / day == x / day + y / day && (x - y) / day == x / day - y / day
  {
  }

  lemma QuotientsScale(k: real, x: real, day: real)
    requires day != 0.0
    ensures (k * x) / day == k * (x / day)
  {
  }

  lemma ExpectedIs(o: real, m: real, p: real, day: real)
    requires day != 0.0
    ensures 6.0 * (Expected(o, m, p) / day) == o / day + 4.0 * (m / day) + p / day
  {
    Sixth(o + 4.0 * m + p, Expected(o, m, p), day);
    QuotientsAdd(o + 4.0 * m, p, day);
    QuotientsAdd(o, 4.0 * m, day);
    QuotientsScale(4.0, m, day);
  }

  lemma BufferIs(o: real, m: real, p: real, k: real, day: real)
    requires day != 0.0
    ensures 6.0 * (Buffered(o, m, p, k) / day - Expected(o, m, p) / day) == k * (p / day - o / day)
  {
    var s := (p - o) / 6.0;
    QuotientsAdd(Expected(o, m, p), k * s, day);
    QuotientsScale(k, s, day);
    Sixth(p - o, s, day);
    QuotientsAdd(p, o, day);
    SixTimes(k, s / day, p / day - o / day);
  }

  lemma SixTimes(k: real, x: real, y: real)
    requires 6.0 * x == y
    ensures 6.0 * (k * x) == k * y
  {
  }

  /** What the points in hours add to an estimate. */
  lemma PointsAdded(before: Estimate, o: real, m: real, p: real, r: Rules, e: Estimate)
    requires Sane(r) && WithPoints(before, o, m, p, r) == Done(e)
    ensures InHours(e, r.hoursPerDay, o, m, p) && Pert(e, r.bufferK)
    ensures PointsOf(e.points, m, r.hoursPerPoint, r.scale)
  {
    InDaysAre(e, r.hoursPerDay, o, m, p);
    ExpectedIs(o, m, p, r.hoursPerDay);
    BufferIs(o, m, p, r.bufferK, r.hoursPerDay);
    PointsAre(m, r.hoursPerPoint, r.scale);
  }

  lemma WeighPoints(level: string, base: real, tests: real, coefficient: real, decomposition: real, fp: real,
                    risks: seq<(string, Span)>, surcharge: real, r: Rules, e: Estimate)
    requires Sane(r) && Weigh(level, base, tests, coefficient, decomposition, fp, risks, surcharge, r) == Done(e) && !e.stopped
    ensures InHours(e, r.hoursPerDay, Optimistic(decomposition, r.optimistic), Realistic(decomposition, Lows(risks)),
                    Pessimistic(decomposition, r.pessimistic, Highs(risks), surcharge))
    ensures Pert(e, r.bufferK)
    ensures PointsOf(e.points, Realistic(decomposition, Lows(risks)), r.hoursPerPoint, r.scale)
  {
    var before := WithoutPoints(level, base, tests, coefficient, decomposition, fp, risks, surcharge, r.maxDivergence);
    PointsAdded(before, Optimistic(decomposition, r.optimistic), Realistic(decomposition, Lows(risks)),
                Pessimistic(decomposition, r.pessimistic, Highs(risks), surcharge), r, e);
  }

  /** The points of an estimate that is not stopped, from the other numbers it reports. */
  ghost predicate PointsHold(e: Estimate, r: Rules) {
    && InHours(e, r.hoursPerDay, e.decomposition * r.optimistic, e.decomposition * (1.0 + Lows(e.risks)),
               e.decomposition * r.pessimistic * (1.0 + Highs(e.risks)) * (1.0 + e.penalties))
    && Pert(e, r.bufferK)
    && PointsOf(e.points, e.realistic * r.hoursPerDay, r.hoursPerPoint, r.scale)
  }

  ghost predicate NoPoints(e: Estimate) {
    e.optimistic == e.realistic == e.pessimistic == e.expected == e.buffered == 0.0 && e.points == Stopped
  }

  /** The divergence is the distance of both methods in shares of the smaller one. */
  ghost predicate Diverges(e: Estimate) {
    e.divergence * Min(e.decomposition, e.fp) == Abs(e.decomposition - e.fp)
  }

  lemma DivergenceHolds(f: Facts, r: Rules, e: Estimate)
    requires Sane(r) && Compute(f, r) == Done(e)
    ensures 0.0 < e.decomposition && 0.0 < e.fp && Diverges(e) && (e.stopped <==> e.divergence > r.maxDivergence)
  {
    FailsOn(f, r);
    EstimableIff(f, r);
    Reports(f, r, e);
    DivergenceOf(f, r);
    DivergesBy(e, e.decomposition, e.fp);
  }

  lemma DivergesBy(e: Estimate, x: real, y: real)
    requires e.decomposition == x && e.fp == y && 0.0 < x && 0.0 < y && e.divergence == Divergence(x, y)
    ensures Diverges(e)
  {
    TimesBack(Abs(x - y), Min(x, y));
  }

  lemma WeighStopped(level: string, base: real, tests: real, coefficient: real, decomposition: real, fp: real,
                     risks: seq<(string, Span)>, surcharge: real, r: Rules, e: Estimate)
    requires Weigh(level, base, tests, coefficient, decomposition, fp, risks, surcharge, r) == Done(e) && e.stopped
    ensures NoPoints(e)
  {
  }

  lemma PointsReported(f: Facts, r: Rules, e: Estimate)
    requires Sane(r) && Compute(f, r) == Done(e)
    ensures if e.stopped then NoPoints(e) else PointsHold(e, r)
  {
    Weighs(f, r, e);
    Reports(f, r, e);
    if e.stopped {
      WeighStopped(f.dataSufficiency, Base(f), TestHours(f, r), r.workType[f.workType], Decomposition(f, r),
                   FunctionPoints(f, r), AppliedRisks(f.risks, r.risk), Surcharge(f, r.penalties), r, e);
    } else {
      WeighPoints(f.dataSufficiency, Base(f), TestHours(f, r), r.workType[f.workType], Decomposition(f, r),
                  FunctionPoints(f, r), AppliedRisks(f.risks, r.risk), Surcharge(f, r.penalties), r, e);
      PointsFollow(e, r);
    }
  }

  lemma MultipliedOut(hours: real, o: real, low: real, p: real, high: real, surcharge: real)
    ensures Optimistic(hours, o) == hours * o && Realistic(hours, low) == hours * (1.0 + low)
    ensures Pessimistic(hours, p, high, surcharge) == hours * p * (1.0 + high) * (1.0 + surcharge)
  {
  }

  lemma PointsHoldAt(e: Estimate, r: Rules, o: real, m: real, p: real)
    requires InHours(e, r.hoursPerDay, o, m, p) && Pert(e, r.bufferK) && PointsOf(e.points, m, r.hoursPerPoint, r.scale)
    requires o == e.decomposition * r.optimistic && m == e.decomposition * (1.0 + Lows(e.risks))
    requires p == e.decomposition * r.pessimistic * (1.0 + Highs(e.risks)) * (1.0 + e.penalties)
    ensures PointsHold(e, r)
  {
  }

  lemma PointsFollow(e: Estimate, r: Rules)
    requires InHours(e, r.hoursPerDay, Optimistic(e.decomposition, r.optimistic), Realistic(e.decomposition, Lows(e.risks)),
                     Pessimistic(e.decomposition, r.pessimistic, Highs(e.risks), e.penalties))
    requires Pert(e, r.bufferK)
    requires PointsOf(e.points, Realistic(e.decomposition, Lows(e.risks)), r.hoursPerPoint, r.scale)
    ensures PointsHold(e, r)
  {
    MultipliedOut(e.decomposition, r.optimistic, Lows(e.risks), r.pessimistic, Highs(e.risks), e.penalties);
    PointsHoldAt(e, r, Optimistic(e.decomposition, r.optimistic), Realistic(e.decomposition, Lows(e.risks)),
                 Pessimistic(e.decomposition, r.pessimistic, Highs(e.risks), e.penalties));
  }

  /**
   * Every number of an estimate, said of the facts, the rules and the numbers reported beside it: the hours of both
   * methods, how far apart they are and whether that stops the estimate; and, if not, the three points in days, the
   * expectation and its buffer between them, and the story points nearest to the realistic point.
   */
  lemma NumbersAre(f: Facts, r: Rules, e: Estimate)
    requires Sane(r) && Compute(f, r) == Done(e)
    ensures f.workType in r.workType && HoursOf(f, r, e)
    ensures Diverges(e) && (e.stopped <==> e.divergence > r.maxDivergence)
    ensures if e.stopped then NoPoints(e) else PointsHold(e, r)
  {
    HoursAre(f, r, e);
    DivergenceHolds(f, r, e);
    PointsReported(f, r, e);
  }

  /**
   * With sane rules an estimate stops exactly when one method gives more than `1 + maxDivergence` times the hours of the
   * other, both as reported; and otherwise the three points and the expectation are in order.
   */
  lemma EstimateIsSound(f: Facts, r: Rules, e: Estimate)
    requires Sane(r) && Compute(f, r) == Done(e)
    ensures f.workType in r.workType && HoursOf(f, r, e)
    ensures e.stopped <==> !Agree(e.decomposition, e.fp, r.maxDivergence)
    ensures !e.stopped ==> InOrder(e)
  {
    ComputesWell(f, r);
    Reports(f, r, e);
    HoursAre(f, r, e);
  }

  // ---------------------------------------------------------------------------------------------
  // How the numbers move together

  ghost predicate HoursInRatio(e: Estimate, g: Estimate, x: real, y: real) {
    g.decomposition * x == e.decomposition * y && g.fp * x == e.fp * y
  }

  /** Each number of `g`, times `x`, is that of `e` times `y`. */
  ghost predicate Proportional(e: Estimate, g: Estimate, x: real, y: real) {
    && HoursInRatio(e, g, x, y)
    && g.optimistic * x == e.optimistic * y && g.realistic * x == e.realistic * y && g.pessimistic * x == e.pessimistic * y
    && g.expected * x == e.expected * y && g.buffered * x == e.buffered * y
  }

  /** Points that are the same multiple of their hours, in days, are in the ratio of the hours. */
  lemma PointScales(d: real, d': real, p: real, p': real, day: real, multiple: real, x: real, y: real)
    requires day != 0.0 && p * day == d * multiple && p' * day == d' * multiple && d' * x == d * y
    ensures p' * x == p * y
  {
    assert p' * x * day == d' * x * multiple;
    assert p * y * day == d * y * multiple;
    Cancel(day, p' * x, p * y);
  }

  lemma Cancel(d: real, x: real, y: real)
    requires d != 0.0 && x * d == y * d
    ensures x == y
  {
    assert (x - y) * d == 0.0;
  }

  lemma PertScales(e: Estimate, g: Estimate, k: real, x: real, y: real)
    requires Pert(e, k) && Pert(g, k)
    requires g.optimistic * x == e.optimistic * y && g.realistic * x == e.realistic * y && g.pessimistic * x == e.pessimistic * y
    ensures g.expected * x == e.expected * y && g.buffered * x == e.buffered * y
  {
    ExpectedScales(g.expected, g.optimistic, g.realistic, g.pessimistic, e.expected, e.optimistic, e.realistic, e.pessimistic, x, y);
    BufferScales(g.buffered, g.expected, g.optimistic, g.pessimistic, e.buffered, e.expected, e.optimistic, e.pessimistic, k, x, y);
  }

  lemma ExpectedScales(e': real, o': real, m': real, p': real, e: real, o: real, m: real, p: real, x: real, y: real)
    requires 6.0 * e' == o' + 4.0 * m' + p' && 6.0 * e == o + 4.0 * m + p
    requires o' * x == o * y && m' * x == m * y && p' * x == p * y
    ensures e' * x == e * y
  {
    assert 6.0 * (e' * x) == o' * x + 4.0 * (m' * x) + p' * x;
    assert 6.0 * (e * y) == o * y + 4.0 * (m * y) + p * y;
  }

  lemma BufferScales(b': real, e': real, o': real, p': real, b: real, e: real, o: real, p: real, k: real, x: real, y: real)
    requires 6.0 * (b' - e') == k * (p' - o') && 6.0 * (b - e) == k * (p - o)
    requires o' * x == o * y && e' * x == e * y && p' * x == p * y
    ensures b' * x == b * y
  {
    assert 6.0 * (b' * x - e' * x) == k * (p' * x - o' * x);
    assert 6.0 * (b * y - e * y) == k * (p * y - o * y);
  }

  /** The three points are these multiples of the hours. */
  ghost predicate Multiples(e: Estimate, day: real, a: real, b: real, c: real) {
    InHours(e, day, e.decomposition * a, e.decomposition * b, e.decomposition * c)
  }

  lemma PessimisticMultiple(hours: real, p: real, u: real, v: real)
    ensures hours * p * u * v == hours * (p * u * v)
  {
  }

  /** The points in hours, at these sums of the shares of the risks. */
  ghost predicate AtShares(e: Estimate, r: Rules, low: real, high: real) {
    InHours(e, r.hoursPerDay, e.decomposition * r.optimistic, e.decomposition * (1.0 + low),
            e.decomposition * r.pessimistic * (1.0 + high) * (1.0 + e.penalties))
  }

  lemma HeldAtShares(e: Estimate, r: Rules, low: real, high: real)
    requires PointsHold(e, r) && low == Lows(e.risks) && high == Highs(e.risks)
    ensures AtShares(e, r, low, high)
  {
  }

  lemma MultiplesHold(e: Estimate, r: Rules, low: real, high: real, c: real)
    requires AtShares(e, r, low, high) && c == r.pessimistic * (1.0 + high) * (1.0 + e.penalties)
    ensures Multiples(e, r.hoursPerDay, r.optimistic, 1.0 + low, c)
  {
    PessimisticMultiple(e.decomposition, r.pessimistic, 1.0 + high, 1.0 + e.penalties);
  }

  lemma MultiplesScale(e: Estimate, g: Estimate, day: real, a: real, b: real, c: real, x: real, y: real)
    requires day != 0.0 && Multiples(e, day, a, b, c) && Multiples(g, day, a, b, c)
    requires g.decomposition * x == e.decomposition * y
    ensures g.optimistic * x == e.optimistic * y && g.realistic * x == e.realistic * y && g.pessimistic * x == e.pessimistic * y
  {
    PointScales(e.decomposition, g.decomposition, e.optimistic, g.optimistic, day, a, x, y);
    PointScales(e.decomposition, g.decomposition, e.realistic, g.realistic, day, b, x, y);
    PointScales(e.decomposition, g.decomposition, e.pessimistic, g.pessimistic, day, c, x, y);
  }

  lemma PointsScaleBy(e: Estimate, g: Estimate, day: real, a: real, b: real, c: real, k: real, x: real, y: real)
    requires day != 0.0 && Multiples(e, day, a, b, c) && Multiples(g, day, a, b, c) && Pert(e, k) && Pert(g, k)
    requires HoursInRatio(e, g, x, y)
    ensures Proportional(e, g, x, y)
  {
    MultiplesScale(e, g, day, a, b, c, x, y);
    PertScales(e, g, k, x, y);
  }

  lemma MultiplesOf(e: Estimate, r: Rules, low: real, high: real, c: real)
    requires PointsHold(e, r) && low == Lows(e.risks) && high == Highs(e.risks)
    requires c == r.pessimistic * (1.0 + high) * (1.0 + e.penalties)
    ensures Multiples(e, r.hoursPerDay, r.optimistic, 1.0 + low, c) && Pert(e, r.bufferK)
  {
    HeldAtShares(e, r, low, high);
    MultiplesHold(e, r, low, high, c);
  }

  /** With the same risks and the same data missing, the points are in the ratio of the hours. */
  lemma PointsScale(e: Estimate, g: Estimate, r: Rules, x: real, y: real)
    requires r.hoursPerDay != 0.0 && PointsHold(e, r) && PointsHold(g, r)
    requires g.risks == e.risks && g.penalties == e.penalties
    requires HoursInRatio(e, g, x, y)
    ensures Proportional(e, g, x, y)
  {
    var low, high := Lows(e.risks), Highs(e.risks);
    var c := r.pessimistic * (1.0 + high) * (1.0 + e.penalties);
    MultiplesOf(e, r, low, high, c);
    MultiplesOf(g, r, low, high, c);
    PointsScaleBy(e, g, r.hoursPerDay, r.optimistic, 1.0 + low, c, r.bufferK, x, y);
  }

  lemma NoPointsScale(e: Estimate, g: Estimate, x: real, y: real)
    requires NoPoints(e) && NoPoints(g) && HoursInRatio(e, g, x, y)
    ensures Proportional(e, g, x, y)
  {
  }

  lemma HoursScale(e: Estimate, g: Estimate, f: Facts, f': Facts, r: Rules)
    requires f.workType in r.workType && f'.workType in r.workType && HoursOf(f, r, e) && HoursOf(f', r, g)
    requires g.base == e.base && g.tests == e.tests && f'.fpCount == f.fpCount && f'.fpHours == f.fpHours
    ensures HoursInRatio(e, g, e.coefficient, g.coefficient)
  {
    Crossed(e.base + e.tests, e.coefficient, g.coefficient);
    Crossed(f.fpCount * f.fpHours, e.coefficient, g.coefficient);
  }

  lemma Crossed(hours: real, x: real, y: real)
    ensures hours * y * x == hours * x * y
  {
  }

  lemma EstimatesScale(f: Facts, f': Facts, r: Rules, e: Estimate, g: Estimate, x: real, y: real)
    requires Sane(r) && Compute(f, r) == Done(e) && Compute(f', r) == Done(g) && g.stopped == e.stopped
    requires g.risks == e.risks && g.penalties == e.penalties && HoursInRatio(e, g, x, y)
    ensures Proportional(e, g, x, y)
  {
    PointsReported(f, r, e);
    PointsReported(f', r, g);
    if e.stopped { NoPointsScale(e, g, x, y); } else { PointsScale(e, g, r, x, y); }
  }

  lemma SameTests(f: Facts, workType: string, r: Rules)
    ensures var g := f.(workType := workType);
      Base(g) == Base(f) && TestHours(g, r) == TestHours(f, r) && Surcharge(g, r.penalties) == Surcharge(f, r.penalties)
  {
    assert Base(f.(workType := workType)) == Base(f);
  }

  lemma SameButWorkType(f: Facts, workType: string, r: Rules, e: Estimate, g: Estimate)
    requires Compute(f, r) == Done(e) && Compute(f.(workType := workType), r) == Done(g)
    ensures g.base == e.base && g.tests == e.tests && g.risks == e.risks && g.penalties == e.penalties
  {
    Reports(f, r, e);
    Reports(f.(workType := workType), r, g);
    SameTests(f, workType, r);
  }

  lemma SameStop(f: Facts, workType: string, r: Rules, e: Estimate, g: Estimate)
    requires Sane(r) && Compute(f, r) == Done(e) && Compute(f.(workType := workType), r) == Done(g)
    ensures g.divergence == e.divergence && g.stopped == e.stopped
  {
    FailsOn(f, r);
    FailsOn(f.(workType := workType), r);
    EstimableIff(f, r);
    StopIgnoresWorkType(f, workType, r);
  }

  lemma HoursRatio(f: Facts, workType: string, r: Rules, e: Estimate, g: Estimate)
    requires Compute(f, r) == Done(e) && Compute(f.(workType := workType), r) == Done(g)
    requires g.base == e.base && g.tests == e.tests
    ensures f.workType in r.workType && e.coefficient == r.workType[f.workType]
    ensures workType in r.workType && g.coefficient == r.workType[workType]
    ensures HoursInRatio(e, g, e.coefficient, g.coefficient)
  {
    HoursAre(f, r, e);
    HoursAre(f.(workType := workType), r, g);
    HoursScale(e, g, f, f.(workType := workType), r);
  }

  /**
   * The type of work scales the estimate: between two known types the hours of both methods, the three points, the
   * expectation and its buffer are in the ratio of their coefficients, and the rest stays as it is.
   */
  lemma WorkTypeScales(f: Facts, workType: string, r: Rules, e: Estimate, g: Estimate)
    requires Sane(r) && Compute(f, r) == Done(e) && Compute(f.(workType := workType), r) == Done(g)
    ensures f.workType in r.workType && e.coefficient == r.workType[f.workType]
    ensures workType in r.workType && g.coefficient == r.workType[workType]
    ensures Proportional(e, g, e.coefficient, g.coefficient)
    ensures g.base == e.base && g.tests == e.tests && g.risks == e.risks && g.penalties == e.penalties
    ensures g.divergence == e.divergence && g.stopped == e.stopped
  {
    SameButWorkType(f, workType, r, e, g);
    SameStop(f, workType, r, e, g);
    HoursRatio(f, workType, r, e, g);
    EstimatesScale(f, f.(workType := workType), r, e, g, e.coefficient, g.coefficient);
  }

  /** Each number `k` times. */
  function Taken(xs: seq<real>, k: real): seq<real> {
    if xs == [] then [] else [xs[0] * k] + Taken(xs[1..], k)
  }

  /** The same task with all its hours, and its function points, taken `k` times. */
  ghost predicate Times(f: Facts, g: Facts, k: real) {
    && g.units == Taken(f.units, k)
    && g == f.(scaffolding := f.scaffolding * k, units := g.units, integration := f.integration * k, fpCount := f.fpCount * k)
  }

  lemma CountedTimes(x: real, k: real)
    requires 0.0 < k
    ensures AtLeastZero(x * k) == AtLeastZero(x) * k && (0.0 < x * k <==> 0.0 < x)
  {
    Scaled(k, x, 0.0);
    Scaled(k, 0.0, x);
  }

  lemma SumFirst(xs: seq<real>)
    requires xs != []
    ensures Sum(PositiveUnits(xs)) == AtLeastZero(xs[0]) + Sum(PositiveUnits(xs[1..]))
  {
    UnitsInsert([], xs[0], xs[1..]);
    assert [] + [xs[0]] + xs[1..] == xs && [] + xs[1..] == xs[1..];
  }

  /** All the hours that count. */
  function Total(xs: seq<real>): real {
    if xs == [] then 0.0 else AtLeastZero(xs[0]) + Total(xs[1..])
  }

  lemma {:induction false} TotalIs(xs: seq<real>)
    ensures Total(xs) == Sum(PositiveUnits(xs))
    decreases |xs|
  {
    if xs != [] {
      TotalIs(xs[1..]);
      SumFirst(xs);
    }
  }

  lemma UnitTimes(x: real, rest: real, k: real)
    requires 0.0 < k
    ensures AtLeastZero(x * k) + rest * k == (AtLeastZero(x) + rest) * k
  {
    CountedTimes(x, k);
    Distributes(AtLeastZero(x), rest, 0.0, k);
  }

  lemma {:induction false} TotalTimes(xs: seq<real>, k: real)
    requires 0.0 < k
    ensures Total(Taken(xs, k)) == Total(xs) * k
    decreases |xs|
  {
    if xs != [] {
      TotalTimes(xs[1..], k);
      assert Taken(xs, k)[1..] == Taken(xs[1..], k);
      UnitTimes(xs[0], Total(xs[1..]), k);
    }
  }

  lemma NoneLeft(xs: seq<real>)
    requires xs != []
    ensures PositiveUnits(xs) == [] <==> xs[0] <= 0.0 && PositiveUnits(xs[1..]) == []
  {
  }

  lemma {:induction false} UnitsLeft(xs: seq<real>, k: real)
    requires 0.0 < k
    ensures PositiveUnits(Taken(xs, k)) == [] <==> PositiveUnits(xs) == []
    decreases |xs|
  {
    if xs != [] {
      UnitsLeft(xs[1..], k);
      CountedTimes(xs[0], k);
      var ys := Taken(xs, k);
      assert ys[1..] == Taken(xs[1..], k);
      NoneLeft(xs);
      NoneLeft(ys);
    }
  }

  lemma Distributes(x: real, y: real, z: real, k: real)
    ensures (x + y + z) * k == x * k + y * k + z * k
  {
  }

  lemma AddTimes(x: real, y: real, z: real, k: real)
    requires 0.0 < k
    ensures AtLeastZero(x * k) + y * k + AtLeastZero(z * k) == (AtLeastZero(x) + y + AtLeastZero(z)) * k
  {
    CountedTimes(x, k);
    CountedTimes(z, k);
    Distributes(AtLeastZero(x), y, AtLeastZero(z), k);
  }

  lemma SumTimes(x: real, y: real, z: real, x': real, y': real, z': real, k: real)
    requires 0.0 < k && x' == x * k && y' == y * k && z' == z * k
    ensures AtLeastZero(x') + y' + AtLeastZero(z') == (AtLeastZero(x) + y + AtLeastZero(z)) * k
  {
    AddTimes(x, y, z, k);
  }

  ghost predicate BaseIs(f: Facts, base: real) {
    base == AtLeastZero(f.scaffolding) + Total(f.units) + AtLeastZero(f.integration)
  }

  ghost predicate HoursTaken(f: Facts, g: Facts, k: real) {
    g.scaffolding == f.scaffolding * k && Total(g.units) == Total(f.units) * k && g.integration == f.integration * k
  }

  lemma PartsTimes(f: Facts, g: Facts, k: real)
    requires 0.0 < k && Times(f, g, k)
    ensures HoursTaken(f, g, k)
  {
    TotalTimes(f.units, k);
  }

  lemma BaseTimes(f: Facts, g: Facts, k: real, base: real, base': real)
    requires 0.0 < k && HoursTaken(f, g, k) && BaseIs(f, base) && BaseIs(g, base')
    ensures base' == base * k
  {
    SumTimes(f.scaffolding, Total(f.units), f.integration, g.scaffolding, Total(g.units), g.integration, k);
  }

  lemma BaseReported(f: Facts, r: Rules, e: Estimate)
    requires Compute(f, r) == Done(e)
    ensures BaseIs(f, e.base)
  {
    Reports(f, r, e);
    TotalIs(f.units);
  }

  /** What the reported hours of both tasks are. */
  ghost predicate BothReported(f: Facts, g: Facts, k: real, r: Rules, e: Estimate, e': Estimate) {
    && f.workType in r.workType && g.workType == f.workType && HoursOf(f, r, e) && HoursOf(g, r, e')
    && BaseIs(f, e.base) && BaseIs(g, e'.base) && HoursTaken(f, g, k)
    && g.fpCount == f.fpCount * k && g.fpHours == f.fpHours
  }

  lemma BothAre(f: Facts, g: Facts, k: real, r: Rules, e: Estimate, e': Estimate)
    requires 0.0 < k && Times(f, g, k) && Compute(f, r) == Done(e) && Compute(g, r) == Done(e')
    ensures BothReported(f, g, k, r, e, e')
  {
    HoursAre(f, r, e);
    HoursAre(g, r, e');
    BaseReported(f, r, e);
    BaseReported(g, r, e');
    PartsTimes(f, g, k);
  }

  /** Taking the base hours and the function points `k` times takes all the hours `k` times. */
  lemma HoursTimes(f: Facts, g: Facts, r: Rules, e: Estimate, e': Estimate, k: real)
    requires f.workType in r.workType && g.workType == f.workType && HoursOf(f, r, e) && HoursOf(g, r, e')
    requires e'.base == e.base * k && g.fpCount == f.fpCount * k && g.fpHours == f.fpHours
    ensures e'.tests == e.tests * k && HoursInRatio(e, e', 1.0, k)
  {
    Crossed(e.base, r.testRatio, k);
    Distributes(e.base, e.tests, 0.0, k);
    Crossed(e.base + e.tests, e.coefficient, k);
    Crossed(f.fpCount, f.fpHours, k);
    Crossed(f.fpCount * f.fpHours, e.coefficient, k);
  }

  lemma AllHoursTimes(f: Facts, g: Facts, r: Rules, e: Estimate, e': Estimate, k: real)
    requires 0.0 < k && BothReported(f, g, k, r, e, e')
    ensures e'.base == e.base * k && e'.tests == e.tests * k && HoursInRatio(e, e', 1.0, k)
  {
    BaseTimes(f, g, k, e.base, e'.base);
    HoursTimes(f, g, r, e, e', k);
  }

  lemma DivergenceTimes(e: Estimate, g: Estimate, k: real)
    requires 0.0 < k && Diverges(e) && Diverges(g) && HoursInRatio(e, g, 1.0, k)
    requires 0.0 < e.decomposition && 0.0 < e.fp
    ensures g.divergence == e.divergence
  {
    var x, y := e.decomposition, e.fp;
    MinScales(x, y, k);
    AbsScales(x, y, k);
    SameQuotient(e.divergence, g.divergence, Min(x, y), Abs(x - y), k);
  }

  lemma SameQuotient(q: real, q': real, d: real, n: real, k: real)
    requires 0.0 < d && 0.0 < k && q * d == n && q' * (d * k) == n * k
    ensures q' == q
  {
    assert q' * d * k == q * d * k;
    Cancel(k, q' * d, q * d);
    Cancel(d, q', q);
  }

  lemma SameRisks(f: Facts, g: Facts, k: real, r: Rules, e: Estimate, e': Estimate)
    requires Times(f, g, k) && Compute(f, r) == Done(e) && Compute(g, r) == Done(e')
    ensures e'.coefficient == e.coefficient && e'.risks == e.risks && e'.penalties == e.penalties
  {
    Reports(f, r, e);
    Reports(g, r, e');
  }

  lemma WorkTimes(f: Facts, g: Facts, k: real)
    requires 0.0 < k && g.units == Taken(f.units, k)
    ensures HasWork(g) <==> HasWork(f)
  {
    UnitsLeft(f.units, k);
    WorkIff(f);
    WorkIff(g);
  }

  lemma TimesEstimable(f: Facts, g: Facts, k: real, r: Rules)
    requires 0.0 < k && Times(f, g, k)
    ensures Estimable(g, r) <==> Estimable(f, r)
  {
    CountedTimes(f.fpCount, k);
    WorkTimes(f, g, k);
  }

  lemma TimesDone(f: Facts, g: Facts, k: real, r: Rules)
    requires Sane(r) && 0.0 < k && Times(f, g, k)
    ensures Compute(g, r).Done? <==> Compute(f, r).Done?
  {
    FailsBecause(f, r);
    FailsBecause(g, r);
    TimesEstimable(f, g, k, r);
  }

  lemma TimesStop(f: Facts, g: Facts, k: real, r: Rules, e: Estimate, e': Estimate)
    requires Sane(r) && 0.0 < k && Compute(f, r) == Done(e) && Compute(g, r) == Done(e') && HoursInRatio(e, e', 1.0, k)
    ensures e'.divergence == e.divergence && e'.stopped == e.stopped
  {
    DivergenceHolds(f, r, e);
    DivergenceHolds(g, r, e');
    DivergenceTimes(e, e', k);
  }

  /**
   * An estimate grows with the work: all the hours and the function points taken `k` times, the hours of both methods,
   * the three points, the expectation and its buffer are taken `k` times, and the methods disagree as much as before.
   */
  lemma HoursScaleAll(f: Facts, g: Facts, k: real, r: Rules, e: Estimate, e': Estimate)
    requires Sane(r) && 0.0 < k && Times(f, g, k) && Compute(f, r) == Done(e) && Compute(g, r) == Done(e')
    ensures e'.base == e.base * k && e'.tests == e.tests * k && Proportional(e, e', 1.0, k)
    ensures e'.divergence == e.divergence && e'.stopped == e.stopped
    ensures e'.coefficient == e.coefficient && e'.risks == e.risks && e'.penalties == e.penalties
  {
    SameRisks(f, g, k, r, e, e');
    BothAre(f, g, k, r, e, e');
    AllHoursTimes(f, g, r, e, e', k);
    TimesStop(f, g, k, r, e, e');
    EstimatesScale(f, g, r, e, e', 1.0, k);
  }

  // ---------------------------------------------------------------------------------------------
  // What risks and missing data add

  lemma RisksAdded(f: Facts, before: seq<string>, risk: string, after: seq<string>, r: Rules, e: Estimate, g: Estimate)
    requires f.risks == before + after && Compute(f, r) == Done(e)
    requires Compute(f.(risks := before + [risk] + after), r) == Done(g)
    ensures Lows(g.risks) == Lows(e.risks) + Share(risk, r.risk).low
    ensures Highs(g.risks) == Highs(e.risks) + Share(risk, r.risk).high
  {
    Reports(f, r, e);
    Reports(f.(risks := before + [risk] + after), r, g);
    SumsInsert(before, risk, after, r.risk);
  }

  lemma SameButRisks(f: Facts, risks: seq<string>, r: Rules, e: Estimate, g: Estimate)
    requires Compute(f, r) == Done(e) && Compute(f.(risks := risks), r) == Done(g)
    ensures g.decomposition == e.decomposition && g.fp == e.fp && g.penalties == e.penalties && g.base == e.base
  {
    Reports(f, r, e);
    Reports(f.(risks := risks), r, g);
    SameHours(f, f.(risks := risks), r);
  }

  /** What a share of `low` to `high` adds to the points, in hours. */
  ghost predicate RiskPriced(e: Estimate, g: Estimate, r: Rules, low: real, high: real) {
    && g.optimistic * r.hoursPerDay == e.optimistic * r.hoursPerDay
    && g.realistic * r.hoursPerDay == e.realistic * r.hoursPerDay + e.decomposition * low
    && g.pessimistic * r.hoursPerDay ==
         e.pessimistic * r.hoursPerDay + e.decomposition * r.pessimistic * high * (1.0 + e.penalties)
  }

  /** A share more, of the hours `d` with everything else multiplied on. */
  lemma ShareAdds(d: real, share: real, more: real, x: real, y: real)
    requires x == d * (1.0 + share) && y == d * (1.0 + (share + more))
    ensures y == x + d * more
  {
  }

  lemma UpperShareAdds(d: real, share: real, more: real, v: real, x: real, y: real)
    requires x == d * (1.0 + share) * v && y == d * (1.0 + (share + more)) * v
    ensures y == x + d * more * v
  {
    assert (d * (1.0 + share) + d * more) * v == d * (1.0 + share) * v + d * more * v;
  }

  /** The points with one share more among the risks. */
  lemma PointsWithRisk(e: Estimate, g: Estimate, r: Rules, a: real, b: real, low: real, high: real)
    requires g.decomposition == e.decomposition && g.penalties == e.penalties
    requires AtShares(e, r, a, b) && AtShares(g, r, a + low, b + high)
    ensures RiskPriced(e, g, r, low, high)
  {
    ShareAdds(e.decomposition, a, low, e.realistic * r.hoursPerDay, g.realistic * r.hoursPerDay);
    UpperShareAdds(e.decomposition * r.pessimistic, b, high, 1.0 + e.penalties,
                   e.pessimistic * r.hoursPerDay, g.pessimistic * r.hoursPerDay);
  }

  lemma SharesReported(f: Facts, r: Rules, e: Estimate, low: real, high: real)
    requires Sane(r) && Compute(f, r) == Done(e) && !e.stopped && low == Lows(e.risks) && high == Highs(e.risks)
    ensures AtShares(e, r, low, high)
  {
    PointsReported(f, r, e);
    HeldAtShares(e, r, low, high);
  }

  /**
   * Each risk named, wherever it is named and as often as it is, adds its lower share of the hours to the realistic
   * point and its upper share to the pessimistic one; a risk the rules do not know adds nothing. The stop stays.
   */
  lemma RiskAdds(f: Facts, before: seq<string>, risk: string, after: seq<string>, r: Rules, e: Estimate, g: Estimate)
    requires Sane(r) && f.risks == before + after && Compute(f, r) == Done(e)
    requires Compute(f.(risks := before + [risk] + after), r) == Done(g)
    ensures g.stopped == e.stopped
    ensures !e.stopped && risk in r.risk ==> RiskPriced(e, g, r, r.risk[risk].low, r.risk[risk].high)
    ensures !e.stopped && risk !in r.risk ==> RiskPriced(e, g, r, 0.0, 0.0)
  {
    var f' := f.(risks := before + [risk] + after);
    SameButRisks(f, before + [risk] + after, r, e, g);
    TimesStop(f, f', 1.0, r, e, g);
    if !e.stopped {
      var share := Share(risk, r.risk);
      RisksAdded(f, before, risk, after, r, e, g);
      var a, b := Lows(e.risks), Highs(e.risks);
      SharesReported(f, r, e, a, b);
      SharesReported(f', r, g, a + share.low, b + share.high);
      PointsWithRisk(e, g, r, a, b, share.low, share.high);
    }
  }

  predicate NothingMissing(f: Facts) {
    f.hasCriteria && f.hasDependencies && f.hasApi && f.hasDataClass
  }

  /** With nothing missing there is no surcharge, and each of the four things missing adds its own penalty. */
  lemma MissingAdds(f: Facts, r: Rules, e: Estimate, g: Estimate)
    requires Compute(f, r) == Done(e)
    ensures NothingMissing(f) ==> e.penalties == 0.0
    ensures f.hasCriteria && Compute(f.(hasCriteria := false), r) == Done(g) ==>
      g.penalties == e.penalties + r.penalties.criteria
    ensures f.hasDependencies && Compute(f.(hasDependencies := false), r) == Done(g) ==>
      g.penalties == e.penalties + r.penalties.dependencies
    ensures f.hasApi && Compute(f.(hasApi := false), r) == Done(g) ==>
      g.penalties == e.penalties + r.penalties.api
    ensures f.hasDataClass && Compute(f.(hasDataClass := false), r) == Done(g) ==>
      g.penalties == e.penalties + r.penalties.dataClass
  {
    Reports(f, r, e);
    if Compute(f.(hasCriteria := false), r) == Done(g) { Reports(f.(hasCriteria := false), r, g); }
    if Compute(f.(hasDependencies := false), r) == Done(g) { Reports(f.(hasDependencies := false), r, g); }
    if Compute(f.(hasApi := false), r) == Done(g) { Reports(f.(hasApi := false), r, g); }
    if Compute(f.(hasDataClass := false), r) == Done(g) { Reports(f.(hasDataClass := false), r, g); }
  }

  // ---------------------------------------------------------------------------------------------
  // A plain unit of work

  lemma PlainHours(f: Facts, hours: real, r: Rules, e: Estimate)
    requires Compute(f, r) == Done(e) && r.testRatio == 0.0
    requires f.units == [hours] && 0.0 < hours && f.scaffolding <= 0.0 && f.integration <= 0.0
    ensures f.workType in r.workType && e.decomposition == hours * r.workType[f.workType]
  {
    Reports(f, r, e);
    HoursAre(f, r, e);
    FailsOn(f, r);
    OneUnit(f);
  }

  lemma PlainRisks(f: Facts, r: Rules, e: Estimate)
    requires Compute(f, r) == Done(e) && f.risks == [] && NothingMissing(f)
    ensures Lows(e.risks) == Highs(e.risks) == e.penalties == 0.0
  {
    Reports(f, r, e);
  }

  /** Without tests, risks and missing data, one unit of work is worth its hours times the coefficient of its type. */
  lemma PlainUnit(f: Facts, hours: real, r: Rules, e: Estimate)
    requires Sane(r) && Compute(f, r) == Done(e) && !e.stopped && r.testRatio == 0.0
    requires f.units == [hours] && 0.0 < hours && f.scaffolding <= 0.0 && f.integration <= 0.0
    requires f.risks == [] && NothingMissing(f)
    ensures f.workType in r.workType
    ensures e.realistic * r.hoursPerDay == hours * r.workType[f.workType]
    ensures e.optimistic == e.realistic * r.optimistic && e.pessimistic == e.realistic * r.pessimistic
    ensures Pert(e, r.bufferK)
  {
    PlainHours(f, hours, r, e);
    PlainRisks(f, r, e);
    PointsReported(f, r, e);
    PlainPoints(e, r, Lows(e.risks), Highs(e.risks));
  }

  lemma PlainPoints(e: Estimate, r: Rules, low: real, high: real)
    requires r.hoursPerDay != 0.0 && low == high == e.penalties == 0.0
    requires InHours(e, r.hoursPerDay, e.decomposition * r.optimistic, e.decomposition * (1.0 + low),
                     e.decomposition * r.pessimistic * (1.0 + high) * (1.0 + e.penalties))
    ensures e.realistic * r.hoursPerDay == e.decomposition
    ensures e.optimistic == e.realistic * r.optimistic && e.pessimistic == e.realistic * r.pessimistic
  {
    var day := r.hoursPerDay;
    MultipleOf(e.optimistic, e.realistic, r.optimistic, day);
    MultipleOf(e.pessimistic, e.realistic, r.pessimistic, day);
  }

  lemma MultipleOf(p: real, m: real, factor: real, day: real)
    requires day != 0.0 && p * day == m * day * factor
    ensures p == m * factor
  {
    Cancel(day, p, m * factor);
  }

  // ---------------------------------------------------------------------------------------------
  // Confidence

  predicate DataFull(f: Facts) {
    f.dataSufficiency == "complete" || f.dataSufficiency == "sufficient"
  }

  predicate DataScarce(f: Facts) {
    f.dataSufficiency == "minimal"
  }

  /** The methods are more than half of the permitted way apart. */
  predicate FarApart(e: Estimate, r: Rules) {
    e.divergence > r.maxDivergence / 2.0
  }

  lemma WeighConfidence(level: string, base: real, tests: real, coefficient: real, decomposition: real, fp: real,
                        risks: seq<(string, Span)>, surcharge: real, r: Rules, e: Estimate)
    requires Weigh(level, base, tests, coefficient, decomposition, fp, risks, surcharge, r) == Done(e)
    ensures e.confidence == ConfidenceOf(level, e.divergence, r.maxDivergence)
  {
  }

  /** High with full data, medium with the minimum, low otherwise; one step lower when the methods are far apart. */
  lemma ConfidenceIs(f: Facts, r: Rules, e: Estimate)
    requires Compute(f, r) == Done(e)
    ensures e.confidence == High <==> DataFull(f) && !FarApart(e, r)
    ensures e.confidence == Medium <==> if FarApart(e, r) then DataFull(f) else DataScarce(f)
  {
    Weighs(f, r, e);
    WeighConfidence(f.dataSufficiency, Base(f), TestHours(f, r), r.workType[f.workType], Decomposition(f, r),
                    FunctionPoints(f, r), AppliedRisks(f.risks, r.risk), Surcharge(f, r.penalties), r, e);
  }

  // ---------------------------------------------------------------------------------------------
  // An example

  const COPYING: Facts := Facts("copy_existing", "subtask", 0.0, [10.0], 0.0, 10.0, 1.3, "complete",
                                true, true, true, true, [])

  lemma CopyingDone() returns (e: Estimate)
    ensures Compute(COPYING, RULES) == Done(e) && e.base == 10.0 && e.risks == [] && e.penalties == 0.0
  {
    RulesAreSane();
    assert COPYING.units[0] == 10.0;
    FailsBecause(COPYING, RULES);
    e := Compute(COPYING, RULES).estimate;
    Reports(COPYING, RULES, e);
    OneUnit(COPYING);
  }

  lemma CopyingHours(e: Estimate)
    requires HoursOf(COPYING, RULES, e) && e.base == 10.0 && Diverges(e)
    ensures e.coefficient == 0.35 && e.tests == 3.0 && e.decomposition == 4.55 && e.fp == 4.55 && e.divergence == 0.0
  {
    assert RULES.workType["copy_existing"] == 0.35;
    assert e.decomposition == 4.55 && e.fp == 4.55;
    assert Min(4.55, 4.55) == 4.55;
  }

  lemma CopyingPoints(e: Estimate)
    requires AtShares(e, RULES, 0.0, 0.0) && e.decomposition == 4.55 && e.penalties == 0.0
    ensures e.optimistic == 0.398125 && e.realistic == 0.56875 && e.pessimistic == 0.853125
  {
  }

  lemma CopyingStory(p: Points)
    requires PointsOf(p, 4.55, 4.0, RULES.scale)
    ensures p == Nearest(1.0)
  {
    assert RULES.scale[1] == 1.0 && RULES.scale[7] == 20.0;
    assert Worth(20.0, 4.0) == 80.0;
    assert Off(1.0, 4.55, 4.0) == 0.55 && Off(0.5, 4.55, 4.0) == 2.55;
  }

  /** Ten hours of copying with thirty percent of tests are worth four and a half, which is one story point. */
  lemma CopyingIsCheap() returns (e: Estimate)
    ensures Compute(COPYING, RULES) == Done(e) && e.coefficient == 0.35
    ensures e.decomposition == 4.55 && e.fp == 4.55 && e.divergence == 0.0 && !e.stopped
    ensures e.optimistic == 0.398125 && e.realistic == 0.56875 && e.pessimistic == 0.853125
    ensures e.points == Nearest(1.0)
  {
    e := CopyingDone();
    RulesAreSane();
    NumbersAre(COPYING, RULES, e);
    CopyingHours(e);
    HeldAtShares(e, RULES, 0.0, 0.0);
    CopyingPoints(e);
    CopyingStory(e.points);
  }
}
