/** The phases of an issue, the moves between them, and the search for the phases that can be reached. */
module Lifecycle {
  import opened Texts

  // ---------------------------------------------------------------------------------------------
  // Any table of moves

  /** A run along the table. */
  ghost predicate Path<P(!new)>(table: map<P, seq<P>>, path: seq<P>) {
    path != [] && forall k :: 0 <= k < |path| - 1 ==> Move(table, path[k], path[k + 1])
  }

  ghost predicate Move<P(!new)>(table: map<P, seq<P>>, p: P, q: P) {
    p in table && q in table[p]
  }

  ghost predicate From<P(!new)>(table: map<P, seq<P>>, start: P, p: P, path: seq<P>) {
    Path(table, path) && path[0] == start && path[|path| - 1] == p
  }

  ghost predicate Reachable<P(!new)>(table: map<P, seq<P>>, start: P, p: P) {
    exists path :: From(table, start, p, path)
  }

  lemma Onward<P(!new)>(table: map<P, seq<P>>, start: P, p: P, q: P)
    requires Reachable(table, start, p) && Move(table, p, q)
    ensures Reachable(table, start, q)
  {
    var path :| From(table, start, p, path);
    assert From(table, start, q, path + [q]);
  }

  /** Every move from a phase of `inside` leads into `inside`. */
  ghost predicate ClosedUnder<P(!new)>(table: map<P, seq<P>>, inside: set<P>) {
    forall p, q :: p in inside && Move(table, p, q) ==> q in inside
  }

  lemma {:induction false} NoWayOut<P(!new)>(table: map<P, seq<P>>, inside: set<P>, path: seq<P>)
    requires ClosedUnder(table, inside) && Path(table, path) && path[0] in inside
    ensures path[|path| - 1] in inside
    decreases |path|
  {
    if 1 < |path| {
      assert Move(table, path[0], path[0 + 1]);
      var rest := path[1..];
      forall k | 0 <= k < |rest| - 1 ensures Move(table, rest[k], rest[k + 1]) {
        assert Move(table, path[k + 1], path[k + 1 + 1]);
      }
      NoWayOut(table, inside, rest);
    }
  }

  /** What is known in the middle of the search. */
  ghost predicate Explored<P(!new)>(table: map<P, seq<P>>, start: P, seen: set<P>, queue: seq<P>) {
    && (start in seen || start in queue)
    && (forall p :: p in seen || p in queue ==> Reachable(table, start, p))
    && (forall p :: p in seen ==> p in table)
    && (forall p, q :: p in seen && Move(table, p, q) ==> q in seen || q in queue)
  }

  lemma ExploredStart<P(!new)>(table: map<P, seq<P>>, start: P)
    ensures Explored(table, start, {}, [start])
  {
    assert From(table, start, start, [start]);
  }

  lemma ExploredAgain<P(!new)>(table: map<P, seq<P>>, start: P, seen: set<P>, queue: seq<P>, current: P)
    requires Explored(table, start, seen, queue + [current]) && current in seen
    ensures Explored(table, start, seen, queue)
  {
    forall p | p in queue ensures p in queue + [current] {}
  }

  lemma ExploredMore<P(!new)>(table: map<P, seq<P>>, start: P, seen: set<P>, queue: seq<P>, current: P)
    requires Explored(table, start, seen, queue + [current]) && current in table
    ensures Explored(table, start, seen + {current}, queue + table[current])
  {
    assert (queue + [current])[|queue|] == current;
    forall p | p in queue + table[current] ensures Reachable(table, start, p) {
      if p in queue {
        assert p in queue + [current];
      } else {
        Onward(table, start, current, p);
      }
    }
  }

  lemma ExploredAll<P(!new)>(table: map<P, seq<P>>, start: P, seen: set<P>)
    requires Explored(table, start, seen, [])
    ensures forall p :: p in seen <==> Reachable(table, start, p)
    ensures forall p :: Reachable(table, start, p) ==> p in table
  {
    forall p | Reachable(table, start, p) ensures p in seen {
      var path :| From(table, start, p, path);
      NoWayOut(table, seen, path);
    }
  }

  /**
   * The search ends for any finite table; it finds exactly the phases some run leads to, and it fails exactly
   * when some run leads to a phase the table does not know.
   */
  method ReachableFrom<P(==, !new)>(table: map<P, seq<P>>, start: P) returns (r: Result<set<P>>)
    ensures r.Ok? ==> forall p :: p in r.value <==> Reachable(table, start, p)
    ensures r.Err? <==> exists p :: Reachable(table, start, p) && p !in table
  {
    var seen: set<P>, queue := {}, [start];
    ExploredStart(table, start);
    while queue != []
      invariant Explored(table, start, seen, queue)
      decreases |table.Keys - seen|, |queue|
    {
      var current := queue[|queue| - 1];
      ghost var before := queue;
      queue := queue[..|queue| - 1];
      assert before == queue + [current];
      if current in seen {
        ExploredAgain(table, start, seen, queue, current);
        continue;
      }
      if current !in table {
        assert Reachable(table, start, before[|queue|]);
        return Err(UnknownPhase);
      }
      ExploredMore(table, start, seen, queue, current);
      assert table.Keys - seen == (table.Keys - (seen + {current})) + {current};
      seen := seen + {current};
      queue := queue + table[current];
    }
    ExploredAll(table, start, seen);
    r := Ok(seen);
  }

  // ---------------------------------------------------------------------------------------------
  // The table

  datatype Phase =
    | Created | Classified | BusinessAnalysis | ProductResearch | SystemRequirements | Groomed | ReadyForDev
    | InDevelopment | PrOpen | PrReview | Merged | Testing | Released
    | Spam | Duplicate | Answered | Skipped | Escalated | Failed | Cancelled

  datatype Initiator = Agent | Human | External

  datatype Transition = To(target: Phase, initiator: Initiator)

  function Allowed(p: Phase): seq<Transition> {
    match p
    case Created => [To(Classified, Agent), To(Skipped, Agent), To(Spam, Agent), To(Duplicate, Agent),
                     To(Answered, Agent), To(Escalated, Agent), To(Failed, Agent), To(Cancelled, Human)]
    case Classified => [To(BusinessAnalysis, Human), To(ProductResearch, Human), To(ReadyForDev, Human),
                        To(SystemRequirements, Agent), To(Created, Human), To(Duplicate, Agent),
                        To(Answered, Agent), To(Escalated, Agent), To(Failed, Agent), To(Cancelled, Human)]
    case BusinessAnalysis => [To(SystemRequirements, Agent), To(Failed, Agent), To(Escalated, Human), To(Cancelled, Human)]
    case ProductResearch => [To(SystemRequirements, Agent), To(Failed, Agent), To(Escalated, Human), To(Cancelled, Human)]
    case SystemRequirements => [To(Groomed, Human), To(ReadyForDev, Agent), To(InDevelopment, Agent), To(PrOpen, Agent),
                                To(BusinessAnalysis, Human), To(Failed, Agent), To(Cancelled, Human)]
    case Groomed => [To(ReadyForDev, Agent), To(SystemRequirements, Human), To(Cancelled, Human)]
    case ReadyForDev => [To(InDevelopment, Human), To(PrOpen, Agent), To(Failed, Agent), To(Groomed, Human), To(Cancelled, Human)]
    case InDevelopment => [To(PrOpen, External), To(ReadyForDev, Human), To(Failed, External), To(Escalated, External),
                           To(Cancelled, Human)]
    case PrOpen => [To(PrReview, External), To(Merged, External), To(InDevelopment, External), To(Failed, External),
                    To(Escalated, External), To(Cancelled, Human)]
    case PrReview => [To(Merged, External), To(InDevelopment, External), To(Escalated, External), To(Failed, External),
                      To(Cancelled, Human)]
    case Merged => [To(Testing, External), To(Failed, External), To(Escalated, External), To(Cancelled, Human)]
    case Testing => [To(Released, External), To(InDevelopment, Human), To(Failed, External), To(Escalated, External),
                     To(Cancelled, Human)]
    case Released => []
    case Spam => [To(Created, Human), To(Cancelled, Human)]
    case Duplicate => [To(Classified, Human), To(BusinessAnalysis, Human), To(SystemRequirements, Human),
                       To(ReadyForDev, Human), To(Cancelled, Human)]
    case Answered => [To(Classified, Human), To(Cancelled, Human)]
    case Skipped => [To(Created, Human), To(Cancelled, Human)]
    case Escalated => [To(Classified, Human), To(InDevelopment, Human), To(Cancelled, Human)]
    case Failed => [To(Created, Human), To(BusinessAnalysis, Human), To(Escalated, Human), To(InDevelopment, External),
                    To(Cancelled, Human)]
    case Cancelled => []
  }

  /** The first transition to a phase, or an error. */
  function TransitionTo(moves: seq<Transition>, target: Phase): (r: Result<Transition>)
    ensures r.Ok? <==> exists k :: 0 <= k < |moves| && moves[k].target == target
    ensures r.Ok? ==> r.value in moves && r.value.target == target
  {
    if moves == [] then Err(InvalidTransition)
    else if moves[0].target == target then Ok(moves[0])
    else
      var rest := TransitionTo(moves[1..], target);
      assert forall k :: 0 < k < |moves| ==> moves[k] == moves[1..][k - 1];
      rest
  }

  function Targets(moves: seq<Transition>): seq<Phase> {
    seq(|moves|, k requires 0 <= k < |moves| => moves[k].target)
  }

  const TRANSITIONS: map<Phase, seq<Phase>> := map p: Phase | true :: Targets(Allowed(p))

  predicate Terminal(p: Phase) {
    p == Released || p == Cancelled
  }

  predicate Among(moves: seq<Transition>, q: Phase) {
    exists k :: 0 <= k < |moves| && moves[k].target == q
  }

  lemma AmongTargets(moves: seq<Transition>, q: Phase)
    ensures q in Targets(moves) <==> Among(moves, q)
    ensures Among(moves, q) <==> TransitionTo(moves, q).Ok?
  {
    assert forall k :: 0 <= k < |moves| ==> Targets(moves)[k] == moves[k].target;
  }

  /** Some transition leads from `p` to `q`. */
  predicate Leads(p: Phase, q: Phase) {
    Among(Allowed(p), q)
  }

  /** The runs of the table go exactly where `transition` does. */
  lemma MoveIsTransition(p: Phase, q: Phase)
    ensures Move(TRANSITIONS, p, q) <==> Leads(p, q)
    ensures Move(TRANSITIONS, p, q) <==> TransitionTo(Allowed(p), q).Ok?
  {
    AmongTargets(Allowed(p), q);
  }

  lemma IntoReleased(p: Phase)
    requires Leads(p, Released)
    ensures p == Testing
  {
  }

  lemma IntoTesting(p: Phase)
    requires Leads(p, Testing)
    ensures p == Merged
  {
  }

  lemma IntoMerged(p: Phase)
    requires Leads(p, Merged)
    ensures p == PrOpen || p == PrReview
  {
  }

  lemma IntoReview(p: Phase)
    requires Leads(p, PrReview)
    ensures p == PrOpen
  {
  }

  /** Only a person takes an issue out of work. */
  lemma OnlyPeopleCancel(p: Phase, t: Transition)
    requires t in Allowed(p) && t.target == Cancelled
    ensures t.initiator == Human
  {
  }

  /** A person can take an issue out of work from every phase but the two final ones. */
  lemma PeopleCanCancel(p: Phase)
    ensures p != Released && p != Cancelled ==> TransitionTo(Allowed(p), Cancelled) == Ok(To(Cancelled, Human))
    ensures p == Released || p == Cancelled ==> forall q: Phase :: TransitionTo(Allowed(p), q).Err?
  {
    if p != Released && p != Cancelled {
      var k := |Allowed(p)| - 1;
      assert Allowed(p)[k].target == Cancelled;
      OnlyPeopleCancel(p, TransitionTo(Allowed(p), Cancelled).value);
    }
  }

  /** Once a request is open, only what happens outside brings the work closer to production. */
  lemma OnlyOutsideShips(p: Phase, t: Transition)
    requires t in Allowed(p) && (t.target == PrReview || t.target == Merged || t.target == Testing || t.target == Released)
    ensures t.initiator == External
  {
  }

  /** The first stage of work, analysis, research or development, is started by a person. */
  lemma PeopleStartWork(t: Transition)
    requires t in Allowed(Classified) && (t.target == BusinessAnalysis || t.target == ProductResearch || t.target == ReadyForDev)
    ensures t.initiator == Human
  {
  }

  /** A phase aside from the way to production: not final, but nothing happens in it by itself. */
  predicate Aside(p: Phase) {
    p == Spam || p == Duplicate || p == Answered || p == Skipped || p == Escalated || p == Failed
  }

  /** From each of them a person can put the issue back to work, into a phase that is none of them and not final. */
  lemma PeoplePutBack(p: Phase) returns (t: Transition)
    requires Aside(p)
    ensures t in Allowed(p) && t.initiator == Human && !Aside(t.target) && t.target != Cancelled && t.target != Released
  {
    t := Allowed(p)[0];
  }

  predicate EndsWith(path: seq<Phase>, end: seq<Phase>) {
    |end| <= |path| && path[|path| - |end|..] == end
  }

  /** A run of an issue through its phases. */
  ghost predicate Journey(path: seq<Phase>) {
    path != [] && forall k :: 0 <= k < |path| - 1 ==> Leads(path[k], path[k + 1])
  }

  lemma JourneyIsPath(path: seq<Phase>)
    ensures Journey(path) <==> Path(TRANSITIONS, path)
  {
    forall p: Phase, q: Phase ensures Move(TRANSITIONS, p, q) <==> Leads(p, q) { MoveIsTransition(p, q); }
    if path != [] && !Path(TRANSITIONS, path) {
      var k :| 0 <= k < |path| - 1 && !Move(TRANSITIONS, path[k], path[k + 1]);
      assert !Leads(path[k], path[k + 1]);
    }
  }

  lemma StepBack(path: seq<Phase>, k: nat)
    requires Journey(path) && 0 < k < |path|
    ensures Leads(path[k - 1], path[k])
  {
    assert Leads(path[k - 1], path[k - 1 + 1]);
  }

  lemma NotFinal(p: Phase, q: Phase)
    requires Leads(p, q)
    ensures !Terminal(p)
  {
  }

  /** Nothing leads on from a final phase. */
  lemma FinalIsLast(path: seq<Phase>, k: nat)
    requires Journey(path) && k < |path| && Terminal(path[k])
    ensures k == |path| - 1
  {
    if k < |path| - 1 {
      StepBack(path, k + 1);
      NotFinal(path[k], path[k + 1]);
    }
  }

  lemma LastSteps(path: seq<Phase>) returns (n: nat)
    requires Journey(path) && path[0] == Created && path[|path| - 1] == Released
    ensures n == |path| - 1 && 3 <= n && path[n - 1] == Testing && path[n - 2] == Merged
    ensures path[n - 3] == PrOpen || (path[n - 3] == PrReview && 4 <= n && path[n - 4] == PrOpen)
  {
    n := |path| - 1;
    StepBack(path, n);
    IntoReleased(path[n - 1]);
    StepBack(path, n - 1);
    IntoTesting(path[n - 2]);
    StepBack(path, n - 2);
    IntoMerged(path[n - 3]);
    if path[n - 3] == PrReview {
      StepBack(path, n - 3);
      IntoReview(path[n - 4]);
    }
  }

  /** Every run from creation to production ends so: request opened, perhaps reviewed, merged, tested, released. */
  lemma EveryReleaseIsShipped(path: seq<Phase>)
    requires Journey(path) && path[0] == Created && path[|path| - 1] == Released
    ensures
      || EndsWith(path, [PrOpen, Merged, Testing, Released])
      || EndsWith(path, [PrOpen, PrReview, Merged, Testing, Released])
  {
    var n := LastSteps(path);
    LastPhases(path, n);
  }

  lemma LastPhases(path: seq<Phase>, n: nat)
    requires 3 <= n == |path| - 1 && path[n] == Released && path[n - 1] == Testing && path[n - 2] == Merged
    requires path[n - 3] == PrOpen || (path[n - 3] == PrReview && 4 <= n && path[n - 4] == PrOpen)
    ensures
      || EndsWith(path, [PrOpen, Merged, Testing, Released])
      || EndsWith(path, [PrOpen, PrReview, Merged, Testing, Released])
  {
    if path[n - 3] == PrReview {
      assert path[n - 4..] == [PrOpen, PrReview, Merged, Testing, Released];
    } else {
      assert path[n - 3..] == [PrOpen, Merged, Testing, Released];
    }
  }

  lemma MoveAt(p: Phase, k: nat)
    requires k < |Allowed(p)|
    ensures Move(TRANSITIONS, p, Allowed(p)[k].target)
  {
    assert Targets(Allowed(p))[k] == Allowed(p)[k].target;
  }

  /** A phase one move closer to the start, and which of its moves it is. */
  function Origin(p: Phase): (o: (Phase, nat))
    requires p != Created
    ensures o.1 < |Allowed(o.0)| && Allowed(o.0)[o.1].target == p && Depth(o.0) < Depth(p)
  {
    match p
    case Classified => (Created, 0)
    case Skipped => (Created, 1)
    case Spam => (Created, 2)
    case Duplicate => (Created, 3)
    case Answered => (Created, 4)
    case Escalated => (Created, 5)
    case Failed => (Created, 6)
    case Cancelled => (Created, 7)
    case BusinessAnalysis => (Classified, 0)
    case ProductResearch => (Classified, 1)
    case ReadyForDev => (Classified, 2)
    case SystemRequirements => (Classified, 3)
    case Groomed => (SystemRequirements, 0)
    case InDevelopment => (ReadyForDev, 0)
    case PrOpen => (ReadyForDev, 1)
    case PrReview => (PrOpen, 0)
    case Merged => (PrOpen, 1)
    case Testing => (Merged, 0)
    case Released => (Testing, 0)
  }

  function Depth(p: Phase): nat {
    match p
    case Created => 0
    case BusinessAnalysis | ProductResearch | ReadyForDev | SystemRequirements => 2
    case Groomed | InDevelopment | PrOpen => 3
    case PrReview | Merged => 4
    case Testing => 5
    case Released => 6
    case _ => 1
  }

  /** No phase is a dead entry of the table: some run from creation leads to it. */
  lemma {:induction false} EveryPhaseIsReached(p: Phase)
    ensures Reachable(TRANSITIONS, Created, p)
    decreases Depth(p)
  {
    if p == Created {
      assert From(TRANSITIONS, Created, Created, [Created]);
    } else {
      var (q, k) := Origin(p);
      EveryPhaseIsReached(q);
      MoveAt(q, k);
      Onward(TRANSITIONS, Created, q, p);
    }
  }

  /** The move that brings a phase closer to production. */
  function Forward(p: Phase): (k: nat)
    requires !Terminal(p)
    ensures k < |Allowed(p)| && Distance(Allowed(p)[k].target) < Distance(p) && Allowed(p)[k].target != Cancelled
  {
    match p
    case Classified => 2
    case SystemRequirements | Duplicate | Failed => 3
    case ReadyForDev | PrOpen | Escalated => 1
    case Created | BusinessAnalysis | ProductResearch | Groomed | InDevelopment | PrReview | Merged | Testing
       | Spam | Answered | Skipped => 0
  }

  function Distance(p: Phase): nat {
    match p
    case Released => 0
    case Testing => 1
    case Merged => 2
    case PrOpen | PrReview => 3
    case SystemRequirements | ReadyForDev | InDevelopment => 4
    case BusinessAnalysis | ProductResearch | Groomed | Classified | Duplicate | Escalated | Failed => 5
    case Created | Answered => 6
    case Spam | Skipped => 7
    case Cancelled => 8
  }

  /** No side phase is a dead end: from every phase that is not final, some run leads to production. */
  lemma {:induction false} EveryPhaseCanShip(p: Phase)
    requires p != Cancelled
    ensures Reachable(TRANSITIONS, p, Released)
    decreases Distance(p)
  {
    if p == Released {
      assert From(TRANSITIONS, p, Released, [p]);
    } else {
      var q := Allowed(p)[Forward(p)].target;
      EveryPhaseCanShip(q);
      MoveAt(p, Forward(p));
      var path :| From(TRANSITIONS, q, Released, path);
      Before(TRANSITIONS, p, q, Released, path);
    }
  }

  lemma Before<P(!new)>(table: map<P, seq<P>>, p: P, q: P, goal: P, path: seq<P>)
    requires Move(table, p, q) && From(table, q, goal, path)
    ensures Reachable(table, p, goal)
  {
    var longer := [p] + path;
    forall k | 0 <= k < |longer| - 1 ensures Move(table, longer[k], longer[k + 1]) {
      if 0 < k { assert Move(table, path[k - 1], path[k - 1 + 1]); }
    }
    assert From(table, p, goal, longer);
  }

  /** The search over the table never fails, and finds every phase from the start. */
  method PhasesFromCreated() returns (phases: set<Phase>)
    ensures forall p: Phase :: p in phases
  {
    var r := ReachableFrom(TRANSITIONS, Created);
    forall p: Phase ensures Reachable(TRANSITIONS, Created, p) && p in TRANSITIONS { EveryPhaseIsReached(p); }
    phases := r.value;
  }
}
