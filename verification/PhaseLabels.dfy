/**
 * The label of the phase an issue is in, kept on a host whose calls may fail. The host takes names that differ in
 * case for one label; a set of labels here is the set of their names in small letters.
 */
module PhaseLabels {
  import opened Chars
  import opened Forge
  import opened Lifecycle
  import opened Texts

  // ---------------------------------------------------------------------------------------------
  // Names

  function PhaseName(p: Phase): (s: string)
    ensures |s| == Key(p).0 && s[0] == Key(p).1
  {
    match p
    case Created => "created"
    case Classified => "classified"
    case BusinessAnalysis => "business-analysis"
    case ProductResearch => "product-research"
    case SystemRequirements => "system-requirements"
    case Groomed => "groomed"
    case ReadyForDev => "ready-for-dev"
    case InDevelopment => "in-development"
    case PrOpen => "pr-open"
    case PrReview => "pr-review"
    case Merged => "merged"
    case Testing => "testing"
    case Released => "released"
    case Spam => "spam"
    case Duplicate => "duplicate"
    case Answered => "answered"
    case Skipped => "skipped"
    case Escalated => "escalated"
    case Failed => "failed"
    case Cancelled => "cancelled"
  }

  /** The length and the first letter, which tell the names apart. */
  function Key(p: Phase): (k: (nat, char))
    ensures 0 < k.0
  {
    match p
    case Created => (7, 'c')
    case Classified => (10, 'c')
    case BusinessAnalysis => (17, 'b')
    case ProductResearch => (16, 'p')
    case SystemRequirements => (19, 's')
    case Groomed => (7, 'g')
    case ReadyForDev => (13, 'r')
    case InDevelopment => (14, 'i')
    case PrOpen => (7, 'p')
    case PrReview => (9, 'p')
    case Merged => (6, 'm')
    case Testing => (7, 't')
    case Released => (8, 'r')
    case Spam => (4, 's')
    case Duplicate => (9, 'd')
    case Answered => (8, 'a')
    case Skipped => (7, 's')
    case Escalated => (9, 'e')
    case Failed => (6, 'f')
    case Cancelled => (9, 'c')
  }

  lemma KeysDiffer(p: Phase, q: Phase)
    requires Key(p) == Key(q)
    ensures p == q
  {
  }

  lemma NamesDiffer(p: Phase, q: Phase)
    requires PhaseName(p) == PhaseName(q)
    ensures p == q
  {
    KeysDiffer(p, q);
  }

  function PhaseNamed(s: string): Option<Phase> {
    if exists p: Phase :: PhaseName(p) == s then
      assert forall p: Phase, q: Phase :: PhaseName(p) == s && PhaseName(q) == s ==> p == q by {
        forall p: Phase, q: Phase | PhaseName(p) == PhaseName(q) ensures p == q { NamesDiffer(p, q); }
      }
      var p: Phase :| PhaseName(p) == s;
      Some(p)
    else None
  }

  const PHASE_PREFIX := "phase:"

  function PhaseLabel(phase: string): string {
    PHASE_PREFIX + phase
  }

  /** The phase a label stands for, whatever its case. */
  function PhaseOf(name: string): Option<Phase> {
    if PHASE_PREFIX <= Lower(name) && |PHASE_PREFIX| <= |name| then PhaseNamed(Lower(name[|PHASE_PREFIX|..])) else None
  }

  function KnownPhases(names: seq<string>): seq<Phase> {
    if names == [] then []
    else
      var last := PhaseOf(names[|names| - 1]);
      KnownPhases(names[..|names| - 1]) + if last.Some? then [last.value] else []
  }

  /** The phase the labels tell, unless they tell none or several. */
  function PhaseFromLabels(names: seq<string>): Option<Phase> {
    var known := KnownPhases(names);
    if |known| == 1 then Some(known[0]) else None
  }

  // ---------------------------------------------------------------------------------------------
  // Setting labels

  /** The names that are not empty and not to be kept. */
  function Names(names: seq<string>, keep: set<string>): (r: seq<string>)
    ensures forall name :: name in r <==> name in names && name != "" && name !in keep
  {
    if names == [] then []
    else
      var rest := Names(names[1..], keep);
      assert forall name :: name in names <==> name == names[0] || name in names[1..];
      if names[0] != "" && names[0] !in keep then [names[0]] + rest else rest
  }

  function SetOf(names: seq<string>): set<string> {
    set name | name in names
  }

  /** What became of the calls: whether the POST took effect, which removals did, and which were reported to fail. */
  datatype Update = Update(posted: bool, dropped: set<string>, failed: set<string>)

  /** The labels after a call of `set_labels`. */
  ghost predicate Updated(before: set<string>, add: set<string>, stale: set<string>, ok: bool, u: Update, after: set<string>) {
    && after == (if u.posted then before + add else before) - u.dropped
    && (ok ==> u.posted)
    && u.dropped <= stale && u.failed <= stale && stale <= u.dropped + u.failed
  }

  lemma OneMore(start: set<string>, wanted: set<string>, stale: seq<string>, i: nat, ok: bool, u: Update,
                before: set<string>, removed: bool, after: set<string>) returns (u': Update)
    requires i < |stale| && Updated(start, wanted, SetOf(stale[..i]), ok, u, before)
    requires after == before - {stale[i]} || (!removed && after == before)
    ensures Updated(start, wanted, SetOf(stale[..i + 1]), ok, u', after)
    ensures u'.failed == (if removed then u.failed else u.failed + {stale[i]}) && u'.posted == u.posted
  {
    assert stale[..i + 1] == stale[..i] + [stale[i]];
    assert SetOf(stale[..i + 1]) == SetOf(stale[..i]) + {stale[i]};
    u' := u.(dropped := if after == before - {stale[i]} then u.dropped + {stale[i]} else u.dropped,
             failed := if removed then u.failed else u.failed + {stale[i]});
  }

  /**
   * The labels between the calls: the labels wanted are posted first, when nothing has gone yet, and once they took
   * effect they stand at every moment.
   */
  ghost predicate PostedFirst(before: set<string>, wanted: set<string>, posted: bool, moments: seq<set<string>>) {
    && (wanted != {} ==> moments != [] && moments[0] == if posted then before + wanted else before)
    && (posted ==> forall k :: 0 <= k < |moments| ==> wanted <= moments[k])
  }

  method SetLabels(host: Forge, add: seq<string>, remove: seq<string>) returns (ok: bool, ghost u: Update)
    modifies host
    ensures var wanted := SetOf(Names(add, {}));
      && Updated(old(host.labels), wanted, SetOf(Names(remove, wanted)), ok, u, host.labels)
      && old(host.seen) <= host.seen
      && PostedFirst(old(host.labels), wanted, u.posted, host.seen[|old(host.seen)|..])
    ensures host.Snapshot() == old(host.Snapshot()).(labels := host.labels)
    ensures Quiet(old(host.faults)) ==> ok && u.failed == {} && Quiet(host.faults)
  {
    var wanted := SetOf(Names(add, {}));
    var stale := Names(remove, wanted);
    ok, u := true, Update(true, {}, {});
    ghost var moments: seq<set<string>> := [];
    assert host.seen[|host.seen|..] == moments;
    if wanted == {} && stale == [] { return; }
    if wanted != {} {
      ghost var posted;
      ok, posted := host.PostLabels(wanted);
      u, moments := Update(posted, {}, {}), [host.labels];
    }
    for i := 0 to |stale|
      invariant Updated(old(host.labels), wanted, SetOf(stale[..i]), ok, u, host.labels)
      invariant host.Snapshot() == old(host.Snapshot()).(labels := host.labels)
      invariant Quiet(old(host.faults)) ==> ok && u.failed == {} && Quiet(host.faults)
      invariant host.seen == old(host.seen) + moments && (u.posted ==> wanted <= host.labels)
      invariant PostedFirst(old(host.labels), wanted, u.posted, moments)
    {
      ghost var before := host.labels;
      var removed := host.RemoveLabel(stale[i]);
      assert stale[i] in stale;
      moments := moments + [host.labels];
      u := OneMore(old(host.labels), wanted, stale, i, ok, u, before, removed, host.labels);
    }
    assert stale[..|stale|] == stale;
  }

  // ---------------------------------------------------------------------------------------------
  // Setting the phase

  const PHASES: seq<Phase> := [
    Created, Classified, BusinessAnalysis, ProductResearch, SystemRequirements, Groomed, ReadyForDev,
    InDevelopment, PrOpen, PrReview, Merged, Testing, Released,
    Spam, Duplicate, Answered, Skipped, Escalated, Failed, Cancelled]

  /** The labels that are to go: those of all phases, and the sign that a development agent is at work. */
  function StaleLabels(phase: string, indicator: string): seq<string> {
    seq(|PHASES|, i requires 0 <= i < |PHASES| => PhaseLabel(PhaseName(PHASES[i])))
    + if phase != PhaseName(InDevelopment) then [indicator] else []
  }

  function Stale(phase: string, indicator: string): set<string> {
    SetOf(Names(StaleLabels(phase, indicator), {PhaseLabel(phase)}))
  }

  /** At no moment of a change of phase whose label was posted is the issue without a phase. */
  method SetPhase(host: Forge, phase: string, indicator: string) returns (ok: bool, ghost u: Update)
    modifies host
    ensures old(host.seen) <= host.seen
    ensures PostedFirst(old(host.labels), {PhaseLabel(phase)}, u.posted, host.seen[|old(host.seen)|..])
    ensures Updated(old(host.labels), {PhaseLabel(phase)}, Stale(phase, indicator), ok, u, host.labels)
    ensures host.Snapshot() == old(host.Snapshot()).(labels := host.labels)
    ensures Quiet(old(host.faults)) ==> ok && u.failed == {} && Quiet(host.faults)
  {
    var target := PhaseLabel(phase);
    var stale := seq(|PHASES|, i requires 0 <= i < |PHASES| => PhaseLabel(PhaseName(PHASES[i])));
    if phase != PhaseName(InDevelopment) { stale := stale + [indicator]; }
    assert stale == StaleLabels(phase, indicator);
    assert target in [target];
    assert SetOf(Names([target], {})) == {target};
    ok, u := SetLabels(host, [target], stale);
  }

  lemma EveryPhase(p: Phase)
    ensures p in PHASES
  {
    assert PHASES[0] == Created && PHASES[1] == Classified && PHASES[2] == BusinessAnalysis && PHASES[3] == ProductResearch;
    assert PHASES[4] == SystemRequirements && PHASES[5] == Groomed && PHASES[6] == ReadyForDev && PHASES[7] == InDevelopment;
    assert PHASES[8] == PrOpen && PHASES[9] == PrReview && PHASES[10] == Merged && PHASES[11] == Testing;
    assert PHASES[12] == Released && PHASES[13] == Spam && PHASES[14] == Duplicate && PHASES[15] == Answered;
    assert PHASES[16] == Skipped && PHASES[17] == Escalated && PHASES[18] == Failed && PHASES[19] == Cancelled;
  }

  predicate IsPhaseLabel(name: string) {
    exists p: Phase :: name == PhaseLabel(PhaseName(p))
  }

  /** What a change of phase may take off. */
  lemma StaleIs(phase: string, indicator: string, name: string)
    ensures name in Stale(phase, indicator) <==>
      name != PhaseLabel(phase) &&
      (IsPhaseLabel(name) || (name == indicator && name != "" && phase != PhaseName(InDevelopment)))
  {
    var all := StaleLabels(phase, indicator);
    var labels := seq(|PHASES|, i requires 0 <= i < |PHASES| => PhaseLabel(PhaseName(PHASES[i])));
    if IsPhaseLabel(name) {
      var p: Phase :| name == PhaseLabel(PhaseName(p));
      EveryPhase(p);
      var i :| 0 <= i < |PHASES| && PHASES[i] == p;
      assert labels[i] == name;
    }
    assert name in labels ==> IsPhaseLabel(name);
    assert name in all <==> name in labels || (name == indicator && phase != PhaseName(InDevelopment));
    assert name in Names(all, {PhaseLabel(phase)}) <==> name in all && name != "" && name != PhaseLabel(phase);
  }

  // ---------------------------------------------------------------------------------------------
  // What a change of phase does to the labels

  /** A change of phase, whatever calls fail. */
  ghost predicate Changed(before: set<string>, phase: string, indicator: string, ok: bool, u: Update, after: set<string>) {
    Updated(before, {PhaseLabel(phase)}, Stale(phase, indicator), ok, u, after)
  }

  /**
   * Whatever calls fail, nothing goes but labels of other phases and, unless development begins, the sign of
   * development; nothing comes but the target; and a call that returns leaves the target.
   */
  lemma TouchesOnlyPhases(before: set<string>, phase: string, indicator: string, ok: bool, u: Update, after: set<string>, name: string)
    requires Changed(before, phase, indicator, ok, u, after)
    ensures name in before && name !in after ==>
      name != PhaseLabel(phase) && (IsPhaseLabel(name) || (name == indicator && phase != PhaseName(InDevelopment)))
    ensures name in after && name !in before ==> name == PhaseLabel(phase) && u.posted
    ensures ok ==> PhaseLabel(phase) in after
  {
    StaleIs(phase, indicator, name);
    StaleIs(phase, indicator, PhaseLabel(phase));
  }

  ghost predicate PhaseShown(labels: set<string>) {
    exists p: Phase :: PhaseLabel(PhaseName(p)) in labels
  }

  ghost predicate Survives(labels: set<string>, u: Update, p: Phase) {
    PhaseLabel(PhaseName(p)) in labels && PhaseLabel(PhaseName(p)) !in u.dropped
  }

  /**
   * A change to a known phase leaves some phase label exactly when its label was posted, or was there before, or
   * the removal of another one did not take effect.
   */
  lemma PhaseStaysIff(before: set<string>, p: Phase, indicator: string, ok: bool, u: Update, after: set<string>)
    requires Changed(before, PhaseName(p), indicator, ok, u, after)
    ensures PhaseShown(after) <==>
      u.posted || PhaseLabel(PhaseName(p)) in before || exists q: Phase :: Survives(before, u, q)
  {
    var target := PhaseLabel(PhaseName(p));
    StaleIs(PhaseName(p), indicator, target);
    if u.posted || target in before {
      assert target in after;
    } else if q: Phase :| Survives(before, u, q) {
      assert PhaseLabel(PhaseName(q)) in after;
    } else if q: Phase :| PhaseLabel(PhaseName(q)) in after {
      assert Survives(before, u, q);
    }
  }

  /** It may leave none: the POST is lost, and the old label goes all the same. */
  lemma PhaseMayBeLost(indicator: string)
    ensures var before := {PhaseLabel(PhaseName(Created))};
      var u := Update(false, Stale(PhaseName(Classified), indicator), {});
      Changed(before, PhaseName(Classified), indicator, false, u, {}) && PhaseShown(before) && !PhaseShown({})
  {
    LabelsDiffer(Created, Classified);
    StaleIs(PhaseName(Classified), indicator, PhaseLabel(PhaseName(Created)));
    assert IsPhaseLabel(PhaseLabel(PhaseName(Created)));
    assert {PhaseLabel(PhaseName(Created))} - Stale(PhaseName(Classified), indicator) == {};
  }

  lemma LabelsDiffer(p: Phase, q: Phase)
    ensures PhaseLabel(PhaseName(p)) == PhaseLabel(PhaseName(q)) ==> p == q
  {
    LabelOf(PhaseName(p));
    LabelOf(PhaseName(q));
    if PhaseName(p) == PhaseName(q) { NamesDiffer(p, q); }
  }

  lemma LabelOf(phase: string)
    ensures PHASE_PREFIX <= PhaseLabel(phase) && PhaseLabel(phase)[|PHASE_PREFIX|..] == phase
  {
  }

  // ---------------------------------------------------------------------------------------------
  // Reading the phase back

  /** A list of the labels as the host gives them, each once, in any case and order. */
  ghost predicate Lists(names: seq<string>, labels: set<string>) {
    && (forall i :: 0 <= i < |names| ==> Lower(names[i]) in labels)
    && (forall name :: name in labels ==> exists i :: 0 <= i < |names| && Lower(names[i]) == name)
    && (forall i, j :: 0 <= i < j < |names| ==> Lower(names[i]) != Lower(names[j]))
  }

  lemma {:induction false} LowerDrop(s: string, n: nat)
    requires n <= |s|
    ensures |Lower(s)| == |s| && Lower(s[n..]) == Lower(s)[n..]
    decreases |s|
  {
    if n == 0 {
      LowerLength(s);
      assert s[0..] == s && Lower(s)[0..] == Lower(s);
    } else {
      LowerDrop(s[1..], n - 1);
      assert s[1..][n - 1..] == s[n..];
    }
  }

  lemma {:induction false} LowerLength(s: string)
    ensures |Lower(s)| == |s|
    decreases |s|
  {
    if s != "" { LowerLength(s[1..]); }
  }

  /** A label is read as a phase exactly when it is the label of that phase, in any case. */
  lemma PhaseOfIs(name: string, p: Phase)
    ensures PhaseOf(name) == Some(p) <==> Lower(name) == PhaseLabel(PhaseName(p))
  {
    LowerLength(name);
    LabelOf(PhaseName(p));
    if PHASE_PREFIX <= Lower(name) {
      LowerDrop(name, |PHASE_PREFIX|);
      assert Lower(name) == PHASE_PREFIX + Lower(name)[|PHASE_PREFIX|..];
      forall q: Phase | PhaseName(q) == PhaseName(p) ensures q == p { NamesDiffer(q, p); }
    }
  }

  lemma {:induction false} KnownNone(names: seq<string>)
    requires forall i :: 0 <= i < |names| ==> PhaseOf(names[i]) == None
    ensures KnownPhases(names) == []
    decreases |names|
  {
    if names != [] { KnownNone(names[..|names| - 1]); }
  }

  lemma {:induction false} KnownOne(names: seq<string>, k: nat, p: Phase)
    requires k < |names| && PhaseOf(names[k]) == Some(p)
    requires forall i :: 0 <= i < |names| && i != k ==> PhaseOf(names[i]) == None
    ensures KnownPhases(names) == [p]
    decreases |names|
  {
    var n := |names| - 1;
    if k == n {
      KnownNone(names[..n]);
    } else {
      KnownOne(names[..n], k, p);
    }
  }

  /** No phase is known from labels without a phase label. */
  lemma OtherIsNone(name: string)
    requires !IsPhaseLabel(Lower(name))
    ensures PhaseOf(name) == None
  {
    if PhaseOf(name).Some? { PhaseOfIs(name, PhaseOf(name).value); }
  }

  /**
   * Whatever was there before, of whatever earlier attempts: a call that returns with no removal reported as failed
   * leaves labels from which exactly the phase set is read, and no phase if the name set is not one of a phase.
   */
  lemma ReadsBack(before: set<string>, phase: string, indicator: string, u: Update, after: set<string>, names: seq<string>)
    requires Changed(before, phase, indicator, true, u, after) && u.failed == {} && Lists(names, after)
    ensures PhaseFromLabels(names) == PhaseNamed(phase)
  {
    var target := PhaseLabel(phase);
    StaleIs(phase, indicator, target);
    assert target in after;
    var k :| 0 <= k < |names| && Lower(names[k]) == target;
    forall i | 0 <= i < |names| && i != k ensures PhaseOf(names[i]) == None {
      StaleIs(phase, indicator, Lower(names[i]));
      assert Lower(names[i]) != target;
      OtherIsNone(names[i]);
    }
    LabelOf(phase);
    if PhaseNamed(phase).Some? {
      PhaseOfIs(names[k], PhaseNamed(phase).value);
      KnownOne(names, k, PhaseNamed(phase).value);
    } else {
      UnknownIsNone(phase, names[k]);
      KnownNone(names);
    }
  }

  lemma UnknownIsNone(phase: string, name: string)
    requires PhaseNamed(phase) == None && Lower(name) == PhaseLabel(phase)
    ensures PhaseOf(name) == None
  {
    forall p: Phase ensures PhaseLabel(phase) != PhaseLabel(PhaseName(p)) {
      LabelOf(phase);
      LabelOf(PhaseName(p));
    }
    OtherIsNone(name);
  }

  predicate Reads(name: string) {
    PhaseOf(name).Some?
  }

  lemma KnownLast(names: seq<string>)
    requires names != []
    ensures |KnownPhases(names)| == |KnownPhases(names[..|names| - 1])| + if Reads(names[|names| - 1]) then 1 else 0
  {
  }

  /** Each label that reads as a phase counts. */
  lemma {:induction false} KnownSome(names: seq<string>, k: nat)
    requires k < |names| && Reads(names[k])
    ensures 1 <= |KnownPhases(names)|
    decreases |names|
  {
    KnownLast(names);
    if k < |names| - 1 { KnownSome(names[..|names| - 1], k); }
  }

  lemma {:induction false} KnownTwo(names: seq<string>, i: nat, k: nat)
    requires i < k < |names| && Reads(names[i]) && Reads(names[k])
    ensures 2 <= |KnownPhases(names)|
    decreases |names|
  {
    KnownLast(names);
    if k < |names| - 1 { KnownTwo(names[..|names| - 1], i, k); } else { KnownSome(names[..|names| - 1], i); }
  }

  /** The one label that reads as a phase stands at `k`, and it reads as `p`. */
  predicate OnlyPhase(names: seq<string>, k: int, p: Phase) {
    && 0 <= k < |names| && Lower(names[k]) == PhaseLabel(PhaseName(p))
    && forall i :: 0 <= i < |names| && i != k ==> !IsPhaseLabel(Lower(names[i]))
  }

  lemma ReadsIff(name: string)
    ensures PhaseOf(name).Some? <==> IsPhaseLabel(Lower(name))
  {
    if IsPhaseLabel(Lower(name)) {
      var p: Phase :| Lower(name) == PhaseLabel(PhaseName(p));
      PhaseOfIs(name, p);
    } else {
      OtherIsNone(name);
    }
  }

  /** The phase read from a list of labels is that of its only phase label; two such labels, even alike, tell none. */
  lemma PhaseReadIff(names: seq<string>, p: Phase)
    ensures PhaseFromLabels(names) == Some(p) <==> exists k :: OnlyPhase(names, k, p)
  {
    forall i | 0 <= i < |names| ensures PhaseOf(names[i]).Some? <==> IsPhaseLabel(Lower(names[i])) { ReadsIff(names[i]); }
    if k :| OnlyPhase(names, k, p) {
      PhaseOfIs(names[k], p);
      KnownOne(names, k, p);
    } else if PhaseFromLabels(names) == Some(p) {
      var k := PhaseAt(names, p);
      PhaseOfIs(names[k], p);
      assert OnlyPhase(names, k, p);
    }
  }

  lemma PhaseAt(names: seq<string>, p: Phase) returns (k: nat)
    requires PhaseFromLabels(names) == Some(p)
    ensures k < |names| && PhaseOf(names[k]) == Some(p)
    ensures forall i :: 0 <= i < |names| && i != k ==> PhaseOf(names[i]) == None
  {
    if forall i :: 0 <= i < |names| ==> PhaseOf(names[i]) == None {
      KnownNone(names);
    } else {
      k :| k < |names| && PhaseOf(names[k]).Some?;
      forall i | 0 <= i < |names| && i != k ensures PhaseOf(names[i]) == None {
        if Reads(names[i]) { KnownTwo(names, if i < k then i else k, if i < k then k else i); }
      }
      KnownOne(names, k, PhaseOf(names[k]).value);
    }
  }
}
