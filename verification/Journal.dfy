/** Question identifiers and the decisions in force. */
module Journal {
  import opened Chars
  import opened Records
  import opened Texts

  // ---------------------------------------------------------------------------------------------
  // Identifiers

  function Max(a: nat, b: nat): nat {
    if a < b then b else a
  }

  /** The largest number taken by a question of this kind; zero when there is none. */
  function MaxUsed(ds: seq<Decision>, kind: string): nat {
    if ds == [] then 0
    else
      var d, before := ds[|ds| - 1], MaxUsed(ds[..|ds| - 1], kind);
      if d.kind == kind && TrailingNumber(d.questionId).Some? then Max(before, TrailingNumber(d.questionId).value)
      else before
  }

  function NextId(ds: seq<Decision>, kind: string): string {
    MakeId(kind, MaxUsed(ds, kind) + 1)
  }

  method NextQuestionId(ds: seq<Decision>, kind: string) returns (id: string)
    ensures id == NextId(ds, kind)
    ensures Taken(ds, id) <==> exists k :: 0 <= k < |ds| && Foreign(ds[k], kind, MaxUsed(ds, kind) + 1)
  {
    var maxUsed := 0;
    for i := 0 to |ds|
      invariant maxUsed == MaxUsed(ds[..i], kind)
    {
      assert ds[..i + 1][..i] == ds[..i];
      if ds[i].kind == kind {
        var n := TrailingNumber(ds[i].questionId);
        if n.Some? { maxUsed := Max(maxUsed, n.value); }
      }
    }
    assert ds[..|ds|] == ds;
    id := MakeId(kind, maxUsed + 1);
    NextIdTakenIff(ds, kind);
  }

  /** The identifier has the form the code gives to questions of this kind. */
  ghost predicate IdOf(id: string, kind: string) {
    exists n: nat :: id == MakeId(kind, n)
  }

  lemma {:induction false} MaxUsedBounds(ds: seq<Decision>, kind: string, d: Decision)
    requires d in ds && d.kind == kind && TrailingNumber(d.questionId).Some?
    ensures TrailingNumber(d.questionId).value <= MaxUsed(ds, kind)
    decreases |ds|
  {
    var n := |ds| - 1;
    assert ds == ds[..n] + [ds[n]];
    if d != ds[n] { MaxUsedBounds(ds[..n], kind, d); }
  }

  /** The next identifier is taken by no entry of the journal. */
  lemma NextIdFresh(ds: seq<Decision>, kind: string)
    requires forall d :: d in ds ==> d.kind == kind || IdOf(d.questionId, d.kind)
    ensures forall d :: d in ds ==> d.questionId != NextId(ds, kind)
  {
    var n := MaxUsed(ds, kind) + 1;
    TrailingNumberOfId(kind, n);
    forall d | d in ds ensures d.questionId != MakeId(kind, n) {
      if d.kind == kind {
        if TrailingNumber(d.questionId).Some? { MaxUsedBounds(ds, kind, d); }
      } else {
        var m: nat :| d.questionId == MakeId(d.kind, m);
        if MakeId(d.kind, m) == MakeId(kind, n) { MakeIdInjective(d.kind, m, kind, n); }
      }
    }
  }

  /** A journal in which the next identifier clashes with that of an entry of another kind. */
  lemma NextIdCanClash()
    ensures var d := Decision("a-1", "b", "", "", ""); NextId([d], "a") == d.questionId
  {
    var ds := [Decision("a-1", "b", "", "", "")];
    assert MaxUsed(ds[..0], "a") == 0;
    assert MaxUsed(ds, "a") == 0;
    assert Decimal(1) == "1";
  }

  ghost predicate Taken(ds: seq<Decision>, id: string) {
    exists k :: 0 <= k < |ds| && ds[k].questionId == id
  }

  /** An entry of another kind under the `n`th identifier of this kind. */
  predicate Foreign(d: Decision, kind: string, n: nat) {
    d.kind != kind && d.questionId == MakeId(kind, n)
  }

  lemma TakenIsForeign(ds: seq<Decision>, kind: string, k: nat)
    requires k < |ds| && ds[k].questionId == NextId(ds, kind)
    ensures Foreign(ds[k], kind, MaxUsed(ds, kind) + 1)
  {
    TrailingNumberOfId(kind, MaxUsed(ds, kind) + 1);
    if ds[k].kind == kind { MaxUsedBounds(ds, kind, ds[k]); }
  }

  /** The next identifier is taken if and only if an entry of another kind stands under it. */
  lemma NextIdTakenIff(ds: seq<Decision>, kind: string)
    ensures Taken(ds, NextId(ds, kind)) <==> exists k :: 0 <= k < |ds| && Foreign(ds[k], kind, MaxUsed(ds, kind) + 1)
  {
    if Taken(ds, NextId(ds, kind)) {
      var k :| 0 <= k < |ds| && ds[k].questionId == NextId(ds, kind);
      TakenIsForeign(ds, kind, k);
    }
  }

  ghost predicate NoForeign(ds: seq<Decision>, kind: string, n: nat) {
    forall k :: 0 <= k < |ds| ==> !Foreign(ds[k], kind, n)
  }

  lemma NotTaken(ds: seq<Decision>, kind: string, n: nat)
    requires NoForeign(ds, kind, n) && n == MaxUsed(ds, kind) + 1
    ensures !Taken(ds, NextId(ds, kind))
  {
    NextIdTakenIff(ds, kind);
  }

  /** Decisions added one after another, each under the identifier the code gives it. */
  ghost predicate Generated(ds: seq<Decision>, more: seq<Decision>) {
    forall k :: 0 <= k < |more| ==> more[k].questionId == NextId(ds + more[..k], more[k].kind)
  }

  /** However the journal goes on, the identifier of the next question of this kind is new. */
  ghost predicate NewForever(ds: seq<Decision>, kind: string) {
    forall more :: Generated(ds, more) ==> !Taken(ds + more, NextId(ds + more, kind))
  }

  /** No entry of another kind stands under an identifier of this kind that is still to come. */
  ghost predicate NoneAhead(ds: seq<Decision>, kind: string) {
    forall k, n: nat :: 0 <= k < |ds| && MaxUsed(ds, kind) < n ==> !Foreign(ds[k], kind, n)
  }

  lemma MaxUsedAdd(ds: seq<Decision>, d: Decision, kind: string)
    ensures MaxUsed(ds, kind) <= MaxUsed(ds + [d], kind)
    ensures d.kind == kind && d.questionId == NextId(ds, kind) ==> MaxUsed(ds + [d], kind) == MaxUsed(ds, kind) + 1
  {
    assert (ds + [d])[..|ds|] == ds;
    TrailingNumberOfId(kind, MaxUsed(ds, kind) + 1);
  }

  lemma {:induction false} MaxUsedGrows(ds: seq<Decision>, more: seq<Decision>, kind: string)
    ensures MaxUsed(ds, kind) <= MaxUsed(ds + more, kind)
    decreases |more|
  {
    if more == [] {
      assert ds + more == ds;
    } else {
      var n := |more| - 1;
      MaxUsedGrows(ds, more[..n], kind);
      MaxUsedAdd(ds + more[..n], more[n], kind);
      assert ds + more == ds + more[..n] + [more[n]];
    }
  }

  /** What the code itself added never stands in the way of another kind. */
  lemma GeneratedIsOwn(ds: seq<Decision>, more: seq<Decision>, k: nat, kind: string, n: nat)
    requires Generated(ds, more) && k < |more|
    ensures !Foreign(more[k], kind, n)
  {
    var used := MaxUsed(ds + more[..k], more[k].kind) + 1;
    if Foreign(more[k], kind, n) { MakeIdInjective(more[k].kind, used, kind, n); }
  }

  lemma OldIsNotAhead(ds: seq<Decision>, k: nat, kind: string, n: nat)
    requires NoneAhead(ds, kind) && MaxUsed(ds, kind) < n && k < |ds|
    ensures !Foreign(ds[k], kind, n)
  {
  }

  lemma StillNone(ds: seq<Decision>, more: seq<Decision>, all: seq<Decision>, kind: string, n: nat)
    requires NoneAhead(ds, kind) && Generated(ds, more) && MaxUsed(ds, kind) < n && all == ds + more
    ensures NoForeign(all, kind, n)
  {
    forall k | 0 <= k < |all| ensures !Foreign(all[k], kind, n) {
      if k < |ds| { OldIsNotAhead(ds, k, kind, n); } else { GeneratedIsOwn(ds, more, k - |ds|, kind, n); }
    }
  }

  lemma NoneAheadIsNew(ds: seq<Decision>, kind: string, more: seq<Decision>)
    requires NoneAhead(ds, kind) && Generated(ds, more)
    ensures !Taken(ds + more, NextId(ds + more, kind))
  {
    var all := ds + more;
    var n := MaxUsed(all, kind) + 1;
    MaxUsedGrows(ds, more, kind);
    StillNone(ds, more, all, kind, n);
    NotTaken(all, kind, n);
  }

  /** An entry of another kind under an identifier still to come is met in the end. */
  lemma AheadIsMet(ds: seq<Decision>, kind: string, k: nat, n: nat) returns (more: seq<Decision>)
    requires k < |ds| && MaxUsed(ds, kind) < n && Foreign(ds[k], kind, n)
    ensures Generated(ds, more) && Taken(ds + more, NextId(ds + more, kind))
  {
    more := Reaches(ds, kind, n - 1);
    StandsUnder(ds, more, k, MakeId(kind, n));
  }

  lemma StandsUnder(ds: seq<Decision>, more: seq<Decision>, k: nat, id: string)
    requires k < |ds| && ds[k].questionId == id
    ensures Taken(ds + more, id)
  {
    assert (ds + more)[k] == ds[k];
  }

  lemma OneMore(ds: seq<Decision>, before: seq<Decision>, d: Decision)
    requires Generated(ds, before) && d.questionId == NextId(ds + before, d.kind)
    ensures Generated(ds, before + [d]) && ds + (before + [d]) == (ds + before) + [d]
  {
    var more := before + [d];
    forall k | 0 <= k < |more| ensures more[k].questionId == NextId(ds + more[..k], more[k].kind) {
      if k < |before| { assert more[..k] == before[..k]; } else { assert more[..k] == before; }
    }
  }

  /** Questions of one kind, decided one after another until the largest number is `n`. */
  lemma {:induction false} Reaches(ds: seq<Decision>, kind: string, n: nat) returns (more: seq<Decision>)
    requires MaxUsed(ds, kind) <= n
    ensures Generated(ds, more) && MaxUsed(ds + more, kind) == n
    decreases n
  {
    if MaxUsed(ds, kind) == n {
      more := [];
      assert ds + more == ds;
    } else {
      var before := Reaches(ds, kind, n - 1);
      var d := Decision(NextId(ds + before, kind), kind, "", "", "");
      MaxUsedAdd(ds + before, d, kind);
      more := before + [d];
      OneMore(ds, before, d);
    }
  }

  /**
   * The identifiers of a kind stay new however the journal goes on if and only if no entry of another kind stands
   * under an identifier of this kind above the largest number taken.
   */
  lemma NewForeverIff(ds: seq<Decision>, kind: string)
    ensures NewForever(ds, kind) <==> NoneAhead(ds, kind)
  {
    if NoneAhead(ds, kind) {
      forall more | Generated(ds, more) ensures !Taken(ds + more, NextId(ds + more, kind)) {
        NoneAheadIsNew(ds, kind, more);
      }
    } else {
      var k, n: nat :| 0 <= k < |ds| && MaxUsed(ds, kind) < n && Foreign(ds[k], kind, n);
      var more := AheadIsMet(ds, kind, k, n);
    }
  }

  // ---------------------------------------------------------------------------------------------
  // Decisions in force

  /** The last place of an identifier among the decisions, or -1. */
  function LastIndex(ds: seq<Decision>, id: string): (k: int)
    ensures -1 <= k < |ds|
    ensures 0 <= k ==> ds[k].questionId == id
    ensures forall j :: k < j < |ds| ==> ds[j].questionId != id
  {
    if ds == [] then -1
    else if ds[|ds| - 1].questionId == id then |ds| - 1
    else LastIndex(ds[..|ds| - 1], id)
  }

  predicate Supersedes(ds: seq<Decision>, i: int, k: int)
    requires 0 <= i < |ds|
  {
    ds[i].supersedes != "" && k < i && LastIndex(ds, ds[i].supersedes) == k
  }

  predicate Superseded(ds: seq<Decision>, k: int) {
    exists i :: 0 <= i < |ds| && Supersedes(ds, i, k)
  }

  /** The first `n` decisions without the superseded ones. */
  function InForce(ds: seq<Decision>, n: nat): seq<Decision>
    requires n <= |ds|
  {
    if n == 0 then []
    else InForce(ds, n - 1) + if Superseded(ds, n - 1) then [] else [ds[n - 1]]
  }

  function EffectiveOf(ds: seq<Decision>): seq<Decision> {
    InForce(ds, |ds|)
  }

  method IndexById(ds: seq<Decision>) returns (index: map<string, int>)
    ensures forall id :: id in index <==> LastIndex(ds, id) != -1
    ensures forall id :: id in index ==> index[id] == LastIndex(ds, id)
  {
    index := map[];
    for i := 0 to |ds|
      invariant forall id :: id in index <==> LastIndex(ds[..i], id) != -1
      invariant forall id :: id in index ==> index[id] == LastIndex(ds[..i], id)
    {
      assert ds[..i + 1][..i] == ds[..i];
      index := index[ds[i].questionId := i];
    }
    assert ds[..|ds|] == ds;
  }

  method SupersededIndices(ds: seq<Decision>) returns (superseded: set<int>)
    ensures forall k :: 0 <= k ==> (k in superseded <==> Superseded(ds, k))
  {
    var index := IndexById(ds);
    superseded := {};
    for i := 0 to |ds|
      invariant forall k :: k in superseded <==> 0 <= k && exists j :: 0 <= j < i && Supersedes(ds, j, k)
    {
      if ds[i].supersedes != "" && ds[i].supersedes in index && index[ds[i].supersedes] < i {
        assert Supersedes(ds, i, index[ds[i].supersedes]);
        superseded := superseded + {index[ds[i].supersedes]};
      }
    }
  }

  method Effective(ds: seq<Decision>) returns (r: seq<Decision>)
    ensures r == EffectiveOf(ds)
  {
    var superseded := SupersededIndices(ds);
    r := [];
    for i := 0 to |ds|
      invariant r == InForce(ds, i)
    {
      if i !in superseded { r := r + [ds[i]]; }
    }
  }

  /** `r` is obtained from `ds` by leaving entries out. */
  ghost predicate Subsequence(r: seq<Decision>, ds: seq<Decision>) {
    r == [] || (ds != [] &&
      ((r[|r| - 1] == ds[|ds| - 1] && Subsequence(r[..|r| - 1], ds[..|ds| - 1])) || Subsequence(r, ds[..|ds| - 1])))
  }

  lemma {:induction false} InForceIsSubsequence(ds: seq<Decision>, n: nat)
    requires n <= |ds|
    ensures Subsequence(InForce(ds, n), ds[..n])
  {
    if n != 0 {
      InForceIsSubsequence(ds, n - 1);
      assert ds[..n][..n - 1] == ds[..n - 1];
      assert InForce(ds, n - 1) + [] == InForce(ds, n - 1);
    }
  }

  /** Whatever the references, decisions in force are a subsequence of the journal and the last entry is among them. */
  lemma EffectiveKeepsLast(ds: seq<Decision>)
    ensures Subsequence(EffectiveOf(ds), ds)
    ensures ds != [] ==> EffectiveOf(ds) != [] && EffectiveOf(ds)[|EffectiveOf(ds)| - 1] == ds[|ds| - 1]
  {
    InForceIsSubsequence(ds, |ds|);
    assert ds[..|ds|] == ds;
    assert ds != [] ==> !Superseded(ds, |ds| - 1);
  }

  ghost predicate DistinctIds(ds: seq<Decision>) {
    forall i, j :: 0 <= i < j < |ds| ==> ds[i].questionId != ds[j].questionId
  }

  /** The decisions without those that carry an identifier; an empty identifier names none. */
  function Dropping(ds: seq<Decision>, id: string): seq<Decision> {
    if ds == [] then []
    else
      var before, last := Dropping(ds[..|ds| - 1], id), ds[|ds| - 1];
      if id != "" && last.questionId == id then before else before + [last]
  }

  lemma LastIndexOf(ds: seq<Decision>, k: int)
    requires DistinctIds(ds) && 0 <= k < |ds|
    ensures LastIndex(ds, ds[k].questionId) == k
  {
  }

  lemma SupersededAfter(j: seq<Decision>, d: Decision, k: int)
    requires DistinctIds(j + [d]) && 0 <= k < |j|
    ensures Superseded(j + [d], k) <==> Superseded(j, k) || (d.supersedes != "" && j[k].questionId == d.supersedes)
  {
    var ds := j + [d];
    LastIndexOf(ds, k);
    assert DistinctIds(j) by { forall a, b | 0 <= a < b < |j| ensures j[a].questionId != j[b].questionId { assert ds[a] == j[a] && ds[b] == j[b]; } }
    LastIndexOf(j, k);
    assert ds[k] == j[k];
    forall i | 0 <= i < |j| ensures Supersedes(ds, i, k) <==> Supersedes(j, i, k) {
      assert ds[i] == j[i];
    }
    if Superseded(j, k) {
      var i :| 0 <= i < |j| && Supersedes(j, i, k);
      assert Supersedes(ds, i, k);
    }
    if d.supersedes != "" && j[k].questionId == d.supersedes {
      assert Supersedes(ds, |j|, k);
    }
    if Superseded(ds, k) {
      var i :| 0 <= i < |ds| && Supersedes(ds, i, k);
      if i < |j| { assert Supersedes(j, i, k); }
    }
  }

  lemma DroppingLast(ds: seq<Decision>, d: Decision, id: string)
    ensures Dropping(ds + [d], id) ==
      if id != "" && d.questionId == id then Dropping(ds, id) else Dropping(ds, id) + [d]
  {
    assert (ds + [d])[..|ds|] == ds;
  }

  lemma InForceNext(j: seq<Decision>, d: Decision, n: nat, before: seq<Decision>, gone: bool)
    requires 0 < n <= |j| && before == InForce(j, n - 1) && gone == Superseded(j, n - 1)
    requires InForce(j + [d], n - 1) == Dropping(before, d.supersedes)
    requires Superseded(j + [d], n - 1) <==> gone || (d.supersedes != "" && j[n - 1].questionId == d.supersedes)
    ensures InForce(j + [d], n) == Dropping(InForce(j, n), d.supersedes)
  {
    InForceStep(j, n);
    InForceBefore(j, d, n);
    DroppingStep(before, j[n - 1], d.supersedes, gone);
  }

  lemma {:induction false} InForceAfter(j: seq<Decision>, d: Decision, n: nat)
    requires DistinctIds(j + [d]) && n <= |j|
    ensures InForce(j + [d], n) == Dropping(InForce(j, n), d.supersedes)
  {
    if n != 0 {
      InForceAfter(j, d, n - 1);
      SupersededAfter(j, d, n - 1);
      InForceNext(j, d, n, InForce(j, n - 1), Superseded(j, n - 1));
    }
  }

  /** Leaving an entry out because it was superseded, or because it is now. */
  lemma DroppingStep(before: seq<Decision>, e: Decision, id: string, gone: bool)
    ensures Dropping(if gone then before else before + [e], id) ==
      if gone || (id != "" && e.questionId == id) then Dropping(before, id) else Dropping(before, id) + [e]
  {
    DroppingLast(before, e, id);
  }

  lemma InForceStep(ds: seq<Decision>, n: nat)
    requires 0 < n <= |ds|
    ensures InForce(ds, n) == if Superseded(ds, n - 1) then InForce(ds, n - 1) else InForce(ds, n - 1) + [ds[n - 1]]
  {
    assert InForce(ds, n - 1) + [] == InForce(ds, n - 1);
  }

  lemma InForceBefore(j: seq<Decision>, d: Decision, n: nat)
    requires 0 < n <= |j|
    ensures var before := InForce(j + [d], n - 1);
      InForce(j + [d], n) == if Superseded(j + [d], n - 1) then before else before + [j[n - 1]]
  {
    InForceStep(j + [d], n);
  }

  /** With distinct identifiers, a new decision takes the one it supersedes out of force, changes no other and is in force itself. */
  lemma EffectiveAfter(j: seq<Decision>, d: Decision)
    requires DistinctIds(j + [d])
    ensures EffectiveOf(j + [d]) == Dropping(EffectiveOf(j), d.supersedes) + [d]
  {
    InForceAfter(j, d, |j|);
    EffectiveKeepsLast(j + [d]);
    assert !Superseded(j + [d], |j|);
  }

  // ---------------------------------------------------------------------------------------------
  // Several decisions added at once

  /** The decisions without those that carry any of these identifiers. */
  function DroppingAll(ds: seq<Decision>, ids: seq<string>): seq<Decision> {
    if ids == [] then ds else Dropping(DroppingAll(ds, ids[..|ids| - 1]), ids[|ids| - 1])
  }

  /** The last entry set apart. */
  lemma LastApart(a: seq<Decision>, b: seq<Decision>)
    requires b != []
    ensures var n := |b| - 1; a + b == (a + b[..n]) + [b[n]] && b == b[..n] + [b[n]]
  {
  }

  lemma {:induction false} DroppingJoin(a: seq<Decision>, b: seq<Decision>, id: string)
    ensures Dropping(a + b, id) == Dropping(a, id) + Dropping(b, id)
    decreases |b|
  {
    if b == [] {
      assert a + b == a;
    } else {
      var n := |b| - 1;
      DroppingJoin(a, b[..n], id);
      DroppingLast(a + b[..n], b[n], id);
      DroppingLast(b[..n], b[n], id);
      LastApart(a, b);
      Associate(Dropping(a, id), Dropping(b[..n], id), [b[n]]);
    }
  }

  lemma {:induction false} DroppingNone(ds: seq<Decision>, id: string)
    requires id != "" ==> !Taken(ds, id)
    ensures Dropping(ds, id) == ds
    decreases |ds|
  {
    if ds != [] {
      var n := |ds| - 1;
      if id != "" {
        assert ds[n].questionId != id;
        forall k | 0 <= k < n ensures ds[..n][k].questionId != id { assert ds[k].questionId != id; }
      }
      DroppingNone(ds[..n], id);
      assert ds == ds[..n] + [ds[n]];
    }
  }

  function SupersededIds(added: seq<Decision>): seq<string> {
    seq(|added|, k requires 0 <= k < |added| => added[k].supersedes)
  }

  /** An identifier of the journal is not that of a decision added later. */
  lemma TakenBefore(j: seq<Decision>, added: seq<Decision>, id: string)
    requires DistinctIds(j + added) && Taken(j, id)
    ensures !Taken(added, id)
  {
    var i :| 0 <= i < |j| && j[i].questionId == id;
    forall k | 0 <= k < |added| ensures added[k].questionId != id {
      assert (j + added)[i] == j[i] && (j + added)[|j| + k] == added[k];
    }
  }

  lemma DistinctPrefix(j: seq<Decision>, d: Decision)
    requires DistinctIds(j + [d])
    ensures DistinctIds(j)
  {
    forall a, b | 0 <= a < b < |j| ensures j[a].questionId != j[b].questionId {
      assert (j + [d])[a] == j[a] && (j + [d])[b] == j[b];
    }
  }

  lemma DropsLast(ds: seq<Decision>, before: seq<Decision>, d: Decision)
    ensures DroppingAll(ds, SupersededIds(before + [d])) == Dropping(DroppingAll(ds, SupersededIds(before)), d.supersedes)
  {
    var ids := SupersededIds(before + [d]);
    assert ids[..|before|] == SupersededIds(before) && ids[|before|] == d.supersedes;
  }

  /** One decision more, whose reference, if any, is older than all that were added with it. */
  lemma EffectiveLast(j: seq<Decision>, before: seq<Decision>, d: Decision)
    requires DistinctIds((j + before) + [d]) && (d.supersedes == "" || Taken(j, d.supersedes))
    requires EffectiveOf(j + before) == DroppingAll(EffectiveOf(j), SupersededIds(before)) + before
    ensures EffectiveOf((j + before) + [d]) == DroppingAll(EffectiveOf(j), SupersededIds(before + [d])) + (before + [d])
  {
    var most := DroppingAll(EffectiveOf(j), SupersededIds(before));
    DistinctPrefix(j + before, d);
    EffectiveAfter(j + before, d);
    DropsLast(EffectiveOf(j), before, d);
    DroppingJoin(most, before, d.supersedes);
    if d.supersedes != "" { TakenBefore(j, before, d.supersedes); }
    DroppingNone(before, d.supersedes);
    Associate(Dropping(most, d.supersedes), before, [d]);
  }

  /**
   * Decisions added together, each superseding none or an entry that was there before, take exactly those entries out
   * of force, and are all in force themselves, in order.
   */
  lemma {:induction false} EffectiveGrows(j: seq<Decision>, added: seq<Decision>)
    requires DistinctIds(j + added)
    requires forall k :: 0 <= k < |added| ==> added[k].supersedes == "" || Taken(j, added[k].supersedes)
    ensures EffectiveOf(j + added) == DroppingAll(EffectiveOf(j), SupersededIds(added)) + added
    decreases |added|
  {
    if added == [] {
      assert j + added == j && EffectiveOf(j) + [] == EffectiveOf(j);
    } else {
      var n := |added| - 1;
      var before, d := added[..n], added[n];
      LastApart(j, added);
      DistinctPrefix(j + before, d);
      EffectiveGrows(j, before);
      EffectiveLast(j, before, d);
    }
  }
}
