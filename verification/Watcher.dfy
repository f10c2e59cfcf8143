/** The window that keeps a stuck workflow from being reported over and over: a queue of identifiers and their set. */
module ReportWindow {
  import opened Texts

  const MAX_SEEN: nat := 512

  // ---------------------------------------------------------------------------------------------
  // What is to be reported

  /** The end of a log that the window can hold. */
  function Latest(log: seq<string>): seq<string> {
    if |log| <= MAX_SEEN then log else log[|log| - MAX_SEEN..]
  }

  /** A run is passed over when it is among the latest ones reported; what has no identifier never is. */
  predicate PassedOver(log: seq<string>, runId: Option<string>) {
    runId.Some? && runId.value in Latest(log)
  }

  /** The identifiers reported, in order, over a series of calls. */
  function Told(calls: seq<Option<string>>): seq<string> {
    if calls == [] then []
    else
      var log, runId := Told(calls[..|calls| - 1]), calls[|calls| - 1];
      if runId.None? || PassedOver(log, runId) then log else log + [runId.value]
  }

  lemma ToldNext(calls: seq<Option<string>>, runId: Option<string>)
    ensures Told(calls + [runId]) ==
      if runId.None? || PassedOver(Told(calls), runId) then Told(calls) else Told(calls) + [runId.value]
  {
    assert (calls + [runId])[..|calls|] == calls;
  }

  /** Equal entries are far apart. */
  ghost predicate Spaced(log: seq<string>) {
    forall i, j :: 0 <= i < j < |log| && log[i] == log[j] ==> MAX_SEEN < j - i
  }

  lemma {:induction false} ToldIsSpaced(calls: seq<Option<string>>)
    ensures Spaced(Told(calls))
    decreases |calls|
  {
    if calls != [] {
      var log, runId := Told(calls[..|calls| - 1]), calls[|calls| - 1];
      ToldIsSpaced(calls[..|calls| - 1]);
      if runId.Some? && !PassedOver(log, runId) {
        forall i | 0 <= i < |log| && |log| - i <= MAX_SEEN ensures log[i] != runId.value {
          assert log[i] == Latest(log)[i - |log| + |Latest(log)|];
        }
      }
    }
  }

  /** Between two reports of one run, at least 512 other runs were reported, all different. */
  lemma ReportedAgain(calls: seq<Option<string>>, i: nat, j: nat)
    requires i < j < |Told(calls)| && Told(calls)[i] == Told(calls)[j]
    ensures MAX_SEEN < j - i
    ensures Distinct(Told(calls)[i..i + 1 + MAX_SEEN])
  {
    ToldIsSpaced(calls);
    var log := Told(calls);
    var part := log[i..i + 1 + MAX_SEEN];
    forall a, b | 0 <= a < b < |part| ensures part[a] != part[b] {
      assert part[a] == log[i + a] && part[b] == log[i + b];
    }
  }

  ghost predicate Distinct(s: seq<string>) {
    forall a, b :: 0 <= a < b < |s| ==> s[a] != s[b]
  }

  lemma LatestIsDistinct(log: seq<string>)
    requires Spaced(log)
    ensures Distinct(Latest(log)) && |Latest(log)| <= MAX_SEEN
  {
    var from := |log| - |Latest(log)|;
    forall a, b | 0 <= a < b < |Latest(log)| ensures Latest(log)[a] != Latest(log)[b] {
      assert Latest(log)[a] == log[from + a] && Latest(log)[b] == log[from + b];
    }
  }

  // ---------------------------------------------------------------------------------------------
  // The queue and its set

  class Watcher {
    var seen: seq<string>
    var seenSet: set<string>
    ghost var calls: seq<Option<string>>

    /** The queue holds the latest reports, each once, and the set holds the same. */
    ghost predicate Valid()
      reads this
    {
      && seen == Latest(Told(calls))
      && seenSet == (set id | id in seen)
      && Distinct(seen) && |seen| <= MAX_SEEN
    }

    constructor ()
      ensures Valid() && calls == []
    {
      seen, seenSet, calls := [], {}, [];
    }

    method AlreadyReported(runId: Option<string>) returns (already: bool)
      requires Valid()
      modifies this
      ensures Valid() && calls == old(calls) + [runId]
      ensures already <==> PassedOver(Told(old(calls)), runId)
    {
      ghost var log := Told(calls);
      ToldNext(calls, runId);
      ToldIsSpaced(calls + [runId]);
      LatestIsDistinct(Told(calls + [runId]));
      calls := calls + [runId];
      if runId.None? { return false; }
      if runId.value in seenSet { return true; }
      if MAX_SEEN <= |seen| {
        Evicted(log, seen, runId.value);
        seenSet := seenSet - {seen[0]};
        seen := seen[1..];
      }
      seen := seen + [runId.value];
      seenSet := seenSet + {runId.value};
      return false;
    }
  }

  /** With the window full, the oldest report makes room for the new one, and is the only one to go. */
  lemma SlidesBy(log: seq<string>, seen: seq<string>, runId: string)
    requires seen == Latest(log) && |seen| == MAX_SEEN
    ensures Latest(log + [runId]) == seen[1..] + [runId]
  {
  }

  lemma FirstGone(seen: seq<string>)
    requires seen != [] && Distinct(seen)
    ensures (set id | id in seen) - {seen[0]} == (set id | id in seen[1..])
  {
    assert seen == [seen[0]] + seen[1..];
    assert forall id :: id in seen[1..] ==> id != seen[0];
  }

  lemma Evicted(log: seq<string>, seen: seq<string>, runId: string)
    requires seen == Latest(log) && |seen| == MAX_SEEN && Distinct(seen)
    ensures Latest(log + [runId]) == seen[1..] + [runId]
    ensures (set id | id in seen) - {seen[0]} == (set id | id in seen[1..])
  {
    SlidesBy(log, seen, runId);
    FirstGone(seen);
  }
}
