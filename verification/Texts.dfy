/** Text searching as the program's host language does it, and what it means in terms of positions. */
module Texts {

  datatype Option<+T> = None | Some(value: T)

  /** The exceptions the modelled code raises by itself. */
  datatype Failure =
    | DamagedBlock
    | MarkedContent
    | CorruptedJournal
    | ConflictingQuestion
    | InvalidInterpretation
    | UnknownPhase
    | InvalidTransition

  datatype Result<+T> = Ok(value: T) | Err(error: Failure) {
    predicate IsFailure() { Err? }

    function PropagateFailure<U>(): Result<U>
      requires Err?
    {
      Err(error)
    }

    function Extract(): T
      requires Ok?
    {
      value
    }
  }

  /** The pattern `p` stands in `s` at position `i`. */
  predicate Has(s: string, p: string, i: int) {
    0 <= i && i + |p| <= |s| && s[i..i + |p|] == p
  }

  ghost predicate FreeOf(s: string, p: string) {
    forall i :: !Has(s, p, i)
  }

  ghost predicate Unique(s: string, p: string, i: int) {
    Has(s, p, i) && forall j :: Has(s, p, j) ==> j == i
  }

  /** Where `p` stands in `s`, and where in what follows its first character. */
  lemma InTail(s: string, p: string, i: int)
    requires s != ""
    ensures forall j :: Has(s, p, j) ==> j == 0 || Has(s[1..], p, j - 1)
    ensures Has(s[1..], p, i) ==> Has(s, p, i + 1)
  {
    forall j | Has(s, p, j) && j != 0 ensures Has(s[1..], p, j - 1) {
      assert s[1..][j - 1..j - 1 + |p|] == s[j..j + |p|];
    }
    if Has(s[1..], p, i) { assert s[1..][i..i + |p|] == s[i + 1..i + 1 + |p|]; }
  }

  /** Leftmost position of `p` in `s`, or -1. */
  function First(s: string, p: string): (i: int)
    ensures -1 <= i
    ensures 0 <= i ==> Has(s, p, i)
    ensures forall j :: Has(s, p, j) ==> 0 <= i <= j
  {
    if |s| < |p| then -1
    else if s[..|p|] == p then 0
    else if s == "" then -1
    else
      var i := First(s[1..], p);
      InTail(s, p, i);
      if i < 0 then -1 else i + 1
  }

  /** Number of non-overlapping occurrences, counted from the left. */
  function Count(s: string, p: string): nat
    requires p != ""
    decreases |s|
  {
    var i := First(s, p);
    if i < 0 then 0 else 1 + Count(s[i + |p|..], p)
  }

  /** All non-overlapping occurrences removed, taken from the left. */
  function Remove(s: string, p: string): string
    requires p != ""
    decreases |s|
  {
    var i := First(s, p);
    if i < 0 then s else s[..i] + Remove(s[i + |p|..], p)
  }

  /** A pattern that opens with its only '<', closes with its only '>' and stays on one line. */
  predicate Tag(p: string) {
    && 2 <= |p|
    && p[0] == '<'
    && p[|p| - 1] == '>'
    && (forall k :: 0 < k < |p| ==> p[k] != '<')
    && (forall k :: 0 <= k < |p| - 1 ==> p[k] != '>')
    && (forall k :: 0 <= k < |p| ==> p[k] != '\n')
  }

  /** No tag can lie across the joint of `a` and `b`. */
  predicate Seam(a: string, b: string) {
    || a == "" || b == ""
    || a[|a| - 1] == '\n' || a[|a| - 1] == '>'
    || b[0] == '\n' || b[0] == '<'
  }

  lemma Letters(s: string, p: string, i: int)
    requires Has(s, p, i)
    ensures forall k :: i <= k < i + |p| ==> s[k] == p[k - i]
  {
    forall k | i <= k < i + |p| ensures s[k] == p[k - i] {
      assert s[i..i + |p|][k - i] == s[k];
    }
  }

  lemma HasLeft(a: string, b: string, p: string, i: int)
    requires Has(a, p, i)
    ensures Has(a + b, p, i)
  {
    assert (a + b)[i..i + |p|] == a[i..i + |p|];
  }

  lemma HasRight(a: string, b: string, p: string, i: int)
    requires Has(b, p, i)
    ensures Has(a + b, p, |a| + i)
  {
    assert (a + b)[|a| + i..|a| + i + |p|] == b[i..i + |p|];
  }

  /** A tag that stands in a text joined at a seam stands in one of the two parts. */
  lemma HasParts(a: string, b: string, p: string, i: int)
    requires Tag(p) && Seam(a, b)
    ensures Has(a + b, p, i) <==> Has(a, p, i) || Has(b, p, i - |a|)
  {
    if Has(a, p, i) { HasLeft(a, b, p, i); }
    if Has(b, p, i - |a|) { HasRight(a, b, p, i - |a|); }
    if Has(a + b, p, i) {
      var s := a + b;
      assert a != "" ==> s[|a| - 1] == a[|a| - 1];
      assert b != "" ==> s[|a|] == b[0];
      Letters(s, p, i);
      if i + |p| <= |a| {
        assert a[i..i + |p|] == s[i..i + |p|];
      } else if |a| <= i {
        assert b[i - |a|..i - |a| + |p|] == s[i..i + |p|];
      }
    }
  }

  lemma FreeParts(a: string, b: string, p: string)
    requires Tag(p) && Seam(a, b)
    ensures FreeOf(a + b, p) <==> FreeOf(a, p) && FreeOf(b, p)
  {
    forall i ensures Has(a + b, p, i) <==> Has(a, p, i) || Has(b, p, i - |a|) {
      HasParts(a, b, p, i);
    }
    forall i | Has(b, p, i) ensures !FreeOf(a + b, p) {
      HasRight(a, b, p, i);
    }
  }

  lemma Associate<T>(a: seq<T>, b: seq<T>, c: seq<T>)
    ensures a + (b + c) == (a + b) + c
  {
  }

  /** Two tags that overlap anywhere are the same tag at the same place. */
  lemma TagsApart(s: string, p: string, i: int, q: string, j: int)
    requires Tag(p) && Tag(q) && Has(s, p, i) && Has(s, q, j) && i <= j < i + |p|
    ensures i == j && p == q
  {
    Letters(s, p, i);
    Letters(s, q, j);
    assert s[j] == p[j - i] == q[0];
    assert s[i + |p| - 1] == p[|p| - 1];
    assert s[i + |q| - 1] == q[|q| - 1];
  }

  lemma CountZero(s: string, p: string)
    requires p != ""
    ensures Count(s, p) == 0 <==> FreeOf(s, p)
  {
  }

  /** After the first place where a tag stands, the others are those of the rest. */
  lemma AfterFirst(s: string, p: string, j: int)
    requires Tag(p) && 0 <= First(s, p)
    ensures Has(s, p, j) <==> j == First(s, p) || Has(s[First(s, p) + |p|..], p, j - First(s, p) - |p|)
  {
    AfterPlace(s, p, First(s, p), j);
  }

  lemma AfterPlace(s: string, p: string, f: int, j: int)
    requires Tag(p) && Has(s, p, f) && forall i :: Has(s, p, i) ==> f <= i
    ensures Has(s, p, j) <==> j == f || Has(s[f + |p|..], p, j - f - |p|)
  {
    if Has(s, p, j) && f < j < f + |p| { TagsApart(s, p, f, p, j); }
    HasInRest(s, p, f + |p|, j);
  }

  /** What stands past a place in a text stands in the rest from there. */
  lemma HasInRest(s: string, p: string, from: nat, j: int)
    requires from <= |s|
    ensures Has(s[from..], p, j - from) <==> from <= j && Has(s, p, j)
  {
    var rest := s[from..];
    if from <= j && j + |p| <= |s| {
      var here, there := rest[j - from..j - from + |p|], s[j..j + |p|];
      assert forall k :: 0 <= k < |p| ==> here[k] == there[k];
      assert here == there;
    }
  }

  lemma CountOnce(s: string, p: string)
    requires Tag(p) && 0 <= First(s, p)
    ensures Count(s, p) == 1 <==> FreeOf(s[First(s, p) + |p|..], p)
  {
    var rest := s[First(s, p) + |p|..];
    CountRest(s, p, rest);
    CountZero(rest, p);
  }

  lemma CountRest(s: string, p: string, rest: string)
    requires p != "" && 0 <= First(s, p) && rest == s[First(s, p) + |p|..]
    ensures Count(s, p) == 1 + Count(rest, p)
  {
  }

  lemma OnceIsUnique(s: string, p: string)
    requires Tag(p) && 0 <= First(s, p) && FreeOf(s[First(s, p) + |p|..], p)
    ensures Unique(s, p, First(s, p))
  {
    forall j | Has(s, p, j) ensures j == First(s, p) { AfterFirst(s, p, j); }
  }

  lemma UniqueIsOnce(s: string, p: string, i: int)
    requires Tag(p) && Unique(s, p, i)
    ensures First(s, p) == i && FreeOf(s[i + |p|..], p)
  {
    var rest := s[i + |p|..];
    assert First(s, p) == i;
    forall k ensures !Has(rest, p, k) { AfterFirst(s, p, k + i + |p|); }
  }

  /** Counting a tag gives one exactly when there is one place where it stands. */
  lemma CountOne(s: string, p: string, i: int)
    requires Tag(p)
    ensures Unique(s, p, i) <==> Count(s, p) == 1 && First(s, p) == i
  {
    if 0 <= First(s, p) {
      CountOnce(s, p);
      OnceIff(s, p, i);
    }
  }

  lemma OnceIff(s: string, p: string, i: int)
    requires Tag(p) && 0 <= First(s, p)
    ensures Unique(s, p, i) <==> First(s, p) == i && FreeOf(s[First(s, p) + |p|..], p)
  {
    if Unique(s, p, i) { UniqueIsOnce(s, p, i); }
    if First(s, p) == i && FreeOf(s[i + |p|..], p) { OnceIsUnique(s, p); }
  }

  /** A pattern stands first where its only key part puts it. */
  lemma FirstAt(a: string, p: string, b: string, key: string, offset: nat)
    requires Has(p, key, offset)
    requires forall i :: Has(a + p + b, key, i) ==> i == |a| + offset
    ensures First(a + p + b, p) == |a|
  {
    var s := a + p + b;
    assert s[|a|..|a| + |p|] == p;
    assert Has(s, p, |a|);
    var f := First(s, p);
    assert s[f..f + |p|][offset..offset + |key|] == s[f + offset..f + offset + |key|];
    assert Has(s, key, f + offset);
  }
}
