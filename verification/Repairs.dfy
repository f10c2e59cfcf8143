/** Cutting text out of a body that nobody promised to be in order: when it splices new markers, and when it mends the body. */
module Repairs {
  import opened Blocks
  import opened Frames
  import opened Texts

  /** Joining `a` and `b` makes a `p` that neither part had. */
  ghost predicate Across(a: string, b: string, p: string) {
    exists i :: Has(a + b, p, i) && i < |a| < i + |p|
  }

  ghost predicate Spliced(a: string, b: string, m: Name) {
    Across(a, b, Mark(m, true)) || Across(a, b, Mark(m, false))
  }

  lemma FreeJoin(a: string, b: string, p: string)
    ensures FreeOf(a + b, p) <==> FreeOf(a, p) && FreeOf(b, p) && !Across(a, b, p)
  {
    forall i | Has(a, p, i) ensures Has(a + b, p, i) { HasLeft(a, b, p, i); }
    forall i | Has(b, p, i) ensures Has(a + b, p, |a| + i) { HasRight(a, b, p, i); }
    forall i | Has(a + b, p, i) && !(i < |a| < i + |p|) ensures Has(a, p, i) || Has(b, p, i - |a|) {
      if i + |p| <= |a| {
        assert (a + b)[i..i + |p|] == a[i..i + |p|];
      } else {
        assert (a + b)[i..i + |p|] == b[i - |a|..i - |a| + |p|];
      }
    }
  }

  lemma ClearJoinIff(a: string, b: string, m: Name)
    ensures ClearOf(a + b, m) <==> ClearOf(a, m) && ClearOf(b, m) && !Spliced(a, b, m)
  {
    FreeJoin(a, b, Mark(m, true));
    FreeJoin(a, b, Mark(m, false));
  }

  lemma AcrossWithin(x: string, a: string, b: string, y: string, p: string)
    requires Across(a, b, p)
    ensures Across(x + a, b + y, p)
  {
    var i :| Has(a + b, p, i) && i < |a| < i + |p|;
    HasLeft(a + b, y, p, i);
    HasRight(x, a + b + y, p, i);
    assert (x + a) + (b + y) == x + (a + b + y);
    assert Has((x + a) + (b + y), p, |x| + i);
  }

  /** A marker spliced at a joint is spliced there whatever text stands around the joint. */
  lemma SplicedWithin(x: string, a: string, b: string, y: string, m: Name)
    requires Spliced(a, b, m)
    ensures Spliced(x + a, b + y, m)
  {
    var o: bool :| Across(a, b, Mark(m, o));
    AcrossWithin(x, a, b, y, Mark(m, o));
  }

  lemma UnsplicedBefore(pre: string, m: Name, d: string, mid: string, n: Name, c: string, post: string)
    requires m != n && ClearOf(c, m) && !Spliced(pre + Block(m, d) + mid, post, m)
    requires ClearOf(pre, m) && ClearOf(d, m) && ClearOf(mid + Block(n, c) + post, m)
    ensures Match((pre + Block(m, d) + mid) + post, m) == Present(pre, d, mid + post)
  {
    ClearAround(mid, n, c, post, m);
    assert post + "" == post;
    if Spliced(mid, post, m) { SplicedWithin(pre + Block(m, d), mid, post, "", m); }
    ClearJoinIff(mid, post, m);
    assert (pre + Block(m, d) + mid) + post == pre + Block(m, d) + (mid + post);
    MatchPresent(pre, m, d, mid + post);
  }

  lemma UnsplicedAfter(pre: string, n: Name, c: string, mid: string, m: Name, d: string, post: string)
    requires m != n && ClearOf(c, m) && !Spliced(pre, mid + Block(m, d) + post, m)
    requires ClearOf(pre + Block(n, c) + mid, m) && ClearOf(d, m) && ClearOf(post, m)
    ensures Match(pre + (mid + Block(m, d) + post), m) == Present(pre + mid, d, post)
  {
    ClearAround(pre, n, c, mid, m);
    assert "" + pre == pre && mid + (Block(m, d) + post) == mid + Block(m, d) + post;
    if Spliced(pre, mid, m) { SplicedWithin("", pre, mid, Block(m, d) + post, m); }
    ClearJoinIff(pre, mid, m);
    assert pre + (mid + Block(m, d) + post) == (pre + mid) + Block(m, d) + post;
    MatchPresent(pre + mid, m, d, post);
  }

  /** After a cut that splices nothing, a block that stood on either side is read as before. */
  lemma UnsplicedKeeps(body: string, n: Name, m: Name)
    requires m != n && Match(body, n).Present? && ClearOf(Match(body, n).content, m)
    requires Match(body, m).Present? && ClearOf(Match(body, m).content, n)
    requires !Spliced(Match(body, n).pre, Match(body, n).post, m)
    ensures Read(Strip(body, n).value, m) == Read(body, m)
  {
    var Present(pre, c, post) := Match(body, n);
    var Present(pre', d, post') := Match(body, m);
    MatchShape(body, n);
    MatchShape(body, m);
    var mid, before := Neighbours(body, n, m);
    if before {
      UnsplicedBefore(pre', m, d, mid, n, c, post);
    } else {
      UnsplicedAfter(pre, n, c, mid, m, d, post');
    }
  }

  /** A readable block has one marker of each kind. */
  lemma OneMark(body: string, m: Name, o: bool) returns (i: int)
    requires Match(body, m).Present?
    ensures Unique(body, Mark(m, o), i)
  {
    MarkIsTag(m, o);
    i := First(body, Mark(m, o));
    CountOne(body, Mark(m, o), i);
  }

  lemma AcrossIsSecond(a: string, b: string, p: string, k: int, j: int)
    requires Across(a, b, p) && Has(a + b, p, k) && (k + |p| <= |a| || |a| <= k)
    ensures !Unique(a + b, p, j)
  {
  }

  /** A cut that splices a marker of a readable block leaves it with one marker too many. */
  lemma SplicedTwice(body: string, n: Name, m: Name, o: bool)
    requires m != n && Match(body, n).Present? && ClearOf(Match(body, n).content, m) && Match(body, m).Present?
    requires Across(Match(body, n).pre, Match(body, n).post, Mark(m, o))
    ensures !Match(Match(body, n).pre + Match(body, n).post, m).Present?
  {
    var pre, post := Match(body, n).pre, Match(body, n).post;
    var k := MarkSurvives(body, n, m, o);
    if Match(pre + post, m).Present? {
      var j := OneMark(pre + post, m, o);
      AcrossIsSecond(pre, post, Mark(m, o), k, j);
    }
  }

  /** A cut that splices a marker of another block makes that block unreadable or read differently. */
  lemma SplicedBreaks(body: string, n: Name, m: Name)
    requires m != n && Match(body, n).Present? && ClearOf(Match(body, n).content, m)
    requires Match(body, m) != Damaged
    requires Spliced(Match(body, n).pre, Match(body, n).post, m)
    ensures Read(Strip(body, n).value, m) != Read(body, m)
  {
    var cut := Match(body, n).pre + Match(body, n).post;
    ClearJoinIff(Match(body, n).pre, Match(body, n).post, m);
    MatchAbsent(cut, m);
    var o: bool :| Across(Match(body, n).pre, Match(body, n).post, Mark(m, o));
    if Match(body, m).Present? { SplicedTwice(body, n, m, o); }
  }

  /** A marker of another block is still there, off the joint, once block `n` is cut out. */
  lemma MarkSurvives(body: string, n: Name, m: Name, o: bool) returns (k: int)
    requires m != n && Match(body, n).Present? && ClearOf(Match(body, n).content, m) && Match(body, m).Present?
    ensures Has(Match(body, n).pre + Match(body, n).post, Mark(m, o), k)
    ensures k + |Mark(m, o)| <= |Match(body, n).pre| || |Match(body, n).pre| <= k
  {
    var Present(pre, c, post) := Match(body, n);
    MatchShape(body, n);
    var i := OneMark(body, m, o);
    MarksAround(pre, n, c, post, m, o, i);
    k := EitherSide(pre, post, Mark(m, o), i, i - |Block(n, c)| - |pre|);
  }

  /** What is in one of two texts is in their join, off the joint. */
  lemma EitherSide(pre: string, post: string, p: string, i: int, j: int) returns (k: int)
    requires Has(pre, p, i) || Has(post, p, j)
    ensures Has(pre + post, p, k) && (k + |p| <= |pre| || |pre| <= k)
  {
    if Has(pre, p, i) {
      k := i;
      HasLeft(pre, post, p, i);
    } else {
      k := |pre| + j;
      HasRight(pre, post, p, j);
    }
  }

  // ---------------------------------------------------------------------------------------------
  // Blocks inside one another

  /** Where the markers of a readable block stand. */
  lemma BlockPlaces(pre: string, m: Name, d: string, post: string)
    requires ClearOf(pre, m) && ClearOf(d, m) && ClearOf(post, m)
    ensures FrameAt(pre + Block(m, d) + post, m, |d|, |pre|)
  {
    MarkPair(m);
    FrameTags(pre, Mark(m, true), d, Mark(m, false), post);
  }

  lemma MarkPlaces(body: string, m: Name)
    requires Match(body, m).Present?
    ensures FrameAt(body, m, |Match(body, m).content|, |Match(body, m).pre|)
  {
    var Present(pre, d, post) := Match(body, m);
    MatchShape(body, m);
    BlockPlaces(pre, m, d, post);
  }

  /** What stands in the text after a cut, off the joint, stood in the body. */
  lemma StoodBefore(pre: string, x: string, post: string, p: string, k: int)
    requires Has(pre + post, p, k)
    ensures k + |p| <= |pre| ==> Has(pre + x + post, p, k)
    ensures |pre| <= k ==> Has(pre + x + post, p, k + |x|)
  {
    if k + |p| <= |pre| { assert (pre + x + post)[k..k + |p|] == (pre + post)[k..k + |p|]; }
    if |pre| <= k { assert (pre + x + post)[k + |x|..k + |x| + |p|] == (pre + post)[k..k + |p|]; }
  }

  /** The tags stand once each, as far apart as a frame of this size puts them. */
  ghost predicate TagsAt(s: string, p: string, q: string, size: nat, at: int) {
    Unique(s, p, at) && Unique(s, q, at + |p| + size + 2)
  }

  /** A frame one tag of which stood in the text cut out does not come back at its old size. */
  lemma TagGone(pre: string, x: string, post: string, p: string, q: string, at: int, size: nat)
    requires TagsAt(pre + x + post, p, q, size, at) && p != "" && q != ""
    requires (|pre| <= at && at + |p| <= |pre| + |x|) ||
      (|pre| <= at + |p| + size + 2 && at + |p| + size + 2 + |q| <= |pre| + |x|)
    ensures forall to: int :: !TagsAt(pre + post, p, q, size, to)
  {
    forall to: int ensures !TagsAt(pre + post, p, q, size, to) {
      if Has(pre + post, p, to) { StoodBefore(pre, x, post, p, to); }
      if Has(pre + post, q, to + |p| + size + 2) { StoodBefore(pre, x, post, q, to + |p| + size + 2); }
    }
  }

  /** A frame around the text cut out loses it. */
  lemma FrameShrinks(pre: string, x: string, post: string, p: string, q: string, at: int, size: nat)
    requires x != "" && Has(pre, p, at) && Has(post, q, at + |p| + size + 2 - |pre| - |x|)
    ensures forall to: int :: !TagsAt(pre + post, p, q, size, to)
  {
    HasLeft(pre, post, p, at);
    HasRight(pre, post, q, at + |p| + size + 2 - |pre| - |x|);
  }

  ghost predicate FrameAt(s: string, m: Name, size: nat, at: int) {
    TagsAt(s, Mark(m, true), Mark(m, false), size, at)
  }

  lemma ContentDiffers(s: string, m: Name, d: string)
    requires Match(s, m).Present? && forall at: int :: !FrameAt(s, m, |d|, at)
    ensures Match(s, m).content != d
  {
    MarkPlaces(s, m);
    assert FrameAt(s, m, |Match(s, m).content|, |Match(s, m).pre|);
  }

  /** A block no frame of whose old size is left is not read as before. */
  lemma ReadsOther(body: string, n: Name, m: Name)
    requires Match(body, n).Present? && Match(body, m).Present?
    requires forall at: int :: !FrameAt(Match(body, n).pre + Match(body, n).post, m, |Match(body, m).content|, at)
    ensures Read(Strip(body, n).value, m) != Read(body, m)
  {
    var cut := Match(body, n).pre + Match(body, n).post;
    if Match(cut, m).Present? { ContentDiffers(cut, m, Match(body, m).content); }
  }

  lemma HeldMark(s: string, m: Name) returns (o: bool, j: int)
    requires !ClearOf(s, m)
    ensures Has(s, Mark(m, o), j)
  {
    if !FreeOf(s, Mark(m, true)) {
      o := true;
      j :| Has(s, Mark(m, true), j);
    } else {
      o := false;
      j :| Has(s, Mark(m, false), j);
    }
  }

  /** A marker in the content of a block, as a marker in the body. */
  lemma HeldPlace(pre: string, n: Name, c: string, post: string, m: Name) returns (o: bool, place: int)
    requires m != n && !ClearOf(c, m)
    ensures Has(pre + Block(n, c) + post, Mark(m, o), place)
    ensures |pre| <= place && place + |Mark(m, o)| <= |pre| + |Block(n, c)|
  {
    var j;
    o, j := HeldMark(c, m);
    place := |pre| + |Mark(n, true)| + 1 + j;
    MarksAround(pre, n, c, post, m, o, place);
    assert |Block(n, c)| == |Mark(n, true)| + |c| + |Mark(n, false)| + 2;
  }

  /** A block some marker of which stands in the content of another keeps no frame of its size when that one is cut out. */
  lemma CutOutGone(pre: string, n: Name, c: string, post: string, m: Name, size: nat, at: int)
    requires m != n && !ClearOf(c, m) && FrameAt(pre + Block(n, c) + post, m, size, at)
    ensures forall to: int :: !FrameAt(pre + post, m, size, to)
  {
    var o, place := HeldPlace(pre, n, c, post, m);
    assert place == if o then at else at + |Mark(m, true)| + size + 2;
    TagGone(pre, Block(n, c), post, Mark(m, true), Mark(m, false), at, size);
    forall to: int ensures !FrameAt(pre + post, m, size, to) {
      assert !TagsAt(pre + post, Mark(m, true), Mark(m, false), size, to);
    }
  }

  /** A marker of another block stands before the block or after it, if it does not stand in it. */
  lemma BeforeOrAfter(pre: string, n: Name, c: string, post: string, m: Name, o: bool, i: int)
    requires m != n && ClearOf(c, m) && Has(pre + Block(n, c) + post, Mark(m, o), i)
    ensures Has(pre, Mark(m, o), i) || Has(post, Mark(m, o), i - |pre| - |Block(n, c)|)
  {
    MarksAround(pre, n, c, post, m, o, i);
  }

  /** The markers of a block around another stand before it and after it. */
  lemma MarksApart(pre: string, n: Name, c: string, post: string, m: Name, size: nat, at: int, mark: int)
    requires m != n && ClearOf(c, m) && FrameAt(pre + Block(n, c) + post, m, size, at)
    requires |pre| <= mark < |pre| + |Block(n, c)| && at < mark < at + |Mark(m, true)| + size + 2
    ensures Has(pre, Mark(m, true), at) && Has(post, Mark(m, false), at + |Mark(m, true)| + size + 2 - |pre| - |Block(n, c)|)
  {
    var end := at + |Mark(m, true)| + size + 2;
    BeforeOrAfter(pre, n, c, post, m, true, at);
    BeforeOrAfter(pre, n, c, post, m, false, end);
    PlacesApart(pre, Block(n, c), post, Mark(m, true), Mark(m, false), at, end, mark);
  }

  lemma PlacesApart(pre: string, x: string, post: string, p: string, q: string, at: int, end: int, mark: int)
    requires |pre| <= mark < |pre| + |x| && at < mark < end
    requires Has(pre, p, at) || Has(post, p, at - |pre| - |x|)
    requires Has(pre, q, end) || Has(post, q, end - |pre| - |x|)
    ensures Has(pre, p, at) && Has(post, q, end - |pre| - |x|)
  {
  }

  lemma NoTagsNoFrame(s: string, m: Name, size: nat)
    requires forall to: int :: !TagsAt(s, Mark(m, true), Mark(m, false), size, to)
    ensures forall to: int :: !FrameAt(s, m, size, to)
  {
  }

  /** A block around another keeps no frame of its size when that one is cut out. */
  lemma WrappedGone(pre: string, n: Name, c: string, post: string, m: Name, size: nat, at: int, mark: int)
    requires m != n && ClearOf(c, m) && FrameAt(pre + Block(n, c) + post, m, size, at)
    requires |pre| <= mark < |pre| + |Block(n, c)| && at < mark < at + |Mark(m, true)| + size + 2
    ensures forall to: int :: !FrameAt(pre + post, m, size, to)
  {
    MarksApart(pre, n, c, post, m, size, at, mark);
    FrameShrinks(pre, Block(n, c), post, Mark(m, true), Mark(m, false), at, size);
    NoTagsNoFrame(pre + post, m, size);
  }

  /** A marker of `n` in the content of `m` is one of the two that frame block `n`. */
  lemma WrappedMark(pre: string, n: Name, c: string, post: string, pre': string, m: Name, d: string, post': string) returns (mark: int)
    requires m != n && !ClearOf(d, n) && pre + Block(n, c) + post == pre' + Block(m, d) + post'
    requires FrameAt(pre + Block(n, c) + post, n, |c|, |pre|)
    ensures |pre| <= mark < |pre| + |Block(n, c)| && |pre'| < mark < |pre'| + |Mark(m, true)| + |d| + 2
  {
    var o, k := HeldMark(d, n);
    mark := |pre'| + |Mark(m, true)| + 1 + k;
    MarksAround(pre', m, d, post', n, o, mark);
    MarkIsTag(n, true);
    MarkIsTag(n, false);
    assert |Block(n, c)| == |Mark(n, true)| + |c| + |Mark(n, false)| + 2;
  }

  lemma CutOutBreaks(body: string, n: Name, m: Name)
    requires m != n && Match(body, n).Present? && Match(body, m).Present? && !ClearOf(Match(body, n).content, m)
    ensures Read(Strip(body, n).value, m) != Read(body, m)
  {
    MatchShape(body, n);
    MarkPlaces(body, m);
    CutOutGone(Match(body, n).pre, n, Match(body, n).content, Match(body, n).post, m, |Match(body, m).content|, |Match(body, m).pre|);
    ReadsOther(body, n, m);
  }

  lemma WrappedBreaks(body: string, n: Name, m: Name)
    requires m != n && Match(body, n).Present? && ClearOf(Match(body, n).content, m)
    requires Match(body, m).Present? && !ClearOf(Match(body, m).content, n)
    ensures Read(Strip(body, n).value, m) != Read(body, m)
  {
    var Present(pre, c, post) := Match(body, n);
    var Present(pre', d, post') := Match(body, m);
    MatchShape(body, n);
    MatchShape(body, m);
    MarkPlaces(body, n);
    MarkPlaces(body, m);
    var mark := WrappedMark(pre, n, c, post, pre', m, d, post');
    WrappedGone(pre, n, c, post, m, |d|, |pre'|, mark);
    ReadsOther(body, n, m);
  }

  /** No marker of either block stands in the content of the other. */
  ghost predicate Disjoint(body: string, n: Name, m: Name)
    requires Match(body, n).Present?
  {
    ClearOf(Match(body, n).content, m) && (Match(body, m).Present? ==> ClearOf(Match(body, m).content, n))
  }

  /**
   * Cutting block `n` out of any body keeps the reading of a block `m` that is not damaged if and only if neither
   * stands in the other and the two texts joined by the cut make no marker of `m` across the joint.
   */
  lemma StripKeepsIff(body: string, n: Name, m: Name)
    requires m != n && Match(body, n).Present? && Match(body, m) != Damaged
    ensures Read(Strip(body, n).value, m) == Read(body, m) <==>
      Disjoint(body, n, m) && !Spliced(Match(body, n).pre, Match(body, n).post, m)
  {
    if Match(body, m).Present? {
      StripKeepsPresentIff(body, n, m);
    } else {
      StripKeepsAbsentIff(body, n, m);
    }
  }

  lemma StripKeepsPresentIff(body: string, n: Name, m: Name)
    requires m != n && Match(body, n).Present? && Match(body, m).Present?
    ensures Read(Strip(body, n).value, m) == Read(body, m) <==>
      Disjoint(body, n, m) && !Spliced(Match(body, n).pre, Match(body, n).post, m)
  {
    if !ClearOf(Match(body, n).content, m) {
      CutOutBreaks(body, n, m);
    } else if !ClearOf(Match(body, m).content, n) {
      WrappedBreaks(body, n, m);
    } else if Spliced(Match(body, n).pre, Match(body, n).post, m) {
      SplicedBreaks(body, n, m);
    } else {
      UnsplicedKeeps(body, n, m);
    }
  }

  lemma StripKeepsAbsentIff(body: string, n: Name, m: Name)
    requires m != n && Match(body, n).Present? && Match(body, m).Absent?
    ensures ClearOf(Match(body, n).content, m)
    ensures Read(Strip(body, n).value, m) == Read(body, m) <==> !Spliced(Match(body, n).pre, Match(body, n).post, m)
  {
    var Present(pre, c, post) := Match(body, n);
    MatchShape(body, n);
    MatchAbsent(body, m);
    forall o: bool, j ensures !Has(c, Mark(m, o), j) {
      MarksAround(pre, n, c, post, m, o, |pre| + |Mark(n, true)| + 1 + j);
    }
    ClearAround(pre, n, c, post, m);
    ClearJoinIff(pre, post, m);
    MatchAbsent(pre + post, m);
  }

  /** Two blocks side by side, cut out in either order. */
  lemma PairCommutes(pre: string, m: Name, d: string, mid: string, n: Name, c: string, post: string)
    requires m != n && Match(pre + Block(m, d) + mid + Block(n, c) + post, n) == Present(pre + Block(m, d) + mid, c, post)
    requires Match(pre + Block(m, d) + (mid + Block(n, c) + post), m) == Present(pre, d, mid + Block(n, c) + post)
    requires ClearOf(c, m) && ClearOf(d, n)
    requires !Spliced(pre + Block(m, d) + mid, post, m) && !Spliced(pre, mid + Block(n, c) + post, n)
    ensures Strip((pre + Block(m, d) + mid) + post, m) == Strip(pre + (mid + Block(n, c) + post), n)
  {
    MatchShape(pre + Block(m, d) + mid + Block(n, c) + post, n);
    MatchShape(pre + Block(m, d) + (mid + Block(n, c) + post), m);
    UnsplicedBefore(pre, m, d, mid, n, c, post);
    UnsplicedAfter(pre, m, d, mid, n, c, post);
    Associate(pre, mid, post);
  }

  /** The cut keeps the reading of the other block. */
  ghost predicate CutKeepsReading(body: string, n: Name, m: Name) {
    Match(body, n) != Damaged && Match(body, m) != Damaged && Read(Strip(body, n).value, m) == Read(body, m)
  }

  /** On any body, two blocks neither of whose cuts changes how the other is read can be cut out in either order. */
  lemma CutsCommute(body: string, n: Name, m: Name)
    requires m != n && CutKeepsReading(body, n, m) && CutKeepsReading(body, m, n)
    ensures Strip(Strip(body, n).value, m) == Strip(Strip(body, m).value, n)
  {
    if Match(body, n).Present? && Match(body, m).Present? {
      StripKeepsIff(body, n, m);
      StripKeepsIff(body, m, n);
      BothCommute(body, n, m);
    }
  }

  lemma BothCommute(body: string, n: Name, m: Name)
    requires m != n && Match(body, n).Present? && Match(body, m).Present? && Disjoint(body, n, m)
    requires !Spliced(Match(body, n).pre, Match(body, n).post, m) && !Spliced(Match(body, m).pre, Match(body, m).post, n)
    ensures Strip(Strip(body, n).value, m) == Strip(Strip(body, m).value, n)
  {
    MatchShape(body, n);
    MatchShape(body, m);
    var mid, before := Neighbours(body, n, m);
    if before {
      PairCommutes(Match(body, m).pre, m, Match(body, m).content, mid, n, Match(body, n).content, Match(body, n).post);
    } else {
      PairCommutes(Match(body, n).pre, n, Match(body, n).content, mid, m, Match(body, m).content, Match(body, m).post);
    }
  }

  /** A block inside another goes with it, though no marker is spliced. */
  lemma StripTakesInner(n: Name, m: Name, x: string)
    requires m != n && Unmarked(x)
    ensures var body := Block(n, Block(m, x));
      Read(body, m) == Ok(Some(x)) && Strip(body, n) == Ok("") && Read("", m) == Ok(None)
  {
    var inner := Block(m, x);
    assert ClearOf(x, m) && ClearOf(x, n);
    TooShort("");
    assert "" + inner + "" == inner;
    ClearAround("", m, x, "", n);
    MatchPresent("", n, inner, "");
    assert "" + Block(n, inner) + "" == Block(n, inner);
    assert "" + "" == "";
    InnerFound(n, m, x);
    MatchAbsent("", m);
  }

  lemma InnerFound(n: Name, m: Name, x: string)
    requires m != n && Unmarked(x)
    ensures Match(Block(n, Block(m, x)), m) == Present(Mark(n, true) + "\n", x, "\n" + Mark(n, false))
  {
    var head, tail := Mark(n, true) + "\n", "\n" + Mark(n, false);
    MarkClear(n, true, m);
    MarkClear(n, false, m);
    TooShort("\n");
    MarkIsTag(n, true);
    MarkIsTag(n, false);
    ClearJoin(Mark(n, true), "\n", m);
    ClearJoin("\n", Mark(n, false), m);
    MatchPresent(head, m, x, tail);
  }

  lemma MarkClear(n: Name, o: bool, m: Name)
    requires m != n
    ensures ClearOf(Mark(n, o), m)
  {
    forall i ensures !Has(Mark(n, o), Mark(m, true), i) && !Has(Mark(n, o), Mark(m, false), i) {
      MarkInMark(n, o, m, true, i);
      MarkInMark(n, o, m, false, i);
    }
  }

  lemma TooShort(s: string)
    requires |s| <= 20
    ensures Unmarked(s)
  {
    forall n: Name, o: bool, i ensures !Has(s, Mark(n, o), i) { MarkIsTag(n, o); }
  }

  lemma MarkFromHalves(pre: string, n: Name, c: string, post: string, m: Name)
    requires m != n && pre + post == Mark(m, true) && Unmarked(pre) && Unmarked(c) && Unmarked(post)
    ensures var body := pre + Block(n, c) + post;
      Read(body, m) == Ok(None) && Strip(body, n) == Ok(Mark(m, true)) && Read(Mark(m, true), m) == Err(DamagedBlock)
  {
    assert ClearOf(pre, n) && ClearOf(c, n) && ClearOf(post, n);
    assert ClearOf(pre, m) && ClearOf(post, m);
    MatchPresent(pre, n, c, post);
    ClearAround(pre, n, c, post, m);
    MatchAbsent(pre + Block(n, c) + post, m);
    OneMarkIsDamage(m);
  }

  /** A body in which cutting out the question damages a block that was not there. */
  lemma StripCanSplice()
    ensures var body := "<!-- harness:gro" + Block(Asked, "x") + "w:start -->";
      Read(body, Grow) == Ok(None) && Strip(body, Asked).Ok? &&
      Read(Strip(body, Asked).value, Grow) == Err(DamagedBlock)
  {
    TooShort("<!-- harness:gro");
    TooShort("w:start -->");
    TooShort("x");
    assert "<!-- harness:gro" + "w:start -->" == Mark(Grow, true);
    MarkFromHalves("<!-- harness:gro", Asked, "x", "w:start -->", Grow);
  }

  lemma OneMarkIsDamage(n: Name)
    ensures Match(Mark(n, true), n) == Damaged
  {
    var s := Mark(n, true);
    MarkInMark(n, true, n, true, 0);
    MatchAbsent(s, n);
    if Match(s, n).Present? {
      var i := OneMark(s, n, false);
      MarkInMark(n, true, n, false, i);
    }
  }

  // ---------------------------------------------------------------------------------------------
  // Throwing away whatever is left of a draft

  /** Every `p` in `s` has a line to itself. */
  ghost predicate OwnLines(s: string, p: string) {
    forall i :: Has(s, p, i) ==>
      (i == 0 || s[i - 1] == '\n') && (i + |p| == |s| || s[i + |p|] == '\n')
  }

  /** What stands after an occurrence, with the places counted from there. */
  lemma Rest(s: string, p: string, i: int, q: string, j: int)
    requires Has(s, p, i) && Has(s[i + |p|..], q, j)
    ensures Has(s, q, i + |p| + j)
  {
    assert s == s[..i + |p|] + s[i + |p|..];
    HasRight(s[..i + |p|], s[i + |p|..], q, j);
  }

  lemma OwnLinesRest(s: string, p: string, i: int, q: string)
    requires Tag(p) && Has(s, p, i) && OwnLines(s, q)
    ensures OwnLines(s[i + |p|..], q)
  {
    var rest := s[i + |p|..];
    forall j | Has(rest, q, j)
      ensures (j == 0 || rest[j - 1] == '\n') && (j + |q| == |rest| || rest[j + |q|] == '\n')
    {
      Rest(s, p, i, q, j);
    }
  }

  lemma FreeBefore(s: string, q: string, i: int)
    requires 0 <= i <= |s| && q != "" && forall j :: Has(s, q, j) ==> i <= j
    ensures FreeOf(s[..i], q)
  {
    var a := s[..i];
    assert a + s[i..] == s;
    forall j ensures !Has(a, q, j) {
      if Has(a, q, j) { HasLeft(a, s[i..], q, j); }
    }
  }

  lemma FreeAfter(s: string, p: string, i: int, q: string)
    requires Has(s, p, i) && FreeOf(s, q)
    ensures FreeOf(s[i + |p|..], q)
  {
    var rest := s[i + |p|..];
    forall j ensures !Has(rest, q, j) {
      if Has(rest, q, j) { Rest(s, p, i, q, j); }
    }
  }

  /** After the first of these tags the text is of the same sort, with fewer of them. */
  lemma AfterFirstTag(s: string, p: string, q: string, i: int)
    requires Tag(p) && Tag(q) && OwnLines(s, p) && (q == p || FreeOf(s, q)) && Has(s, p, i)
    ensures OwnLines(s[i + |p|..], p) && (q == p || FreeOf(s[i + |p|..], q))
  {
    OwnLinesRest(s, p, i, p);
    if q != p { FreeAfter(s, p, i, q); }
  }

  /** What stands before a tag on its own line ends a line, so that a free text joins it without making a tag. */
  lemma JoinBeforeTag(s: string, p: string, q: string, i: int, rest: string)
    requires Tag(p) && Tag(q) && OwnLines(s, p) && Has(s, p, i) && FreeOf(rest, q)
    requires forall j :: Has(s, q, j) ==> i <= j
    ensures FreeOf(s[..i] + rest, q)
  {
    FreeBefore(s, q, i);
    FreeParts(s[..i], rest, q);
  }

  lemma TagRemoved(s: string, p: string, q: string, i: int)
    requires Tag(p) && Tag(q) && OwnLines(s, p) && 0 <= i == First(s, p) && forall j :: Has(s, q, j) ==> i <= j
    requires FreeOf(Remove(s[i + |p|..], p), q)
    ensures FreeOf(Remove(s, p), q)
  {
    JoinBeforeTag(s, p, q, i, Remove(s[i + |p|..], p));
  }

  /** Taking out tags that stand on their own lines makes no new tag and leaves none of them. */
  lemma {:induction false} RemoveMakesNone(s: string, p: string, q: string)
    requires Tag(p) && Tag(q) && OwnLines(s, p) && (q == p || FreeOf(s, q))
    ensures FreeOf(Remove(s, p), q)
    decreases |s|
  {
    var i := First(s, p);
    if 0 <= i {
      AfterFirstTag(s, p, q, i);
      RemoveMakesNone(s[i + |p|..], p, q);
      TagRemoved(s, p, q, i);
    }
  }

  /** The place of a `q` in `s` is a line of its own. */
  predicate LineAt(s: string, q: string, k: int)
    requires Has(s, q, k)
  {
    (k == 0 || s[k - 1] == '\n') && (k + |q| == |s| || s[k + |q|] == '\n')
  }

  lemma LineInLeft(a: string, r: string, q: string, s: string, k: int)
    requires a <= s && |a| < |s| && s[|a|] != '\n' && OwnLines(s, q) && Has(a, q, k) && Has(a + r, q, k)
    ensures LineAt(a + r, q, k)
  {
    assert a + s[|a|..] == s;
    HasLeft(a, s[|a|..], q, k);
  }

  lemma LineInRight(a: string, r: string, q: string, k: int)
    requires (a == "" || a[|a| - 1] == '\n') && OwnLines(r, q) && Has(r, q, k - |a|) && Has(a + r, q, k)
    ensures LineAt(a + r, q, k)
  {
  }

  lemma OwnLinesJoin(a: string, r: string, q: string, s: string)
    requires Tag(q) && a <= s && |a| < |s| && s[|a|] != '\n' && (a == "" || a[|a| - 1] == '\n')
    requires OwnLines(s, q) && OwnLines(r, q)
    ensures OwnLines(a + r, q)
  {
    forall k | Has(a + r, q, k) ensures LineAt(a + r, q, k) {
      HasParts(a, r, q, k);
      if Has(a, q, k) { LineInLeft(a, r, q, s, k); } else { LineInRight(a, r, q, k); }
    }
  }

  /** Tags of another kind keep their own lines. */
  lemma OwnLinesRests(s: string, p: string, i: int, q: string)
    requires Tag(p) && Has(s, p, i) && OwnLines(s, p) && OwnLines(s, q)
    ensures OwnLines(s[i + |p|..], p) && OwnLines(s[i + |p|..], q)
  {
    OwnLinesRest(s, p, i, p);
    OwnLinesRest(s, p, i, q);
  }

  lemma {:induction false} RemoveKeepsLines(s: string, p: string, q: string)
    requires Tag(p) && Tag(q) && p != q && OwnLines(s, p) && OwnLines(s, q)
    ensures OwnLines(Remove(s, p), q)
    decreases |s|
  {
    var i := First(s, p);
    if 0 <= i {
      OwnLinesRests(s, p, i, q);
      RemoveKeepsLines(s[i + |p|..], p, q);
      RestKeepsLines(s, p, i, q, Remove(s[i + |p|..], p));
    }
  }

  lemma RestKeepsLines(s: string, p: string, i: int, q: string, r: string)
    requires Tag(p) && Tag(q) && Has(s, p, i) && OwnLines(s, p) && OwnLines(s, q) && OwnLines(r, q)
    ensures OwnLines(s[..i] + r, q)
  {
    Letters(s, p, i);
    assert s[i] == p[0];
    OwnLinesJoin(s[..i], r, q, s);
  }

  lemma FirstJoin(a: string, b: string, p: string)
    requires Tag(p) && Seam(a, b)
    ensures First(a + b, p) ==
      if 0 <= First(a, p) then First(a, p) else if 0 <= First(b, p) then |a| + First(b, p) else -1
  {
    var f := First(a + b, p);
    if 0 <= First(a, p) { HasLeft(a, b, p, First(a, p)); }
    if 0 <= First(b, p) { HasRight(a, b, p, First(b, p)); }
    if 0 <= f { HasParts(a, b, p, f); }
  }

  lemma RemoveFrom(x: string, p: string, y: string)
    requires p != "" && First(x + p + y, p) == |x|
    ensures Remove(x + p + y, p) == x + Remove(y, p)
  {
    Cuts(x, p, y);
  }

  lemma SplitFirst(s: string, p: string) returns (x: string, y: string)
    requires p != "" && 0 <= First(s, p)
    ensures s == x + p + y && First(s, p) == |x| && Remove(s, p) == x + Remove(y, p)
  {
    x, y := s[..First(s, p)], s[First(s, p) + |p|..];
    SplitAt(s, p, First(s, p));
  }

  lemma Reassociate(a: string, x: string, p: string, y: string)
    ensures a + (x + p + y) == (a + x) + p + y
    ensures (x + p + y) + a == x + p + (y + a)
  {
  }

  lemma RemoveInRight(a: string, b: string, p: string)
    requires Tag(p) && Seam(a, b) && First(a, p) < 0 <= First(b, p)
    ensures Remove(a + b, p) == a + Remove(b, p)
  {
    FirstJoin(a, b, p);
    var x, y := SplitFirst(b, p);
    Reassociate(a, x, p, y);
    RemoveFrom(a + x, p, y);
    Associate(a, x, Remove(y, p));
  }

  lemma {:induction false} RemoveJoin(a: string, b: string, p: string)
    requires Tag(p) && Seam(a, b)
    ensures Remove(a + b, p) == Remove(a, p) + Remove(b, p)
    decreases |a|
  {
    if 0 <= First(a, p) {
      FirstJoin(a, b, p);
      var x, y := SplitFirst(a, p);
      Reassociate(b, x, p, y);
      RemoveFrom(x, p, y + b);
      assert y == "" || y[|y| - 1] == a[|a| - 1];
      RemoveJoin(y, b, p);
      Associate(x, Remove(y, p), Remove(b, p));
    } else if 0 <= First(b, p) {
      RemoveInRight(a, b, p);
    } else {
      FirstJoin(a, b, p);
    }
  }

  lemma OwnLinesParts(a: string, b: string, p: string)
    requires OwnLines(a + b, p) && Tag(p)
    ensures OwnLines(a, p) && OwnLines(b, p)
  {
    var s := a + b;
    forall i | Has(a, p, i) ensures (i == 0 || a[i - 1] == '\n') && (i + |p| == |a| || a[i + |p|] == '\n') {
      HasLeft(a, b, p, i);
    }
    forall i | Has(b, p, i) ensures (i == 0 || b[i - 1] == '\n') && (i + |p| == |b| || b[i + |p|] == '\n') {
      HasRight(a, b, p, i);
    }
  }

  /** A block without draft markers inside is found again after the draft markers of one kind are taken out. */
  lemma RemoveMatch(body: string, o: bool, m: Name)
    requires m != Drafted && OwnLines(body, Mark(Drafted, o)) && Match(body, m) != Damaged
    requires Match(body, m).Present? ==> FreeOf(Match(body, m).content, Mark(Drafted, o))
    ensures var p := Mark(Drafted, o);
      Match(Remove(body, p), m) == if Match(body, m).Absent? then Absent
        else Present(Remove(Match(body, m).pre, p), Match(body, m).content, Remove(Match(body, m).post, p))
  {
    var p := Mark(Drafted, o);
    MarkIsTag(Drafted, o);
    MarkIsTag(m, true);
    MarkIsTag(m, false);
    if Match(body, m).Present? {
      var Present(pre, d, post) := Match(body, m);
      MatchShape(body, m);
      OwnLinesParts(pre + Block(m, d), post, p);
      OwnLinesParts(pre, Block(m, d), p);
      ClearRemoved(pre, p, m);
      ClearRemoved(post, p, m);
      EndsOfBlock(m, d);
      BlockFree(m, d, o);
      RemoveJoin(pre + Block(m, d), post, p);
      RemoveJoin(pre, Block(m, d), p);
      MatchPresent(Remove(pre, p), m, d, Remove(post, p));
    } else {
      MatchAbsent(body, m);
      ClearRemoved(body, p, m);
      MatchAbsent(Remove(body, p), m);
    }
  }

  lemma ClearRemoved(s: string, p: string, m: Name)
    requires Tag(p) && OwnLines(s, p) && ClearOf(s, m)
    ensures ClearOf(Remove(s, p), m)
  {
    MarkIsTag(m, true);
    MarkIsTag(m, false);
    RemoveMakesNone(s, p, Mark(m, true));
    RemoveMakesNone(s, p, Mark(m, false));
  }

  lemma BlockFree(m: Name, d: string, o: bool)
    requires m != Drafted && FreeOf(d, Mark(Drafted, o))
    ensures Remove(Block(m, d), Mark(Drafted, o)) == Block(m, d)
  {
    forall i ensures !Has(Block(m, d), Mark(Drafted, o), i) { NoMarkInBlock(m, d, o, i); }
  }

  lemma NoMarkInBlock(m: Name, d: string, o: bool, i: int)
    requires m != Drafted && FreeOf(d, Mark(Drafted, o))
    ensures !Has(Block(m, d), Mark(Drafted, o), i)
  {
    MarksAround("", m, d, "", Drafted, o, i);
    assert "" + Block(m, d) + "" == Block(m, d);
  }

  /** Once thrown away, a draft whose markers had their own lines leaves no marker behind. */
  lemma DiscardLeavesNone(body: string)
    requires OwnLines(body, Mark(Drafted, true)) && OwnLines(body, Mark(Drafted, false))
    ensures Match(DiscardDraft(body), Drafted).Absent?
    ensures forall m: Name :: Match(body, m).Absent? ==> Match(DiscardDraft(body), m).Absent?
  {
    DraftMarksGone(body);
    forall m: Name | Match(body, m).Absent? ensures Match(DiscardDraft(body), m).Absent? {
      if m != Drafted { DiscardMatch(body, m); }
    }
  }

  lemma DraftMarksGone(body: string)
    requires OwnLines(body, Mark(Drafted, true)) && OwnLines(body, Mark(Drafted, false))
    ensures Match(DiscardDraft(body), Drafted).Absent?
  {
    var p, q := Mark(Drafted, true), Mark(Drafted, false);
    MarkPair(Drafted);
    if p == q { MarkInjective(Drafted, true, Drafted, false); }
    RemoveKeepsLines(body, p, q);
    RemoveMakesNone(body, p, p);
    RemoveMakesNone(Remove(body, p), q, q);
    RemoveMakesNone(Remove(body, p), q, p);
    MatchAbsent(DiscardDraft(body), Drafted);
  }

  lemma DiscardMatch(body: string, m: Name)
    requires OwnLines(body, Mark(Drafted, true)) && OwnLines(body, Mark(Drafted, false))
    requires m != Drafted && Match(body, m) != Damaged
    requires Match(body, m).Present? ==> ClearOf(Match(body, m).content, Drafted)
    ensures Match(DiscardDraft(body), m) != Damaged && Read(DiscardDraft(body), m) == Read(body, m)
  {
    var p, q := Mark(Drafted, true), Mark(Drafted, false);
    MarkPair(Drafted);
    if p == q { MarkInjective(Drafted, true, Drafted, false); }
    RemoveKeepsLines(body, p, q);
    RemoveMatch(body, true, m);
    RemoveMatch(Remove(body, p), false, m);
  }

  /**
   * However many draft markers a body holds and in whatever order, if each has its own line then throwing them
   * away lets any unmarked content be written as the new draft and read back, and other blocks read as before.
   */
  lemma DiscardMends(body: string, c: string)
    requires OwnLines(body, Mark(Drafted, true)) && OwnLines(body, Mark(Drafted, false)) && Unmarked(c)
    ensures Write(DiscardDraft(body), Drafted, c).Ok?
    ensures Read(Write(DiscardDraft(body), Drafted, c).value, Drafted) == Ok(Some(c))
    ensures forall m: Name ::
      m != Drafted && Match(body, m) != Damaged && (Match(body, m).Present? ==> ClearOf(Match(body, m).content, Drafted)) ==>
        Read(Write(DiscardDraft(body), Drafted, c).value, m) == Read(body, m)
  {
    DiscardLeavesNone(body);
    MarkedOrNot(c);
    ReadAfterWrite(DiscardDraft(body), Drafted, c);
    forall m: Name | m != Drafted && Match(body, m) != Damaged &&
        (Match(body, m).Present? ==> ClearOf(Match(body, m).content, Drafted))
      ensures Read(Write(DiscardDraft(body), Drafted, c).value, m) == Read(body, m)
    {
      DiscardMatch(body, m);
      AppendMatch(DiscardDraft(body), Drafted, c, m);
    }
  }

  // ---------------------------------------------------------------------------------------------
  // When throwing markers away leaves one

  /** Where a `p` is taken out, the text before it and what is left of the text after it make a `q` across the joint. */
  ghost predicate Joint(s: string, p: string, q: string)
    requires p != ""
    decreases |s|
  {
    var i := First(s, p);
    0 <= i && (Across(s[..i], Remove(s[i + |p|..], p), q) || Joint(s[i + |p|..], p, q))
  }

  lemma TagEnds(s: string, p: string, i: int)
    requires Tag(p) && Has(s, p, i)
    ensures s[i] == '<' && s[i + |p| - 1] == '>'
  {
    Letters(s, p, i);
  }

  lemma TagInTag(p: string, q: string, i: int)
    requires Tag(p) && Tag(q) && Has(p, q, i)
    ensures p == q
  {
    TagEnds(p, q, i);
    assert p[0..|p|] == p;
  }

  /** A tag is not part of another one. */
  lemma TagNotIn(p: string, q: string)
    requires Tag(p) && Tag(q) && p != q
    ensures FreeOf(p, q)
  {
    forall i ensures !Has(p, q, i) {
      if Has(p, q, i) { TagInTag(p, q, i); }
    }
  }

  /** What stands around a tag holds another tag just when the whole does. */
  lemma FreeAroundTag(s: string, p: string, i: int, q: string)
    requires Tag(p) && Tag(q) && p != q && Has(s, p, i)
    ensures FreeOf(s, q) <==> FreeOf(s[..i], q) && FreeOf(s[i + |p|..], q)
  {
    var a, b := s[..i], s[i + |p|..];
    assert s == (a + p) + b;
    TagNotIn(p, q);
    LastOf(a, p);
    FreeParts(a + p, b, q);
    FreeParts(a, p, q);
  }

  lemma RemoveStep(s: string, p: string, q: string, i: int, rest: string, left: string)
    requires Tag(p) && Tag(q) && 0 <= i == First(s, p) && rest == s[i + |p|..]
    requires FreeOf(left, q) <==> (q == p || FreeOf(rest, q)) && !Joint(rest, p, q)
    ensures FreeOf(s[..i] + left, q) <==> (q == p || FreeOf(s, q)) && !Across(s[..i], left, q) && !Joint(rest, p, q)
  {
    FreeJoin(s[..i], left, q);
    if q == p { FreeBefore(s, p, i); } else { FreeAroundTag(s, p, i, q); }
  }

  /** Taking out every `p`, wherever they stand, leaves a `q` if and only if there was another one, or a joint makes one. */
  lemma {:induction false} RemoveLeavesIff(s: string, p: string, q: string)
    requires Tag(p) && Tag(q)
    ensures FreeOf(Remove(s, p), q) <==> (q == p || FreeOf(s, q)) && !Joint(s, p, q)
    decreases |s|
  {
    if First(s, p) < 0 {
      NothingRemoved(s, p, q);
    } else {
      var rest := s[First(s, p) + |p|..];
      RemoveLeavesIff(rest, p, q);
      RemoveFirst(s, p);
      JointFirst(s, p, q);
      LeavesOr(s, p, q, First(s, p), rest, Remove(rest, p), Remove(s, p), Joint(s, p, q));
    }
  }

  lemma NothingRemoved(s: string, p: string, q: string)
    requires p != "" && First(s, p) < 0
    ensures Remove(s, p) == s && FreeOf(s, p) && !Joint(s, p, q)
  {
  }

  lemma LeavesOr(s: string, p: string, q: string, i: int, rest: string, left: string, result: string, joint: bool)
    requires Tag(p) && Tag(q) && 0 <= i == First(s, p) && rest == s[i + |p|..] && result == s[..i] + left
    requires FreeOf(left, q) <==> (q == p || FreeOf(rest, q)) && !Joint(rest, p, q)
    requires joint <==> Across(s[..i], left, q) || Joint(rest, p, q)
    ensures FreeOf(result, q) <==> (q == p || FreeOf(s, q)) && !joint
  {
    RemoveStep(s, p, q, i, rest, left);
  }

  lemma JointFirst(s: string, p: string, q: string)
    requires p != "" && 0 <= First(s, p)
    ensures var i := First(s, p); var rest := s[i + |p|..];
      Joint(s, p, q) <==> Across(s[..i], Remove(rest, p), q) || Joint(rest, p, q)
  {
  }

  lemma RemoveFirst(s: string, p: string)
    requires p != "" && 0 <= First(s, p)
    ensures Remove(s, p) == s[..First(s, p)] + Remove(s[First(s, p) + |p|..], p)
  {
  }

  /** No joint that discarding the draft leaves makes this marker. */
  ghost predicate NoJoint(body: string, m: Name, o: bool) {
    var p, q := Mark(Drafted, true), Mark(Drafted, false);
    !Joint(body, p, Mark(m, o)) && !Joint(Remove(body, p), q, Mark(m, o))
  }

  lemma DraftMarks()
    ensures Tag(Mark(Drafted, true)) && Tag(Mark(Drafted, false)) && Mark(Drafted, true) != Mark(Drafted, false)
  {
    MarkPair(Drafted);
    if Mark(Drafted, true) == Mark(Drafted, false) { MarkInjective(Drafted, true, Drafted, false); }
  }

  /** The end markers of the draft go last, so that only what their joints make of them is left. */
  ghost predicate DraftJoint(body: string) {
    var p, q := Mark(Drafted, true), Mark(Drafted, false);
    Joint(body, p, p) || Joint(Remove(body, p), q, p) || Joint(Remove(body, p), q, q)
  }

  /**
   * On any body, discarding the draft leaves a marker of it if and only if a joint makes one: of two texts around a start
   * marker, a start marker, or of two texts around an end marker left then, either of them.
   */
  lemma DiscardLeavesIff(body: string)
    ensures Match(DiscardDraft(body), Drafted).Absent? <==> !DraftJoint(body)
  {
    var p, q := Mark(Drafted, true), Mark(Drafted, false);
    DraftMarks();
    RemoveLeavesIff(body, p, p);
    RemoveLeavesIff(Remove(body, p), q, p);
    RemoveLeavesIff(Remove(body, p), q, q);
    MatchAbsent(DiscardDraft(body), Drafted);
  }

  /** And it makes a marker of another block, where there was none, if and only if a joint does. */
  lemma DiscardMakesIff(body: string, m: Name, o: bool)
    requires m != Drafted && FreeOf(body, Mark(m, o))
    ensures FreeOf(DiscardDraft(body), Mark(m, o)) <==> NoJoint(body, m, o)
  {
    var p, q, x := Mark(Drafted, true), Mark(Drafted, false), Mark(m, o);
    DraftMarks();
    MarkIsTag(m, o);
    if x == p { MarkInjective(m, o, Drafted, true); }
    if x == q { MarkInjective(m, o, Drafted, false); }
    RemoveLeavesIff(body, p, x);
    RemoveLeavesIff(Remove(body, p), q, x);
  }

  /** A text without a bracket holds no tag. */
  lemma HalfFree(a: string, p: string)
    requires Tag(p) && ((forall k :: 0 <= k < |a| ==> a[k] != '<') || (forall k :: 0 <= k < |a| ==> a[k] != '>'))
    ensures FreeOf(a, p)
  {
    forall i ensures !Has(a, p, i) {
      if Has(a, p, i) { TagEnds(a, p, i); }
    }
  }

  /** A tag between two texts that hold none stands there once. */
  lemma OnceBetween(a: string, p: string, b: string)
    requires Tag(p) && FreeOf(a, p) && FreeOf(b, p)
    ensures First(a + p + b, p) == |a| && Remove(a + p + b, p) == a + b
  {
    var s := a + p + b;
    assert s[|a|..|a| + |p|] == p && Has(s, p, |a|);
    LastOf(a, p);
    forall i | Has(s, p, i) ensures i >= |a| {
      HasParts(a + p, b, p, i);
      if Has(a + p, p, i) { HasParts(a, p, p, i); }
    }
    assert s[..|a|] == a && s[|a| + |p|..] == b;
  }

  lemma HalvesAround(a: string, b: string)
    requires a + b == Mark(Drafted, true) && a != "" && b != ""
    ensures var m := Mark(Drafted, true);
      Match(a + m + b, Drafted) == Damaged && DiscardDraft(a + m + b) == m
  {
    var m, q := Mark(Drafted, true), Mark(Drafted, false);
    DraftMarks();
    HalvesFree(a, b, m, m);
    HalvesFree(a, b, m, q);
    OnceBetween(a, m, b);
    TagNotIn(m, q);
    BetweenIsDamaged(a, b);
  }

  lemma BetweenIsDamaged(a: string, b: string)
    requires FreeOf(a, Mark(Drafted, false)) && FreeOf(b, Mark(Drafted, false))
    ensures Match(a + Mark(Drafted, true) + b, Drafted) == Damaged
  {
    var m := Mark(Drafted, true);
    var s := a + m + b;
    assert s[|a|..|a| + |m|] == m && s[..|a|] == a && s[|a| + |m|..] == b;
    NoEndMark(s, |a|);
  }

  /** Neither part of a tag cut in two holds a tag. */
  lemma HalvesFree(a: string, b: string, m: string, p: string)
    requires Tag(m) && Tag(p) && a + b == m && a != "" && b != ""
    ensures FreeOf(a, p) && FreeOf(b, p)
  {
    assert forall k :: 0 <= k < |a| ==> a[k] == m[k];
    assert forall k :: 0 <= k < |b| ==> b[k] == m[|a| + k];
    HalfFree(a, p);
    HalfFree(b, p);
  }

  /** A body with a start marker and no end marker is damaged. */
  lemma NoEndMark(body: string, at: int)
    requires Has(body, Mark(Drafted, true), at)
    requires FreeOf(body[..at], Mark(Drafted, false)) && FreeOf(body[at + |Mark(Drafted, true)|..], Mark(Drafted, false))
    ensures Match(body, Drafted) == Damaged
  {
    DraftMarks();
    FreeAroundTag(body, Mark(Drafted, true), at, Mark(Drafted, false));
    MatchAbsent(body, Drafted);
    if Match(body, Drafted).Present? { var i := OneMark(body, Drafted, false); }
  }

  /** A start marker inside the halves of another: discarding leaves that other one, and the block damaged. */
  lemma DiscardCanLeave()
    ensures var m := Mark(Drafted, true); var body := "<!-- harness:answer-dr" + m + "aft:start -->";
      Match(body, Drafted) == Damaged && DiscardDraft(body) == m && Match(m, Drafted) == Damaged
  {
    var a, b, m := "<!-- harness:answer-dr", "aft:start -->", Mark(Drafted, true);
    assert a + b == m;
    OneMarkIsDamage(Drafted);
    HalvesAround(a, b);
  }
}
