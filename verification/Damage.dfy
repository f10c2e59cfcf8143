/** Bodies some of whose blocks are damaged: writing and cutting the others neither mends nor harms them. */
module Damage {
  import opened Blocks
  import opened Documents
  import opened Frames
  import opened Texts

  /** Every block that can be read is in place; the others may be damaged in any way. */
  ghost predicate Orderly(body: string) {
    forall n: Name :: Match(body, n).Present? ==> InPlace(body, n)
  }

  /** No block that can be read holds a marker; it may share its lines with any text. */
  ghost predicate Apart(body: string) {
    forall n: Name :: Match(body, n).Present? ==> Unmarked(Match(body, n).content)
  }

  predicate Readable(body: string, n: Name) {
    Match(body, n) != Damaged
  }

  lemma OrderlyIsApart(body: string)
    requires Orderly(body)
    ensures Apart(body)
  {
    forall n: Name | Match(body, n).Present? ensures Unmarked(Match(body, n).content) { assert InPlace(body, n); }
  }

  lemma GoodIsOrderly(body: string)
    ensures Good(body) <==> Orderly(body) && forall n: Name :: Readable(body, n)
    ensures Good(body) ==> Apart(body)
  {
    if Good(body) {
      forall n: Name ensures Readable(body, n) { assert InPlace(body, n); }
      OrderlyIsApart(body);
    }
    if Orderly(body) && forall n: Name :: Readable(body, n) {
      forall n: Name ensures InPlace(body, n) { assert Readable(body, n); }
    }
  }

  // ---------------------------------------------------------------------------------------------
  // A piece put in place of another

  /** No tag can lie across an edge of the piece: it stands on lines of its own, or begins and ends like a tag. */
  ghost predicate Sealed(pre: string, x: string, post: string) {
    OnLines(pre, post) || (x != "" && x[0] == '<' && x[|x| - 1] == '>')
  }

  lemma SealedSeams(pre: string, x: string, post: string)
    requires Sealed(pre, x, post)
    ensures Seam(pre, x) && Seam(pre + x, post)
  {
    if x != "" { LastOf(pre, x); } else { assert pre + x == pre; }
  }

  lemma ClearThree(pre: string, x: string, post: string, m: Name)
    requires Sealed(pre, x, post)
    ensures ClearOf(pre + x + post, m) <==> ClearOf(pre, m) && ClearOf(x, m) && ClearOf(post, m)
  {
    SealedSeams(pre, x, post);
    ClearJoin(pre, x, m);
    ClearJoin(pre + x, post, m);
  }

  /** Where a marker stands around a piece without it. */
  lemma AroundPiece(pre: string, x: string, post: string, p: string, i: int)
    requires Sealed(pre, x, post) && Tag(p) && FreeOf(x, p) && Has(pre + x + post, p, i)
    ensures Has(pre, p, i) || Has(post, p, i - |pre| - |x|)
  {
    SealedSeams(pre, x, post);
    HasParts(pre + x, post, p, i);
    HasParts(pre, x, p, i);
  }

  /** Two ways to cut one text in two. */
  lemma Overlap(a: string, b: string, c: string, d: string) returns (mid: string)
    requires a + b == c + d && |a| <= |c|
    ensures c == a + mid && b == mid + d
  {
    mid := c[|a|..];
    var s := a + b;
    assert s[..|c|] == c && s[|c|..] == d && s[..|a|] == a && s[|a|..] == b;
  }

  lemma BlockBefore(pre: string, x: string, y: string, post: string, a: string, m: Name, d: string, b: string)
    requires Sealed(pre, x, post) && Sealed(pre, y, post) && ClearOf(y, m) && pre + x + post == a + Block(m, d) + b
    requires ClearOf(a, m) && ClearOf(d, m) && ClearOf(b, m) && |a| + |Block(m, d)| <= |pre|
    ensures Match(pre + y + post, m).Present?
  {
    assert pre + x + post == pre + (x + post);
    var mid := Overlap(a + Block(m, d), b, pre, x + post);
    EndsOfBlock(m, d);
    LastOf(a, Block(m, d));
    assert a + Block(m, d) + "" == a + Block(m, d);
    if mid != "" { LastOf(a + Block(m, d), mid); }
    assert mid + (x + post) == mid + x + post;
    ClearThree(mid, x, post, m);
    ClearThree(mid, y, post, m);
    assert pre + y + post == a + Block(m, d) + (mid + y + post);
    MatchPresent(a, m, d, mid + y + post);
  }

  /** What stands between a piece and a block after it. */
  lemma SplitAfter(pre: string, x: string, post: string, a: string, block: string, b: string) returns (mid: string)
    requires pre + x + post == a + block + b && |pre| + |x| <= |a|
    ensures a == pre + x + mid && post == mid + block + b
  {
    assert a + block + b == a + (block + b);
    mid := Overlap(pre + x, post, a, block + b);
    assert mid + (block + b) == mid + block + b;
  }

  lemma SealedBefore(pre: string, x: string, mid: string, block: string, b: string)
    requires Sealed(pre, x, mid + block + b) && block != ""
    ensures Sealed(pre, x, mid)
  {
    if mid != "" { FirstOf(mid, block, b); }
  }

  lemma BlockAfter(pre: string, x: string, y: string, post: string, a: string, m: Name, d: string, b: string)
    requires Sealed(pre, x, post) && Sealed(pre, y, post) && ClearOf(y, m) && pre + x + post == a + Block(m, d) + b
    requires ClearOf(a, m) && ClearOf(d, m) && ClearOf(b, m) && |pre| + |x| <= |a|
    ensures Match(pre + y + post, m).Present?
  {
    var mid := SplitAfter(pre, x, post, a, Block(m, d), b);
    EndsOfBlock(m, d);
    SealedBefore(pre, x, mid, Block(m, d), b);
    SealedBefore(pre, y, mid, Block(m, d), b);
    ClearThree(pre, x, mid, m);
    ClearThree(pre, y, mid, m);
    AfterGroup(pre, y, mid, Block(m, d), b);
    MatchPresent(pre + y + mid, m, d, b);
  }

  lemma AfterGroup(pre: string, y: string, mid: string, block: string, b: string)
    ensures pre + y + (mid + block + b) == (pre + y + mid) + block + b
  {
  }

  /** A text with a piece inside a frame: what stands in the frame before the piece, and after it. */
  lemma SplitAround(pre: string, x: string, post: string, a: string, h: string, d: string, t: string, b: string)
    returns (u: string, v: string)
    requires pre + x + post == a + (h + d + t) + b && |a| + |h| <= |pre| && |pre| + |x| <= |a| + |h| + |d|
    ensures pre == a + h + u && post == v + t + b && d == u + x + v
  {
    assert pre + x + post == pre + (x + post) && a + (h + d + t) + b == (a + h) + (d + t + b);
    u := Overlap(a + h, d + t + b, pre, x + post);
    assert u + (x + post) == (u + x) + post && d + t + b == d + (t + b);
    v := Overlap(u + x, post, d, t + b);
    assert v + (t + b) == v + t + b;
  }

  lemma BlockAround(pre: string, x: string, y: string, post: string, a: string, m: Name, d: string, b: string)
    requires Sealed(pre, x, post) && Sealed(pre, y, post) && ClearOf(y, m) && pre + x + post == a + Block(m, d) + b
    requires ClearOf(a, m) && ClearOf(d, m) && ClearOf(b, m)
    requires |a| + |Mark(m, true)| + 1 <= |pre| && |pre| + |x| <= |a| + |Mark(m, true)| + 1 + |d|
    ensures Match(pre + y + post, m).Present?
  {
    var h, t := Mark(m, true) + "\n", "\n" + Mark(m, false);
    var u, v := SplitAround(pre, x, post, a, h, d, t, b);
    SeamsInside(a + h, u, x, v, t, b);
    SeamsInside(a + h, u, y, v, t, b);
    ClearThree(u, x, v, m);
    ClearThree(u, y, v, m);
    Joined(a, h, u, y, v, t, b);
    MatchPresent(a, m, u + y + v, b);
  }

  lemma SeamsInside(ah: string, u: string, x: string, v: string, t: string, b: string)
    requires Sealed(ah + u, x, v + t + b)
    ensures Sealed(u, x, v)
  {
    if u != "" { LastOf(ah, u); }
    if v != "" { FirstOf(v, t, b); }
  }

  lemma Joined(a: string, h: string, u: string, y: string, v: string, t: string, b: string)
    ensures (a + h + u) + y + (v + t + b) == a + (h + (u + y + v) + t) + b
  {
  }

  /** A block that can be read can still be read when another piece is put in place of one that holds none of its markers. */
  lemma ReadableStays(pre: string, x: string, y: string, post: string, m: Name)
    requires Sealed(pre, x, post) && Sealed(pre, y, post)
    requires ClearOf(x, m) && ClearOf(y, m) && Readable(pre + x + post, m)
    ensures Readable(pre + y + post, m)
  {
    var s := pre + x + post;
    if Match(s, m).Absent? {
      MatchAbsent(s, m);
      ClearThree(pre, x, post, m);
      ClearThree(pre, y, post, m);
      MatchAbsent(pre + y + post, m);
    } else {
      var Present(a, d, b) := Match(s, m);
      MatchShape(s, m);
      PlacesOf(a, m, d, b);
      PresentStays(pre, x, y, post, a, m, d, b);
    }
  }

  lemma PlacesOf(a: string, m: Name, d: string, b: string)
    ensures var s := a + Block(m, d) + b;
      Has(s, Mark(m, true), |a|) && Has(s, Mark(m, false), |a| + |Mark(m, true)| + |d| + 2)
  {
    MarksAround(a, m, d, b, m, true, |a|);
    MarksAround(a, m, d, b, m, false, |a| + |Mark(m, true)| + |d| + 2);
  }

  /** Two framing tags around a piece without them both stand before it, or after it, or it stands in their frame. */
  lemma EndsAround(pre: string, x: string, post: string, p: string, q: string, i: int, j: int)
    requires Sealed(pre, x, post) && Tag(p) && Tag(q) && FreeOf(x, p) && FreeOf(x, q)
    requires Has(pre + x + post, p, i) && Has(pre + x + post, q, j) && i + |p| < j
    requires (pre + x + post)[i + |p|] == '\n' && (pre + x + post)[j - 1] == '\n'
    ensures j + |q| <= |pre| || |pre| + |x| <= i || (i + |p| + 1 <= |pre| && |pre| + |x| + 1 <= j)
  {
    AroundPiece(pre, x, post, p, i);
    AroundPiece(pre, x, post, q, j);
    if Has(pre, p, i) && Has(post, q, j - |pre| - |x|) {
      if OnLines(pre, post) {
        InsideLines(pre, post, p, q, i, j - |pre| - |x|);
      } else {
        InsideEdges(pre, x, post, i + |p|, j - 1);
      }
    }
  }

  lemma InsideLines(pre: string, post: string, p: string, q: string, i: int, k: int)
    requires OnLines(pre, post) && Tag(p) && Tag(q) && Has(pre, p, i) && Has(post, q, k)
    ensures i + |p| + 1 <= |pre| && 1 <= k
  {
    Letters(pre, p, i);
    Letters(post, q, k);
    assert pre[i + |p| - 1] == '>' && post[k] == '<';
  }

  lemma InsideEdges(pre: string, x: string, post: string, i: int, j: int)
    requires x != "" && x[0] == '<' && x[|x| - 1] == '>' && 0 <= i <= |pre| && |pre| + |x| - 1 <= j < |pre + x + post|
    requires (pre + x + post)[i] == '\n' && (pre + x + post)[j] == '\n'
    ensures i < |pre| && |pre| + |x| <= j
  {
  }

  lemma FrameLines(a: string, m: Name, d: string, b: string)
    ensures var s, i := a + Block(m, d) + b, |a| + |Mark(m, true)|;
      i + |d| + 1 < |s| && s[i] == '\n' && s[i + |d| + 1] == '\n'
  {
  }

  lemma PresentStays(pre: string, x: string, y: string, post: string, a: string, m: Name, d: string, b: string)
    requires Sealed(pre, x, post) && Sealed(pre, y, post)
    requires ClearOf(x, m) && ClearOf(y, m) && pre + x + post == a + Block(m, d) + b
    requires ClearOf(a, m) && ClearOf(d, m) && ClearOf(b, m)
    requires Has(pre + x + post, Mark(m, true), |a|)
    requires Has(pre + x + post, Mark(m, false), |a| + |Mark(m, true)| + |d| + 2)
    ensures Match(pre + y + post, m).Present?
  {
    var p, q := Mark(m, true), Mark(m, false);
    var j := |a| + |p| + |d| + 2;
    MarkIsTag(m, true);
    MarkIsTag(m, false);
    FrameLines(a, m, d, b);
    EndsAround(pre, x, post, p, q, |a|, j);
    assert |Block(m, d)| == |p| + |d| + |q| + 2;
    if j + |q| <= |pre| {
      BlockBefore(pre, x, y, post, a, m, d, b);
    } else if |pre| + |x| <= |a| {
      BlockAfter(pre, x, y, post, a, m, d, b);
    } else {
      BlockAround(pre, x, y, post, a, m, d, b);
    }
  }

  // ---------------------------------------------------------------------------------------------
  // Writing and cutting

  /** Line ends at the end of a body do not make a block readable. */
  lemma NewLinesMendNothing(body: string, w: string, m: Name)
    requires NewLines(w) && Readable(body + w, m)
    ensures Readable(body, m)
  {
    NewLinesClear(w, m);
    if Match(body + w, m).Absent? {
      MatchAbsent(body + w, m);
      ClearJoin(body, w, m);
      MatchAbsent(body, m);
    } else {
      var Present(a, d, b) := Match(body + w, m);
      MatchShape(body + w, m);
      EndsOfBlock(m, d);
      LastOf(a, Block(m, d));
      BlockWithin(body, w, a + Block(m, d), b);
      var mid := Overlap(a + Block(m, d), b, body, w);
      ClearJoin(mid, w, m);
      MatchPresent(a, m, d, mid);
    }
  }

  lemma BlockWithin(body: string, w: string, x: string, b: string)
    requires NewLines(w) && body + w == x + b && x != "" && x[|x| - 1] == '>'
    ensures |x| <= |body|
  {
    assert (body + w)[|x| - 1] == '>';
  }

  lemma BlockClear(n: Name, c: string, m: Name)
    requires m != n && Unmarked(c)
    ensures ClearOf(Block(n, c), m)
  {
    ClearOfNothing(m);
    ClearAround("", n, c, "", m);
    assert "" + Block(n, c) + "" == Block(n, c);
  }

  lemma ClearOfNothing(m: Name)
    ensures ClearOf("", m)
  {
    MarkIsTag(m, true);
    MarkIsTag(m, false);
  }

  /** A damaged block stays damaged when another one is written. */
  lemma WriteMendsNothing(body: string, n: Name, c: string, m: Name)
    requires m != n && Write(body, n, c).Ok? && (Match(body, n).Present? ==> Unmarked(Match(body, n).content))
    requires Readable(Write(body, n, c).value, m)
    ensures Readable(body, m)
  {
    MarkedOrNot(c);
    if Match(body, n).Present? {
      SwapMendsNothing(body, n, c, m);
    } else {
      AddMendsNothing(body, n, c, m);
    }
  }

  lemma SwapMendsNothing(body: string, n: Name, c: string, m: Name)
    requires m != n && Unmarked(c) && Match(body, n).Present? && Unmarked(Match(body, n).content)
    requires Readable(Match(body, n).pre + Block(n, c) + Match(body, n).post, m)
    ensures Readable(body, m)
  {
    var Present(pre, old_, post) := Match(body, n);
    MatchShape(body, n);
    BlockClear(n, c, m);
    BlockClear(n, old_, m);
    EndsOfBlock(n, c);
    EndsOfBlock(n, old_);
    ReadableStays(pre, Block(n, c), Block(n, old_), post, m);
  }

  lemma AddMendsNothing(body: string, n: Name, c: string, m: Name)
    requires m != n && Unmarked(c) && Readable(body + Gap(body) + Block(n, c) + "\n", m)
    ensures Readable(body, m)
  {
    BlockClear(n, c, m);
    ClearOfNothing(m);
    GapEnds(body);
    ReadableStays(body + Gap(body), Block(n, c), "", "\n", m);
    var w := GapLine(body);
    assert body + Gap(body) + "" == body + Gap(body);
    NewLinesMendNothing(body, w, m);
  }

  lemma GapEnds(body: string)
    ensures OnLines(body + Gap(body), "\n")
  {
    LastOf(body, Gap(body));
  }

  lemma NoPiece(pre: string, post: string, m: Name)
    ensures Readable(pre + "" + post, m) <==> Readable(pre + post, m)
  {
    assert pre + "" == pre;
  }

  lemma CutMendsNothing(pre: string, n: Name, c: string, post: string, m: Name)
    requires m != n && OnLines(pre, post) && Unmarked(c) && Readable(pre + "" + post, m)
    ensures Readable(pre + Block(n, c) + post, m)
  {
    BlockClear(n, c, m);
    ClearOfNothing(m);
    ReadableStays(pre, "", Block(n, c), post, m);
  }

  lemma StripMendsNothing(body: string, n: Name, m: Name)
    requires m != n && Match(body, n).Present? && InPlace(body, n) && Readable(Strip(body, n).value, m)
    ensures Readable(body, m)
  {
    var Present(pre, c, post) := Match(body, n);
    MatchShape(body, n);
    NoPiece(pre, post, m);
    CutMendsNothing(pre, n, c, post, m);
  }

  lemma SameReading(body: string, b: string, m: Name)
    requires InPlace(body, m) ==> InPlace(b, m) && Slot(b, m) == Slot(body, m)
    requires Match(body, m).Present? ==> InPlace(body, m)
    requires Readable(b, m) ==> Readable(body, m)
    ensures Read(b, m) == Read(body, m) && (Match(b, m).Present? ==> InPlace(b, m))
  {
  }

  /** A block before another, and after it, when that one gets new content. */
  lemma SwapFinds(body: string, n: Name, c: string, m: Name)
    requires m != n && Unmarked(c) && Match(body, n).Present? && Unmarked(Match(body, n).content)
    requires Match(body, m) != Damaged && (Match(body, m).Present? ==> ClearOf(Match(body, m).content, n))
    ensures var b := Match(body, n).pre + Block(n, c) + Match(body, n).post;
      Read(b, m) == Read(body, m)
  {
    var Present(pre, old_, post) := Match(body, n);
    MatchShape(body, n);
    if Match(body, m).Present? {
      var Present(pre', d, post') := Match(body, m);
      MatchShape(body, m);
      var mid, before := Neighbours(body, n, m);
      if before {
        FoundBefore(pre', m, d, mid, n, old_, c, post);
      } else {
        FoundAfter(pre, n, old_, c, mid, m, d, post');
      }
    } else {
      MatchAbsent(body, m);
      ClearAround(pre, n, old_, post, m);
      ClearAround(pre, n, c, post, m);
      MatchAbsent(pre + Block(n, c) + post, m);
    }
  }

  lemma FoundBefore(pre: string, m: Name, d: string, mid: string, n: Name, old_: string, c: string, post: string)
    requires m != n && Unmarked(old_) && Unmarked(c) && ClearOf(pre, m) && ClearOf(d, m)
    requires ClearOf(mid + Block(n, old_) + post, m)
    ensures Match((pre + Block(m, d) + mid) + Block(n, c) + post, m) == Present(pre, d, mid + Block(n, c) + post)
  {
    ClearAround(mid, n, old_, post, m);
    ClearAround(mid, n, c, post, m);
    Blocks.Regroup(pre, Block(m, d), mid, Block(n, c), post);
    MatchPresent(pre, m, d, mid + Block(n, c) + post);
  }

  lemma FoundAfter(pre: string, n: Name, old_: string, c: string, mid: string, m: Name, d: string, post: string)
    requires m != n && Unmarked(old_) && Unmarked(c) && ClearOf(post, m) && ClearOf(d, m)
    requires ClearOf(pre + Block(n, old_) + mid, m)
    ensures Match(pre + Block(n, c) + (mid + Block(m, d) + post), m) == Present(pre + Block(n, c) + mid, d, post)
  {
    ClearAround(pre, n, old_, mid, m);
    ClearAround(pre, n, c, mid, m);
    Blocks.Regroup(pre, Block(n, c), mid, Block(m, d), post);
    MatchPresent(pre + Block(n, c) + mid, m, d, post);
  }

  /** A block that can be read is read as before when another one is written. */
  lemma WriteFinds(body: string, n: Name, c: string, m: Name)
    requires m != n && Apart(body) && Write(body, n, c).Ok? && Match(body, m) != Damaged
    ensures Read(Write(body, n, c).value, m) == Read(body, m)
  {
    MarkedOrNot(c);
    if Match(body, n).Present? { SwapFinds(body, n, c, m); } else { AppendMatch(body, n, c, m); }
  }

  /** A write sets its own block and leaves every other one, damaged or not, as it was, if none that is read holds a marker. */
  lemma WriteApart(body: string, n: Name, c: string)
    requires Apart(body) && Write(body, n, c).Ok?
    ensures var b := Write(body, n, c).value;
      Apart(b) && Read(b, n) == Ok(Some(c)) && forall m: Name :: m != n ==> Read(b, m) == Read(body, m)
  {
    var b := Write(body, n, c).value;
    MarkedOrNot(c);
    ReadAfterWrite(body, n, c);
    forall m: Name | m != n ensures Read(b, m) == Read(body, m) {
      if Readable(body, m) { WriteFinds(body, n, c, m); } else if Readable(b, m) { WriteMendsNothing(body, n, c, m); }
    }
    forall m: Name | Match(b, m).Present? ensures Unmarked(Match(b, m).content) { SameContent(body, b, n, c, m); }
  }

  lemma SameContent(body: string, b: string, n: Name, c: string, m: Name)
    requires Apart(body) && Unmarked(c) && Read(b, n) == Ok(Some(c)) && (m != n ==> Read(b, m) == Read(body, m))
    requires Match(b, m).Present?
    ensures Unmarked(Match(b, m).content)
  {
  }

  /** A write leaves an orderly body orderly. */
  lemma WriteStaysOrderly(body: string, n: Name, c: string)
    requires Orderly(body) && Write(body, n, c).Ok?
    ensures Orderly(Write(body, n, c).value)
  {
    var b := Write(body, n, c).value;
    OrderlyIsApart(body);
    WriteApart(body, n, c);
    forall m: Name | Match(b, m).Present? ensures InPlace(b, m) {
      if m == n { WrittenInPlace(body, n, c); } else { OtherInPlace(body, n, c, m); }
    }
  }

  lemma WrittenInPlace(body: string, n: Name, c: string)
    requires Orderly(body) && Write(body, n, c).Ok?
    ensures InPlace(Write(body, n, c).value, n)
  {
    assert Match(body, n).Present? ==> InPlace(body, n);
    WritePlace(body, n, c);
    if Match(body, n).Absent? { GapEnds(body); }
  }

  lemma OtherInPlace(body: string, n: Name, c: string, m: Name)
    requires m != n && Orderly(body) && Write(body, n, c).Ok? && Read(Write(body, n, c).value, m) == Read(body, m)
    requires Match(Write(body, n, c).value, m).Present?
    ensures InPlace(Write(body, n, c).value, m)
  {
    MarkedOrNot(c);
    assert InPlace(body, m);
    if Match(body, n).Present? {
      assert InPlace(body, n);
      SwapKeeps(body, n, Some(c), m);
    } else {
      AppendKeeps(body, n, c, m);
    }
  }

  /** On an orderly body a cut removes its own block and leaves every other one, damaged or not, as it was. */
  lemma StripOrderly(body: string, n: Name)
    requires Orderly(body) && Readable(body, n)
    ensures var b := Strip(body, n).value;
      Orderly(b) && Read(b, n) == Ok(None) && forall m: Name :: m != n ==> Read(b, m) == Read(body, m)
  {
    if Match(body, n).Present? {
      var b := Strip(body, n).value;
      CutRemoves(body, n);
      forall m: Name | m != n ensures Read(b, m) == Read(body, m) && (Match(b, m).Present? ==> InPlace(b, m)) {
        if InPlace(body, m) { CutKeeps(body, n, m); }
        if Readable(b, m) { StripMendsNothing(body, n, m); }
        SameReading(body, b, m);
      }
    }
  }
}
