/** A text framed by an opening and a closing tag, each on a line of its own: finding the frame by counting its tags. */
module Frames {
  import opened Texts

  function Framed(head: string, c: string, tail: string): string {
    (head + "\n") + c + ("\n" + tail)
  }

  lemma HasInFrame(head: string, c: string, tail: string, p: string, i: int)
    requires Tag(head) && Tag(tail) && Tag(p)
    ensures Has(Framed(head, c, tail), p, i) <==>
      Has(head, p, i) || Has(c, p, i - |head| - 1) || Has(tail, p, i - |head| - |c| - 2)
  {
    var x, y := "\n" + c, "\n" + tail;
    assert Framed(head, c, tail) == head + (x + y);
    HasParts(head, x + y, p, i);
    HasParts(x, y, p, i - |head|);
    HasParts("\n", c, p, i - |head|);
    HasParts("\n", tail, p, i - |head| - |x|);
  }

  /** Where a tag stands in a text framed by two tags on lines of their own, with text around the frame. */
  lemma HasFramed(pre: string, head: string, c: string, tail: string, post: string, p: string, i: int)
    requires Tag(head) && Tag(tail) && Tag(p)
    ensures Has(pre + Framed(head, c, tail) + post, p, i) <==>
        || Has(pre, p, i)
        || Has(head, p, i - |pre|)
        || Has(c, p, i - |pre| - |head| - 1)
        || Has(tail, p, i - |pre| - |head| - |c| - 2)
        || Has(post, p, i - |pre| - |head| - |c| - 2 - |tail|)
  {
    var f := Framed(head, c, tail);
    assert f[0] == head[0] && f[|f| - 1] == tail[|tail| - 1];
    HasParts(pre + f, post, p, i);
    HasParts(pre, f, p, i);
    HasInFrame(head, c, tail, p, i - |pre|);
  }

  datatype Found = Absent | Present(pre: string, content: string, post: string) | Damaged

  /** The frame between the tags `p` and `q` in `body`, judged by the number of tags. */
  function Find(body: string, p: string, q: string): Found
    requires p != "" && q != ""
  {
    var starts, ends := Count(body, p), Count(body, q);
    if starts == 0 && ends == 0 then Absent
    else if starts == 1 && ends == 1 then Cut(body, p, q)
    else Damaged
  }

  /** The leftmost frame, ended by the nearest closing tag after it. */
  function Cut(body: string, p: string, q: string): Found {
    var i := First(body, p + "\n");
    if i < 0 then Damaged
    else
      var rest := body[i + |p| + 1..];
      var j := First(rest, "\n" + q);
      if j < 0 then Damaged
      else Present(body[..i], rest[..j], rest[j + 1 + |q|..])
  }

  ghost predicate Clear(s: string, p: string, q: string) {
    FreeOf(s, p) && FreeOf(s, q)
  }

  ghost predicate Pair(p: string, q: string) {
    Tag(p) && Tag(q) && FreeOf(p, q) && FreeOf(q, p)
  }

  lemma FindAbsent(body: string, p: string, q: string)
    requires p != "" && q != ""
    ensures Find(body, p, q) == Absent <==> Clear(body, p, q)
  {
    CountZero(body, p);
    CountZero(body, q);
  }

  lemma TagInItself(p: string, i: int)
    requires Tag(p)
    ensures Has(p, p, i) <==> i == 0
  {
    assert p[0..0 + |p|] == p;
  }

  /** With nothing else around, the two tags of a frame stand once each. */
  lemma FrameTags(pre: string, p: string, c: string, q: string, post: string)
    requires Pair(p, q) && Clear(pre, p, q) && Clear(c, p, q) && Clear(post, p, q)
    ensures Unique(pre + Framed(p, c, q) + post, p, |pre|)
    ensures Unique(pre + Framed(p, c, q) + post, q, |pre| + |p| + |c| + 2)
  {
    var body := pre + Framed(p, c, q) + post;
    forall i ensures Has(body, p, i) <==> i == |pre| {
      HasFramed(pre, p, c, q, post, p, i);
      TagInItself(p, i - |pre|);
    }
    forall i ensures Has(body, q, i) <==> i == |pre| + |p| + |c| + 2 {
      HasFramed(pre, p, c, q, post, q, i);
      TagInItself(q, i - |pre| - |p| - |c| - 2);
    }
  }

  lemma FirstOpening(pre: string, p: string, rest: string)
    requires Unique(pre + (p + "\n") + rest, p, |pre|)
    ensures First(pre + (p + "\n") + rest, p + "\n") == |pre|
  {
    assert (p + "\n")[0..|p|] == p;
    FirstAt(pre, p + "\n", rest, p, 0);
  }

  lemma FirstClosing(before: string, c: string, q: string, post: string)
    requires Unique(before + (c + ("\n" + q) + post), q, |before| + |c| + 1)
    ensures First(c + ("\n" + q) + post, "\n" + q) == |c|
  {
    var rest := c + ("\n" + q) + post;
    forall j | Has(rest, q, j) ensures j == |c| + 1 {
      HasRight(before, rest, q, j);
    }
    assert ("\n" + q)[1..1 + |q|] == q;
    FirstAt(c, "\n" + q, post, q, 1);
  }

  lemma Cuts(a: string, b: string, c: string)
    ensures (a + b + c)[..|a|] == a
    ensures (a + b + c)[|a|..|a| + |b|] == b
    ensures (a + b + c)[|a| + |b|..] == c
  {
  }

  /** What Cut returns once the two searches it makes are known. */
  lemma CutSteps(pre: string, x: string, p: string, c: string, y: string, q: string, post: string)
    requires x == p + "\n" && y == "\n" + q
    requires First(pre + x + (c + y + post), x) == |pre|
    requires First(c + y + post, y) == |c|
    ensures Cut(pre + x + (c + y + post), p, q) == Present(pre, c, post)
  {
    Cuts(pre, x, c + y + post);
    Cuts(c, y, post);
  }

  lemma FindPresent(pre: string, p: string, c: string, q: string, post: string)
    requires Pair(p, q) && Clear(pre, p, q) && Clear(c, p, q) && Clear(post, p, q)
    ensures Find(pre + Framed(p, c, q) + post, p, q) == Present(pre, c, post)
  {
    var body := pre + Framed(p, c, q) + post;
    FrameTags(pre, p, c, q, post);
    CountOne(body, p, |pre|);
    CountOne(body, q, |pre| + |p| + |c| + 2);
    CutPresent(pre, p + "\n", p, c, "\n" + q, q, post, c + ("\n" + q) + post);
  }

  lemma CutPresent(pre: string, x: string, p: string, c: string, y: string, q: string, post: string, rest: string)
    requires x == p + "\n" && y == "\n" + q && rest == c + y + post
    requires Unique(pre + (x + c + y) + post, p, |pre|)
    requires Unique(pre + (x + c + y) + post, q, |pre| + |x| + |c| + 1)
    ensures Cut(pre + (x + c + y) + post, p, q) == Present(pre, c, post)
  {
    var body := pre + (x + c + y) + post;
    assert body == pre + x + rest;
    FirstOpening(pre, p, rest);
    FirstClosing(pre + x, c, q, post);
    CutSteps(pre, x, p, c, y, q, post);
  }

  /** What Find reports as present is the body itself, cut in three around its only frame. */
  lemma FindShape(body: string, p: string, q: string)
    requires Tag(p) && Tag(q) && Find(body, p, q).Present?
    ensures var Present(pre, c, post) := Find(body, p, q);
      body == pre + Framed(p, c, q) + post && Clear(pre, p, q) && Clear(c, p, q) && Clear(post, p, q)
  {
    var Present(pre, c, post) := Find(body, p, q);
    FindIsCut(body, p, q);
    CountOne(body, p, First(body, p));
    CountOne(body, q, First(body, q));
    OnlyOnce(pre, p, c, q, post, p);
    OnlyOnce(pre, p, c, q, post, q);
  }

  lemma FindIsCut(body: string, p: string, q: string)
    requires p != "" && q != "" && Find(body, p, q).Present?
    ensures var Present(pre, c, post) := Find(body, p, q);
      body == pre + Framed(p, c, q) + post
  {
    var x, y := p + "\n", "\n" + q;
    var Present(pre, c, post) := Cut(body, p, q);
    var rest := body[|pre| + |x|..];
    SplitAt(body, x, |pre|);
    SplitAt(rest, y, |c|);
    Regroup(pre, x, c, y, post);
  }

  lemma Regroup(a: string, b: string, c: string, d: string, e: string)
    ensures a + b + (c + d + e) == a + (b + c + d) + e
  {
  }

  lemma SplitAt(s: string, p: string, i: int)
    requires Has(s, p, i)
    ensures s == s[..i] + p + s[i + |p|..]
  {
  }

  lemma OnlyOnce(pre: string, p: string, c: string, q: string, post: string, x: string)
    requires Tag(p) && Tag(q) && (x == p || x == q)
    requires exists k :: Unique(pre + Framed(p, c, q) + post, x, k)
    ensures FreeOf(pre, x) && FreeOf(c, x) && FreeOf(post, x)
  {
    var body := pre + Framed(p, c, q) + post;
    var at := if x == p then |pre| else |pre| + |p| + |c| + 2;
    HasFramed(pre, p, c, q, post, x, at);
    TagInItself(x, 0);
    forall i ensures !Has(pre, x, i) && !Has(c, x, i) && !Has(post, x, i) {
      HasFramed(pre, p, c, q, post, x, i);
      HasFramed(pre, p, c, q, post, x, i + |pre| + |p| + 1);
      HasFramed(pre, p, c, q, post, x, i + |pre| + |p| + |c| + 2 + |q|);
    }
  }

  /** Two frames in one text, neither holding the other's opening tag, do not overlap. */
  lemma FramesApart(pre: string, p: string, c: string, q: string, post: string,
                    pre': string, p': string, c': string, q': string, post': string)
    requires pre + Framed(p, c, q) + post == pre' + Framed(p', c', q') + post'
    requires Tag(p) && Tag(q) && Tag(p') && Tag(q')
    requires FreeOf(p, p') && FreeOf(q, p') && FreeOf(p', p) && FreeOf(q', p)
    requires FreeOf(c, p') && FreeOf(c', p)
    ensures |pre'| + |Framed(p', c', q')| <= |pre| || |pre| + |Framed(p, c, q)| <= |pre'|
  {
    TagInItself(p, 0);
    TagInItself(p', 0);
    HasFramed(pre, p, c, q, post, p, |pre|);
    HasFramed(pre', p', c', q', post', p', |pre'|);
    HasFramed(pre, p, c, q, post, p', |pre'|);
    HasFramed(pre', p', c', q', post', p, |pre|);
  }
}
