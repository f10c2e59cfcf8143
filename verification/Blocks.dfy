/** Named blocks inside an issue body: finding, reading, writing and cutting them out. */
module Blocks {
  import opened Frames
  import opened Texts

  datatype Name = MvpPlan | Grow | HowToDemo | Asked | Answers | Drafted

  function Label(n: Name): string {
    match n
    case MvpPlan => "mvp-plan"
    case Grow => "grow"
    case HowToDemo => "howtodemo"
    case Asked => "question"
    case Answers => "answers"
    case Drafted => "answer-draft"
  }

  /** The opening (`opens`) or closing marker of a block. */
  function Mark(n: Name, opens: bool): string {
    "<!-- harness:" + Label(n) + (if opens then ":start -->" else ":end -->")
  }

  function Block(n: Name, content: string): string {
    Framed(Mark(n, true), content, Mark(n, false))
  }

  /** The structure of block `n` in `body`, judged by the number of its markers. */
  function Match(body: string, n: Name): Found {
    Find(body, Mark(n, true), Mark(n, false))
  }

  function Read(body: string, n: Name): Result<Option<string>> {
    match Match(body, n)
    case Absent => Ok(None)
    case Present(_, content, _) => Ok(Some(content))
    case Damaged => Err(DamagedBlock)
  }

  predicate Marked(content: string) {
    exists n: Name :: HoldsMark(content, n)
  }

  predicate HoldsMark(content: string, n: Name) {
    0 <= First(content, Mark(n, true)) || 0 <= First(content, Mark(n, false))
  }

  function Write(body: string, n: Name, content: string): Result<string> {
    if Marked(content) then Err(MarkedContent)
    else
      match Match(body, n)
      case Present(pre, _, post) => Ok(pre + Block(n, content) + post)
      case Absent => Ok(body + Gap(body) + Block(n, content) + "\n")
      case Damaged => Err(DamagedBlock)
  }

  /** The line ends put between the old body and a block added at its end. */
  function Gap(body: string): string {
    if body != "" && body[|body| - 1] == '\n' then "\n" else "\n\n"
  }

  function Strip(body: string, n: Name): Result<string> {
    match Match(body, n)
    case Absent => Ok(body)
    case Present(pre, _, post) => Ok(pre + post)
    case Damaged => Err(DamagedBlock)
  }

  function DiscardDraft(body: string): string {
    Remove(Remove(body, Mark(Drafted, true)), Mark(Drafted, false))
  }

  // ---------------------------------------------------------------------------------------------
  // Markers

  predicate Calm(s: string) {
    forall k :: 0 <= k < |s| ==> s[k] != '<' && s[k] != '>' && s[k] != '\n'
  }

  lemma LabelIsCalm(n: Name)
    ensures Calm(Label(n))
  {
  }

  lemma MarkIsTag(n: Name, o: bool)
    ensures Tag(Mark(n, o)) && |Mark(n, o)| == |Label(n)| + (if o then 23 else 21)
  {
    LabelIsCalm(n);
    var a := "!-- harness:";
    assert "<!-- harness:" == "<" + a;
    if o {
      assert ":start -->" == ":start --" + ">";
      CalmTag(a, Label(n), ":start --");
    } else {
      assert ":end -->" == ":end --" + ">";
      CalmTag(a, Label(n), ":end --");
    }
  }

  lemma CalmTag(a: string, b: string, z: string)
    requires Calm(a) && Calm(b) && Calm(z)
    ensures Tag(("<" + a) + b + (z + ">"))
  {
    var p := ("<" + a) + b + (z + ">");
    forall k | 0 < k < |p| - 1 ensures p[k] != '<' && p[k] != '>' && p[k] != '\n' {
      assert p[k] == if k <= |a| then a[k - 1] else if k <= |a| + |b| then b[k - 1 - |a|] else z[k - 1 - |a| - |b|];
    }
  }

  lemma MarkInjective(n: Name, o: bool, m: Name, p: bool)
    requires Mark(n, o) == Mark(m, p)
    ensures n == m && o == p
  {
    var x, y := Mark(n, o), Mark(m, p);
    assert x[|x| - 5] == y[|y| - 5];
    assert x[13] == y[13];
  }

  ghost predicate Unmarked(s: string) {
    forall n: Name, o: bool :: FreeOf(s, Mark(n, o))
  }

  lemma MarkedOrNot(s: string)
    ensures Marked(s) <==> !Unmarked(s)
  {
    if !Unmarked(s) {
      var n: Name, o: bool, i: int :| Has(s, Mark(n, o), i);
      assert HoldsMark(s, n);
    }
    if Marked(s) {
      var n: Name :| HoldsMark(s, n);
      assert 0 <= First(s, Mark(n, true)) ==> !FreeOf(s, Mark(n, true));
      assert 0 <= First(s, Mark(n, false)) ==> !FreeOf(s, Mark(n, false));
    }
  }

  /** A marker stands in a marker only as the whole of it. */
  lemma MarkInMark(n: Name, o: bool, m: Name, p: bool, i: int)
    ensures Has(Mark(n, o), Mark(m, p), i) <==> n == m && o == p && i == 0
  {
    MarkIsTag(n, o);
    MarkIsTag(m, p);
    assert Has(Mark(n, o), Mark(n, o), 0);
    if Has(Mark(n, o), Mark(m, p), i) {
      TagsApart(Mark(n, o), Mark(n, o), 0, Mark(m, p), i);
      MarkInjective(n, o, m, p);
    }
  }

  /** Where markers stand in a body that holds a block: in the text around it, in its content, or at its two ends. */
  lemma MarksAround(pre: string, n: Name, c: string, post: string, m: Name, o: bool, i: int)
    ensures Has(pre + Block(n, c) + post, Mark(m, o), i) <==>
        || Has(pre, Mark(m, o), i)
        || (m == n && o && i == |pre|)
        || Has(c, Mark(m, o), i - |pre| - |Mark(n, true)| - 1)
        || (m == n && !o && i == |pre| + |Mark(n, true)| + |c| + 2)
        || Has(post, Mark(m, o), i - |pre| - |Block(n, c)|)
  {
    MarkIsTag(m, o);
    MarkIsTag(n, true);
    MarkIsTag(n, false);
    MarkInMark(n, true, m, o, i - |pre|);
    MarkInMark(n, false, m, o, i - |pre| - |Mark(n, true)| - |c| - 2);
    TagsAround(pre, Mark(n, true), c, Mark(n, false), post, Mark(m, o), i, m == n && o, m == n && !o);
  }

  lemma TagsAround(pre: string, head: string, c: string, tail: string, post: string, p: string, i: int, h: bool, t: bool)
    requires Tag(head) && Tag(tail) && Tag(p)
    requires Has(head, p, i - |pre|) <==> h && i == |pre|
    requires Has(tail, p, i - |pre| - |head| - |c| - 2) <==> t && i == |pre| + |head| + |c| + 2
    ensures Has(pre + Framed(head, c, tail) + post, p, i) <==>
        || Has(pre, p, i)
        || (h && i == |pre|)
        || Has(c, p, i - |pre| - |head| - 1)
        || (t && i == |pre| + |head| + |c| + 2)
        || Has(post, p, i - |pre| - |Framed(head, c, tail)|)
  {
    HasFramed(pre, head, c, tail, post, p, i);
  }

  // ---------------------------------------------------------------------------------------------
  // Any body at all

  ghost predicate ClearOf(s: string, n: Name) {
    Clear(s, Mark(n, true), Mark(n, false))
  }

  lemma MarkPair(n: Name)
    ensures Pair(Mark(n, true), Mark(n, false))
  {
    MarkIsTag(n, true);
    MarkIsTag(n, false);
    forall i ensures !Has(Mark(n, true), Mark(n, false), i) && !Has(Mark(n, false), Mark(n, true), i) {
      MarkInMark(n, true, n, false, i);
      MarkInMark(n, false, n, true, i);
    }
  }

  lemma MatchAbsent(body: string, n: Name)
    ensures Match(body, n) == Absent <==> ClearOf(body, n)
  {
    FindAbsent(body, Mark(n, true), Mark(n, false));
  }

  lemma MatchPresent(pre: string, n: Name, c: string, post: string)
    requires ClearOf(pre, n) && ClearOf(c, n) && ClearOf(post, n)
    ensures Match(pre + Block(n, c) + post, n) == Present(pre, c, post)
  {
    MarkPair(n);
    FindPresent(pre, Mark(n, true), c, Mark(n, false), post);
  }

  lemma MatchShape(body: string, n: Name)
    requires Match(body, n).Present?
    ensures var Present(pre, c, post) := Match(body, n);
      body == pre + Block(n, c) + post && ClearOf(pre, n) && ClearOf(c, n) && ClearOf(post, n)
  {
    MarkPair(n);
    FindShape(body, Mark(n, true), Mark(n, false));
  }

  /** A block the code can read is exactly one that a body cut in three around it shows, with no marker of it elsewhere. */
  lemma MatchIff(body: string, n: Name, pre: string, c: string, post: string)
    ensures Match(body, n) == Present(pre, c, post) <==>
      body == pre + Block(n, c) + post && ClearOf(pre, n) && ClearOf(c, n) && ClearOf(post, n)
  {
    if Match(body, n) == Present(pre, c, post) { MatchShape(body, n); }
    if body == pre + Block(n, c) + post && ClearOf(pre, n) && ClearOf(c, n) && ClearOf(post, n) {
      MatchPresent(pre, n, c, post);
    }
  }

  lemma ClearJoin(a: string, b: string, n: Name)
    requires Seam(a, b)
    ensures ClearOf(a + b, n) <==> ClearOf(a, n) && ClearOf(b, n)
  {
    MarkIsTag(n, true);
    MarkIsTag(n, false);
    FreeParts(a, b, Mark(n, true));
    FreeParts(a, b, Mark(n, false));
  }

  /** The place a block takes in the body that Write returns. */
  lemma WritePlace(body: string, n: Name, c: string)
    requires Write(body, n, c).Ok?
    ensures Unmarked(c)
    ensures Match(body, n).Present? ==>
      Match(Write(body, n, c).value, n) == Present(Match(body, n).pre, c, Match(body, n).post)
    ensures Match(body, n).Absent? ==> Match(Write(body, n, c).value, n) == Present(body + Gap(body), c, "\n")
  {
    MarkedOrNot(c);
    assert ClearOf(c, n);
    if Match(body, n).Present? {
      MatchShape(body, n);
      MatchPresent(Match(body, n).pre, n, c, Match(body, n).post);
    } else {
      MatchAbsent(body, n);
      MarkIsTag(n, true);
      MarkIsTag(n, false);
      assert ClearOf("\n", n) && ClearOf("\n\n", n);
      ClearJoin(body, Gap(body), n);
      MatchPresent(body + Gap(body), n, c, "\n");
    }
  }

  /** What was written is read back to the letter, on any body. */
  lemma ReadAfterWrite(body: string, n: Name, c: string)
    requires Write(body, n, c).Ok?
    ensures Read(Write(body, n, c).value, n) == Ok(Some(c))
  {
    WritePlace(body, n, c);
  }

  /** A second write leaves no trace of the first, on any body. */
  lemma WriteOverWrite(body: string, n: Name, c: string, d: string)
    requires Write(body, n, c).Ok?
    ensures Write(Write(body, n, c).value, n, d) == Write(body, n, d)
  {
    WritePlace(body, n, c);
  }

  /** Write refuses exactly on marked content and on a damaged block, and says which. */
  lemma WriteRefuses(body: string, n: Name, c: string)
    ensures Write(body, n, c) == Err(MarkedContent) <==> !Unmarked(c)
    ensures Write(body, n, c) == Err(DamagedBlock) <==> Unmarked(c) && Read(body, n).Err?
    ensures Strip(body, n).Err? <==> Read(body, n).Err?
  {
    MarkedOrNot(c);
  }

  /** A block added or replaced and then cut out: the body without it, up to line ends at its end. */
  lemma StripAfterWrite(body: string, n: Name, c: string)
    requires Write(body, n, c).Ok?
    ensures Strip(Write(body, n, c).value, n) ==
      if Match(body, n).Present? then Strip(body, n) else Ok(body + Gap(body) + "\n")
  {
    WritePlace(body, n, c);
  }

  // ---------------------------------------------------------------------------------------------
  // Bodies whose blocks stand on lines of their own

  ghost predicate OnLines(pre: string, post: string) {
    (pre == "" || pre[|pre| - 1] == '\n') && (post == "" || post[0] == '\n')
  }

  ghost predicate InPlace(body: string, n: Name) {
    match Match(body, n)
    case Absent => true
    case Present(pre, c, post) => Unmarked(c) && OnLines(pre, post)
    case Damaged => false
  }

  ghost predicate Good(body: string) {
    forall n: Name :: InPlace(body, n)
  }

  /** The content of block `n`, if the body has a readable one. */
  function Slot(body: string, n: Name): Option<string> {
    match Match(body, n)
    case Present(_, c, _) => Some(c)
    case _ => None
  }

  lemma ClearAround(pre: string, n: Name, c: string, post: string, m: Name)
    requires m != n && ClearOf(c, m)
    ensures ClearOf(pre + Block(n, c) + post, m) <==> ClearOf(pre, m) && ClearOf(post, m)
  {
    FreeAround(pre, n, c, post, m, true);
    FreeAround(pre, n, c, post, m, false);
  }

  lemma FreeAround(pre: string, n: Name, c: string, post: string, m: Name, o: bool)
    requires m != n && FreeOf(c, Mark(m, o))
    ensures FreeOf(pre + Block(n, c) + post, Mark(m, o)) <==> FreeOf(pre, Mark(m, o)) && FreeOf(post, Mark(m, o))
  {
    forall i ensures Has(pre + Block(n, c) + post, Mark(m, o), i) <==>
        Has(pre, Mark(m, o), i) || Has(post, Mark(m, o), i - |pre| - |Block(n, c)|) {
      MarksAround(pre, n, c, post, m, o, i);
    }
    forall i | Has(post, Mark(m, o), i) ensures Has(pre + Block(n, c) + post, Mark(m, o), i + |pre| + |Block(n, c)|) {
      MarksAround(pre, n, c, post, m, o, i + |pre| + |Block(n, c)|);
    }
  }

  /** Of two blocks, neither with a marker of the other in its content, one stands wholly before the other. */
  lemma Neighbours(body: string, n: Name, m: Name) returns (mid: string, before: bool)
    requires m != n && Match(body, n).Present? && Match(body, m).Present?
    requires ClearOf(Match(body, n).content, m) && ClearOf(Match(body, m).content, n)
    ensures var Present(pre, c, post) := Match(body, n);
      var Present(pre', c', post') := Match(body, m);
      if before then pre == pre' + Block(m, c') + mid && post' == mid + Block(n, c) + post
      else pre' == pre + Block(n, c) + mid && post == mid + Block(m, c') + post'
  {
    var Present(pre, c, post) := Match(body, n);
    var Present(pre', c', post') := Match(body, m);
    MatchShape(body, n);
    MatchShape(body, m);
    MarkPair(n);
    MarkPair(m);
    forall o: bool, i ensures !Has(Mark(n, o), Mark(m, true), i) && !Has(Mark(m, o), Mark(n, true), i) {
      MarkInMark(n, o, m, true, i);
      MarkInMark(m, o, n, true, i);
    }
    FramesApart(pre, Mark(n, true), c, Mark(n, false), post, pre', Mark(m, true), c', Mark(m, false), post');
    before := |pre'| + |Block(m, c')| <= |pre|;
    if before {
      mid := Between(pre', Block(m, c'), post', pre, Block(n, c), post);
    } else {
      mid := Between(pre, Block(n, c), post, pre', Block(m, c'), post');
    }
  }

  lemma Between(a: string, x: string, b: string, a': string, x': string, b': string) returns (mid: string)
    requires a + x + b == a' + x' + b' && |a| + |x| <= |a'|
    ensures a' == a + x + mid && b == mid + x' + b'
  {
    mid := a'[|a| + |x|..];
    var s := a + x + b;
    assert s[..|a'|] == a' && s[|a'|..] == x' + b';
    assert s[..|a| + |x|] == a + x && s[|a| + |x|..] == b;
  }

  lemma InPlaceAt(pre: string, m: Name, d: string, post: string)
    requires ClearOf(pre, m) && ClearOf(post, m) && Unmarked(d) && OnLines(pre, post)
    ensures InPlace(pre + Block(m, d) + post, m) && Slot(pre + Block(m, d) + post, m) == Some(d)
  {
    assert ClearOf(d, m);
    MatchPresent(pre, m, d, post);
  }

  lemma EndsOfBlock(n: Name, c: string)
    ensures Block(n, c) != "" && Block(n, c)[0] == '<' && Block(n, c)[|Block(n, c)| - 1] == '>'
  {
    MarkIsTag(n, true);
    MarkIsTag(n, false);
    assert Block(n, c)[0] == Mark(n, true)[0];
    assert Block(n, c)[|Block(n, c)| - 1] == Mark(n, false)[|Mark(n, false)| - 1];
  }

  /** The block `n` with new content, or nothing in its place. */
  function Piece(n: Name, c: Option<string>): string {
    if c.Some? then Block(n, c.value) else ""
  }

  ghost predicate UnmarkedOrNone(c: Option<string>) {
    c.Some? ==> Unmarked(c.value)
  }

  lemma ClearSwap(a: string, n: Name, old_: string, c: Option<string>, b: string, m: Name)
    requires m != n && Unmarked(old_) && UnmarkedOrNone(c) && Seam(a, b)
    requires ClearOf(a + Block(n, old_) + b, m)
    ensures ClearOf(a + Piece(n, c) + b, m)
  {
    ClearAround(a, n, old_, b, m);
    if c.Some? {
      ClearAround(a, n, c.value, b, m);
    } else {
      ClearJoin(a, b, m);
      assert a + "" + b == a + b;
    }
  }

  lemma Regroup(a: string, b: string, c: string, d: string, e: string)
    ensures (a + b + c) + d + e == a + b + (c + d + e)
  {
  }

  lemma LastOf(a: string, b: string)
    requires b != ""
    ensures (a + b)[|a + b| - 1] == b[|b| - 1]
  {
  }

  lemma FirstOf(a: string, b: string, c: string)
    requires a != ""
    ensures (a + b + c)[0] == a[0]
  {
  }

  /** A block that stands before the place of a change keeps its content. */
  lemma EarlierKeeps(pre: string, m: Name, d: string, mid: string, n: Name, old_: string, c: Option<string>, post: string)
    requires m != n && Unmarked(d) && Unmarked(old_) && UnmarkedOrNone(c)
    requires ClearOf(pre, m) && ClearOf(mid + Block(n, old_) + post, m)
    requires OnLines(pre, mid + Block(n, old_) + post) && OnLines(pre + Block(m, d) + mid, post)
    ensures var b := (pre + Block(m, d) + mid) + Piece(n, c) + post; InPlace(b, m) && Slot(b, m) == Some(d)
  {
    EndsOfBlock(n, old_);
    EndsOfBlock(m, d);
    if mid != "" { LastOf(pre + Block(m, d), mid); }
    LastOf(pre, Block(m, d));
    ClearSwap(mid, n, old_, c, post, m);
    var rest := mid + Piece(n, c) + post;
    Regroup(pre, Block(m, d), mid, Piece(n, c), post);
    assert pre + Block(m, d) + "" == pre + Block(m, d);
    assert mid != "";
    assert rest[0] == mid[0] == (mid + Block(n, old_) + post)[0];
    InPlaceAt(pre, m, d, rest);
  }

  /** A block that stands after the place of a change keeps its content. */
  lemma LaterKeeps(pre: string, n: Name, old_: string, c: Option<string>, mid: string, m: Name, d: string, post: string)
    requires m != n && Unmarked(d) && Unmarked(old_) && UnmarkedOrNone(c)
    requires ClearOf(post, m) && ClearOf(pre + Block(n, old_) + mid, m)
    requires OnLines(pre + Block(n, old_) + mid, post) && Seam(pre, mid)
    ensures var b := pre + Piece(n, c) + (mid + Block(m, d) + post); InPlace(b, m) && Slot(b, m) == Some(d)
  {
    EndsOfBlock(n, old_);
    LastOf(pre, Block(n, old_));
    assert pre + Block(n, old_) + "" == pre + Block(n, old_);
    assert mid != "";
    LastOf(pre + Block(n, old_), mid);
    LastOf(pre + Piece(n, c), mid);
    ClearSwap(pre, n, old_, c, mid, m);
    Regroup(pre, Piece(n, c), mid, Block(m, d), post);
    InPlaceAt(pre + Piece(n, c) + mid, m, d, post);
  }

  /** Replacing one block, or cutting it out, leaves every other block as it was. */
  lemma SwapKeeps(body: string, n: Name, c: Option<string>, m: Name)
    requires InPlace(body, n) && InPlace(body, m) && m != n && UnmarkedOrNone(c) && Match(body, n).Present?
    ensures var b := Match(body, n).pre + Piece(n, c) + Match(body, n).post;
      InPlace(b, m) && Slot(b, m) == Slot(body, m)
  {
    var Present(pre, c0, post) := Match(body, n);
    MatchShape(body, n);
    if Match(body, m).Present? {
      var Present(pre', d, post') := Match(body, m);
      MatchShape(body, m);
      var mid, before := Neighbours(body, n, m);
      if before {
        EarlierKeeps(pre', m, d, mid, n, c0, c, post);
      } else {
        if mid != "" { FirstOf(mid, Block(m, d), post'); }
        LaterKeeps(pre, n, c0, c, mid, m, d, post');
      }
    } else {
      MatchAbsent(body, m);
      ClearSwap(pre, n, c0, c, post, m);
      MatchAbsent(pre + Piece(n, c) + post, m);
    }
  }

  /** Where the other blocks stand once a block is added at the end. */
  lemma AppendMatch(body: string, n: Name, c: string, m: Name)
    requires m != n && Unmarked(c) && Match(body, m) != Damaged
    ensures var b := body + Gap(body) + Block(n, c) + "\n";
      Match(b, m) == if Match(body, m).Absent? then Absent
        else Present(Match(body, m).pre, Match(body, m).content,
          Match(body, m).post + Gap(body) + Block(n, c) + "\n")
  {
    var gap := Gap(body);
    MarkIsTag(m, true);
    MarkIsTag(m, false);
    assert ClearOf("\n", m) && ClearOf("\n\n", m);
    if Match(body, m).Present? {
      var Present(pre', d, post') := Match(body, m);
      MatchShape(body, m);
      ClearJoin(post', gap, m);
      ClearAround(post' + gap, n, c, "\n", m);
      AppendGroup(pre', Block(m, d), post', gap, Block(n, c), "\n");
      MatchPresent(pre', m, d, post' + gap + Block(n, c) + "\n");
    } else {
      MatchAbsent(body, m);
      ClearJoin(body, gap, m);
      ClearAround(body + gap, n, c, "\n", m);
      MatchAbsent(body + gap + Block(n, c) + "\n", m);
    }
  }

  /** Adding a block at the end leaves every other block as it was. */
  lemma AppendKeeps(body: string, n: Name, c: string, m: Name)
    requires InPlace(body, m) && m != n && Unmarked(c)
    ensures var b := body + Gap(body) + Block(n, c) + "\n";
      InPlace(b, m) && Slot(b, m) == Slot(body, m)
  {
    AppendMatch(body, n, c, m);
    if Match(body, m).Present? {
      OnLinesMore(Match(body, m).pre, Match(body, m).post, Gap(body), Block(n, c));
    }
  }

  lemma OnLinesMore(pre: string, post: string, gap: string, block: string)
    requires OnLines(pre, post) && gap != "" && gap[0] == '\n'
    ensures OnLines(pre, post + gap + block + "\n")
  {
  }

  lemma AppendGroup(a: string, b: string, c: string, d: string, e: string, f: string)
    ensures (a + b + c) + d + e + f == a + b + (c + d + e + f)
  {
  }

  /** On a good body Write refuses only marked content; it sets its own block and keeps the others, and the body stays good. */
  lemma WriteGood(body: string, n: Name, c: string)
    requires Good(body)
    ensures Write(body, n, c).Ok? <==> Unmarked(c)
    ensures Write(body, n, c).Ok? ==>
      var b := Write(body, n, c).value;
      Good(b) && Slot(b, n) == Some(c) && forall m: Name :: m != n ==> Slot(b, m) == Slot(body, m)
  {
    assert InPlace(body, n);
    MarkedOrNot(c);
    if Write(body, n, c).Ok? {
      var b := Write(body, n, c).value;
      WritePlace(body, n, c);
      assert InPlace(b, n);
      forall m: Name | m != n ensures InPlace(b, m) && Slot(b, m) == Slot(body, m) {
        assert InPlace(body, m);
        if Match(body, n).Present? { SwapKeeps(body, n, Some(c), m); } else { AppendKeeps(body, n, c, m); }
      }
    }
  }

  lemma CutKeeps(body: string, n: Name, m: Name)
    requires InPlace(body, n) && InPlace(body, m) && m != n && Match(body, n).Present?
    ensures var b := Match(body, n).pre + Match(body, n).post; InPlace(b, m) && Slot(b, m) == Slot(body, m)
  {
    SwapKeeps(body, n, None, m);
    assert Match(body, n).pre + "" == Match(body, n).pre;
  }

  lemma CutRemoves(body: string, n: Name)
    requires InPlace(body, n) && Match(body, n).Present?
    ensures Match(Match(body, n).pre + Match(body, n).post, n).Absent?
  {
    var Present(pre, _, post) := Match(body, n);
    MatchShape(body, n);
    ClearJoin(pre, post, n);
    MatchAbsent(pre + post, n);
  }

  /** On a good body Strip never refuses; it removes its own block and keeps the others, and the body stays good. */
  lemma StripGood(body: string, n: Name)
    requires Good(body)
    ensures Strip(body, n).Ok?
    ensures var b := Strip(body, n).value;
      Good(b) && Match(b, n).Absent? && Slot(b, n) == None &&
      forall m: Name :: m != n ==> Slot(b, m) == Slot(body, m)
  {
    assert InPlace(body, n);
    if Match(body, n).Present? {
      CutRemoves(body, n);
      forall m: Name | m != n
        ensures InPlace(Strip(body, n).value, m) && Slot(Strip(body, n).value, m) == Slot(body, m)
      {
        assert InPlace(body, m);
        CutKeeps(body, n, m);
      }
    }
  }
}
