/** A body under any sequence of writes and cuts, and what cutting can do to the rest of it. */
module Documents {
  import opened Blocks
  import opened Texts

  datatype Op = Put(name: Name, content: string) | Cut(name: Name)

  /** One operation; a refused one leaves the body as it is. */
  function Perform(body: string, op: Op): string {
    var r := match op case Put(n, c) => Write(body, n, c) case Cut(n) => Strip(body, n);
    if r.Ok? then r.value else body
  }

  function PerformAll(body: string, ops: seq<Op>): string
    decreases |ops|
  {
    if ops == [] then body else PerformAll(Perform(body, ops[0]), ops[1..])
  }

  /** The same operation on a plain map from names to contents. */
  function Plain(m: map<Name, string>, op: Op): map<Name, string> {
    match op
    case Put(n, c) => if Marked(c) then m else m[n := c]
    case Cut(n) => m - {n}
  }

  function PlainAll(m: map<Name, string>, ops: seq<Op>): map<Name, string>
    decreases |ops|
  {
    if ops == [] then m else PlainAll(Plain(m, ops[0]), ops[1..])
  }

  function Lookup(m: map<Name, string>, n: Name): Option<string> {
    if n in m then Some(m[n]) else None
  }

  ghost predicate Agree(body: string, m: map<Name, string>) {
    Good(body) && forall n: Name :: Slot(body, n) == Lookup(m, n)
  }

  lemma ReadIsSlot(body: string, n: Name)
    requires Good(body)
    ensures Read(body, n) == Ok(Slot(body, n))
  {
    assert InPlace(body, n);
  }

  lemma PerformAgrees(body: string, m: map<Name, string>, op: Op)
    requires Agree(body, m)
    ensures Agree(Perform(body, op), Plain(m, op))
  {
    match op
    case Put(n, c) => WriteGood(body, n, c); MarkedOrNot(c);
    case Cut(n) => StripGood(body, n);
  }

  lemma {:induction false} PerformAllAgrees(body: string, m: map<Name, string>, ops: seq<Op>)
    requires Agree(body, m)
    ensures Agree(PerformAll(body, ops), PlainAll(m, ops))
    decreases |ops|
  {
    if ops != [] {
      PerformAgrees(body, m, ops[0]);
      PerformAllAgrees(Perform(body, ops[0]), Plain(m, ops[0]), ops[1..]);
    }
  }

  // ---------------------------------------------------------------------------------------------
  // The text outside the blocks

  const NAMES: seq<Name> := [MvpPlan, Grow, HowToDemo, Asked, Answers, Drafted]

  function Without(body: string, n: Name): string {
    Perform(body, Cut(n))
  }

  function WithoutAll(body: string, names: seq<Name>): string
    decreases |names|
  {
    if names == [] then body else WithoutAll(Without(body, names[0]), names[1..])
  }

  /** The body with every block cut out of it. */
  function Outside(body: string): string {
    WithoutAll(body, NAMES)
  }

  ghost predicate NewLines(w: string) {
    forall i :: 0 <= i < |w| ==> w[i] == '\n'
  }

  /** Cutting a later block out, then the one before it. */
  lemma WithoutLater(pre: string, m: Name, d: string, mid: string, n: Name, c: string, post: string)
    requires m != n && Unmarked(c) && Seam(mid, post)
    requires ClearOf(pre, m) && ClearOf(d, m) && ClearOf(mid + Block(n, c) + post, m)
    ensures Without((pre + Block(m, d) + mid) + post, m) == pre + mid + post
  {
    ClearAround(mid, n, c, post, m);
    ClearJoin(mid, post, m);
    Associate(pre + Block(m, d), mid, post);
    MatchPresent(pre, m, d, mid + post);
    Associate(pre, mid, post);
  }

  /** Cutting an earlier block out, then the one after it. */
  lemma WithoutEarlier(pre: string, m: Name, d: string, mid: string, n: Name, c: string, post: string)
    requires m != n && Unmarked(d) && Seam(pre, mid)
    requires ClearOf(post, n) && ClearOf(c, n) && ClearOf(pre + Block(m, d) + mid, n)
    ensures Without(pre + (mid + Block(n, c) + post), n) == pre + mid + post
  {
    ClearAround(pre, m, d, mid, n);
    ClearJoin(pre, mid, n);
    assert pre + (mid + Block(n, c) + post) == (pre + mid) + Block(n, c) + post;
    MatchPresent(pre + mid, n, c, post);
  }

  lemma WithoutPair(body: string, n: Name, m: Name, mid: string)
    requires Good(body) && m != n && Match(body, n).Present? && Match(body, m).Present?
    requires Match(body, n).pre == Match(body, m).pre + Block(m, Match(body, m).content) + mid
    requires Match(body, m).post == mid + Block(n, Match(body, n).content) + Match(body, n).post
    ensures Without(Without(body, n), m) == Without(Without(body, m), n)
  {
    var Present(pre, c, post) := Match(body, n);
    var Present(pre', d, post') := Match(body, m);
    assert InPlace(body, n) && InPlace(body, m);
    MatchShape(body, n);
    MatchShape(body, m);
    WithoutLater(pre', m, d, mid, n, c, post);
    WithoutEarlier(pre', m, d, mid, n, c, post);
  }

  lemma WithoutCommutes(body: string, n: Name, m: Name)
    requires Good(body)
    ensures Without(Without(body, n), m) == Without(Without(body, m), n)
  {
    if m != n {
      if Slot(body, n).Some? && Slot(body, m).Some? {
        assert InPlace(body, n) && InPlace(body, m);
        var mid, before := Neighbours(body, n, m);
        if before { WithoutPair(body, n, m, mid); } else { WithoutPair(body, m, n, mid); }
      } else if Slot(body, n).Some? {
        WithoutNone(body, m);
        WithoutStaysNone(body, n, m);
      } else {
        WithoutNone(body, n);
        WithoutStaysNone(body, m, n);
      }
    }
  }

  lemma WithoutNone(body: string, n: Name)
    requires Good(body) && Slot(body, n) == None
    ensures Without(body, n) == body
  {
    assert InPlace(body, n);
  }

  lemma WithoutStaysNone(body: string, n: Name, m: Name)
    requires Good(body) && m != n && Slot(body, m) == None
    ensures Without(Without(body, n), m) == Without(body, n)
  {
    StripGood(body, n);
    WithoutNone(Without(body, n), m);
  }

  lemma WithoutTwice(body: string, n: Name)
    requires Good(body)
    ensures Without(Without(body, n), n) == Without(body, n)
  {
    StripGood(body, n);
  }

  lemma NewLinesClear(w: string, n: Name)
    requires NewLines(w)
    ensures ClearOf(w, n)
  {
    MarkIsTag(n, true);
    MarkIsTag(n, false);
    forall o: bool, i ensures !Has(w, Mark(n, o), i) {
      if Has(w, Mark(n, o), i) { Letters(w, Mark(n, o), i); }
    }
  }

  lemma WithoutAppend(body: string, w: string, n: Name)
    requires InPlace(body, n) && NewLines(w)
    ensures Without(body + w, n) == Without(body, n) + w
  {
    NewLinesClear(w, n);
    if Match(body, n).Present? {
      var Present(pre, c, post) := Match(body, n);
      MatchShape(body, n);
      ClearJoin(post, w, n);
      Associate(pre + Block(n, c), post, w);
      MatchPresent(pre, n, c, post + w);
      Associate(pre, post, w);
    } else {
      MatchAbsent(body, n);
      ClearJoin(body, w, n);
      MatchAbsent(body + w, n);
    }
  }

  lemma {:induction false} WithoutAllAppend(body: string, w: string, names: seq<Name>)
    requires Good(body) && NewLines(w)
    ensures WithoutAll(body + w, names) == WithoutAll(body, names) + w
    decreases |names|
  {
    if names != [] {
      assert InPlace(body, names[0]);
      WithoutAppend(body, w, names[0]);
      StripGood(body, names[0]);
      WithoutAllAppend(Without(body, names[0]), w, names[1..]);
    }
  }

  lemma {:induction false} WithoutAbsorbed(body: string, n: Name, names: seq<Name>)
    requires Good(body) && n in names
    ensures WithoutAll(Without(body, n), names) == WithoutAll(body, names)
    decreases |names|
  {
    if n == names[0] {
      WithoutTwice(body, n);
    } else {
      WithoutCommutes(body, n, names[0]);
      StripGood(body, names[0]);
      WithoutAbsorbed(Without(body, names[0]), n, names[1..]);
    }
  }

  lemma EveryName(n: Name)
    ensures n in NAMES
  {
    assert NAMES == [MvpPlan, Grow, HowToDemo, Asked, Answers, Drafted];
    assert NAMES[0] == MvpPlan && NAMES[1] == Grow && NAMES[2] == HowToDemo;
    assert NAMES[3] == Asked && NAMES[4] == Answers && NAMES[5] == Drafted;
  }

  lemma SameElsewhere(body: string, b: string, n: Name, names: seq<Name>, w: string)
    requires Good(body) && Good(b) && Good(Without(body, n)) && NewLines(w) && n in names
    requires Without(b, n) == Without(body, n) + w
    ensures WithoutAll(b, names) == WithoutAll(body, names) + w
  {
    WithoutAbsorbed(b, n, names);
    WithoutAbsorbed(body, n, names);
    WithoutAllAppend(Without(body, n), w, names);
  }

  lemma GapLine(body: string) returns (w: string)
    ensures NewLines(w) && body + Gap(body) + "\n" == body + w
  {
    w := Gap(body) + "\n";
  }

  lemma PutWithout(body: string, n: Name, c: string) returns (w: string)
    requires Good(body) && Write(body, n, c).Ok?
    ensures NewLines(w) && Without(Write(body, n, c).value, n) == Without(body, n) + w
  {
    StripAfterWrite(body, n, c);
    if Match(body, n).Present? {
      w := "";
    } else {
      assert InPlace(body, n);
      w := GapLine(body);
    }
  }

  /** An operation changes nothing outside the blocks, save for line ends added at the end. */
  lemma PerformOutside(body: string, op: Op) returns (w: string)
    requires Good(body)
    ensures NewLines(w) && Outside(Perform(body, op)) == Outside(body) + w
  {
    w := "";
    if op.Put? && Write(body, op.name, op.content).Ok? {
      EveryName(op.name);
      w := PutWithout(body, op.name, op.content);
      WriteGood(body, op.name, op.content);
      StripGood(body, op.name);
      SameElsewhere(body, Write(body, op.name, op.content).value, op.name, NAMES, w);
    } else if op.Cut? {
      EveryName(op.name);
      WithoutAbsorbed(body, op.name, NAMES);
    }
  }

  lemma {:induction false} PerformAllOutside(body: string, ops: seq<Op>) returns (w: string)
    requires Good(body)
    ensures NewLines(w) && Outside(PerformAll(body, ops)) == Outside(body) + w
    decreases |ops|
  {
    if ops == [] {
      w := "";
    } else {
      var v := PerformOutside(body, ops[0]);
      PerformAgrees(body, SlotsOf(body), ops[0]);
      var u := PerformAllOutside(Perform(body, ops[0]), ops[1..]);
      w := v + u;
    }
  }

  ghost function SlotsOf(body: string): (m: map<Name, string>)
    requires Good(body)
    ensures Agree(body, m)
  {
    map n: Name | Slot(body, n).Some? :: Slot(body, n).value
  }

  lemma UnmarkedIsGood(body: string)
    requires Unmarked(body)
    ensures Good(body) && Outside(body) == body && forall n: Name :: Slot(body, n) == None
  {
    forall n: Name ensures Match(body, n).Absent? {
      assert ClearOf(body, n);
      MatchAbsent(body, n);
    }
    UntouchedAll(body, NAMES);
  }

  lemma {:induction false} UntouchedAll(body: string, names: seq<Name>)
    requires forall n: Name :: Match(body, n).Absent?
    ensures WithoutAll(body, names) == body
    decreases |names|
  {
    if names != [] { UntouchedAll(body, names[1..]); }
  }

  /**
   * From a body without markers, after any writes and cuts: reading any block gives what a plain map
   * under the same operations holds, and the text outside the blocks is the old body and line ends after it.
   */
  lemma BodyIsMap(body: string, ops: seq<Op>) returns (w: string)
    requires Unmarked(body)
    ensures forall n: Name :: Read(PerformAll(body, ops), n) == Ok(Lookup(PlainAll(map[], ops), n))
    ensures NewLines(w) && Outside(PerformAll(body, ops)) == body + w
  {
    UnmarkedIsGood(body);
    PerformAllAgrees(body, map[], ops);
    w := PerformAllOutside(body, ops);
    forall n: Name ensures Read(PerformAll(body, ops), n) == Ok(Lookup(PlainAll(map[], ops), n)) {
      ReadIsSlot(PerformAll(body, ops), n);
    }
  }
}
