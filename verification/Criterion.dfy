/** The acceptance criterion kept in the body of an issue. */
module Criterion {
  import opened Blocks
  import opened Chars
  import opened Repairs
  import opened Texts
  import opened Words

  /**
   * The criterion the gate reads: the approved block unless it is blank, else what the search for a
   * section under a heading (`section`) finds in the body without the blank block.
   */
  function ReadCriterion(body: string, section: string -> string): string {
    match Read(body, HowToDemo)
    case Ok(Some(approved)) =>
      if Trim(approved) != "" then Trim(approved) else section(Strip(body, HowToDemo).value)
    case _ => section(body)
  }

  function Heading(criterion: string): string {
    "## HowToDemo" + ("\n\n" + criterion + "\n\n") + ("## Тело задачи" + "\n\n")
  }

  /** The body with the criterion on top of it, in the form the acceptance agent looks for. */
  function Expose(body: string, section: string -> string): string {
    var criterion := ReadCriterion(body, section);
    if criterion == "" then body else Heading(criterion) + body
  }

  lemma {:induction false} TrimLeftIsSuffix(s: string, drop: char -> bool) returns (i: nat)
    ensures i <= |s| && TrimLeft(s, drop) == s[i..]
    decreases |s|
  {
    i := 0;
    if s != "" && drop(s[0]) {
      var k := TrimLeftIsSuffix(s[1..], drop);
      i := k + 1;
    }
  }

  lemma {:induction false} TrimRightIsPrefix(s: string, drop: char -> bool) returns (j: nat)
    ensures j <= |s| && TrimRight(s, drop) == s[..j]
    decreases |s|
  {
    j := |s|;
    if s != "" && drop(s[|s| - 1]) { j := TrimRightIsPrefix(s[..|s| - 1], drop); }
  }

  lemma TrimFree(s: string, p: string)
    requires FreeOf(s, p)
    ensures FreeOf(Trim(s), p)
  {
    var i := TrimLeftIsSuffix(s, IsSpace);
    var j := TrimRightIsPrefix(s[i..], IsSpace);
    var a, t, b := s[..i], s[i..][..j], s[i..][j..];
    assert s == a + (t + b);
    forall k ensures !Has(t, p, k) {
      if Has(t, p, k) {
        HasLeft(t, b, p, k);
        HasRight(a, t + b, p, k);
      }
    }
  }

  lemma HeadingClear(criterion: string)
    requires ClearOf(criterion, HowToDemo)
    ensures ClearOf(Heading(criterion), HowToDemo)
  {
    var gap := "\n\n" + criterion + "\n\n";
    TooShort("## HowToDemo");
    TooShort("\n\n");
    TooShort("## Тело задачи\n\n");
    assert "## Тело задачи" + "\n\n" == "## Тело задачи\n\n";
    ClearJoin("\n\n", criterion, HowToDemo);
    ClearJoin("\n\n" + criterion, "\n\n", HowToDemo);
    ClearJoin("## HowToDemo", gap, HowToDemo);
    ClearJoin("## HowToDemo" + gap, "## Тело задачи\n\n", HowToDemo);
  }

  /** An approved criterion is what both readers see: the gate in the body, the acceptance agent in the exposed body. */
  lemma ExposeKeepsApproved(body: string, section: string -> string)
    requires Match(body, HowToDemo).Present? && Trim(Match(body, HowToDemo).content) != ""
    ensures ReadCriterion(Expose(body, section), section) == ReadCriterion(body, section)
    ensures Expose(body, section) == Heading(Trim(Match(body, HowToDemo).content)) + body
  {
    var Present(pre, c, post) := Match(body, HowToDemo);
    MatchShape(body, HowToDemo);
    TrimFree(c, Mark(HowToDemo, true));
    TrimFree(c, Mark(HowToDemo, false));
    var head := Heading(Trim(c));
    HeadingClear(Trim(c));
    EndsInLine(Trim(c));
    ClearJoin(head, pre, HowToDemo);
    Regroup(head, pre, Block(HowToDemo, c), post);
    MatchPresent(head + pre, HowToDemo, c, post);
  }

  /** Without an approved block, or with a damaged one, the gate reads what the search finds in the body. */
  lemma ReadsSection(body: string, section: string -> string)
    requires !Match(body, HowToDemo).Present?
    ensures ReadCriterion(body, section) == section(body)
  {
  }

  /** With a blank block it reads what the search finds in the body without that block; else the block, trimmed. */
  lemma ReadsBlock(body: string, section: string -> string)
    requires Match(body, HowToDemo).Present?
    ensures var Present(pre, c, post) := Match(body, HowToDemo);
      ReadCriterion(body, section) == if AllOf(c, IsSpace) then section(pre + post) else Trim(c)
  {
    BlankIff(Match(body, HowToDemo).content);
  }

  /** Whatever criterion the gate reads, approved or found in a section, is put on top of the body; without one the body stays. */
  lemma ExposePutsOnTop(body: string, section: string -> string)
    ensures var c := ReadCriterion(body, section);
      Expose(body, section) == if c == "" then body else "## HowToDemo\n\n" + c + "\n\n## Тело задачи\n\n" + body
  {
    TopIs(ReadCriterion(body, section), body);
  }

  lemma TopIs(c: string, body: string)
    ensures Heading(c) + body == "## HowToDemo\n\n" + c + "\n\n## Тело задачи\n\n" + body
  {
    var a, n, b := "## HowToDemo", "\n\n", "## Тело задачи";
    assert "## HowToDemo\n\n" == a + n && "\n\n## Тело задачи\n\n" == n + b + n;
    Lines(a, n, c, b);
  }

  lemma Lines(a: string, n: string, c: string, b: string)
    ensures a + (n + c + n) + (b + n) == (a + n) + c + (n + b + n)
  {
  }

  lemma EndsInLine(criterion: string)
    ensures Heading(criterion) != "" && Heading(criterion)[|Heading(criterion)| - 1] == '\n'
  {
    LastOf("## HowToDemo" + ("\n\n" + criterion + "\n\n"), "## Тело задачи" + "\n\n");
  }

  lemma Regroup(a: string, b: string, c: string, d: string)
    ensures a + (b + c + d) == (a + b) + c + d
  {
  }
}
