/** When an activity is refused its writes: it then raises, and leaves the body as it was. */
module Progress {
  import opened Blocks
  import opened Bodies
  import opened Chars
  import opened Criterion
  import opened Damage
  import opened Fences
  import opened Journal
  import opened Protocol
  import opened Records
  import opened Refusals
  import opened Repairs
  import opened Scripts
  import opened Texts

  ghost predicate AllUnmarked(ds: seq<Decision>) {
    forall k :: 0 <= k < |ds| ==> DecisionUnmarked(ds[k])
  }

  /** The journal in the body is one, or there is none. */
  predicate JournalReadable(body: string) {
    Read(body, Answers).Ok? && !Corrupted(Read(body, Answers).value)
  }

  lemma RenderedIsJournal(ds: seq<Decision>)
    ensures !Corrupted(Some(RenderJournal(ds)))
  {
    DecisionsRoundTrip(ds);
    UnwrapWrap(JournalValue(ds), "## Решения по задаче");
  }

  /** A decision can be added to any body exactly when its journal is one and no text in it, old or new, holds a marker. */
  lemma AppendIff(body: string, d: Decision)
    ensures AppendDecision(body, d).Ok? <==> JournalReadable(body) && AllUnmarked(ReadJournal(body) + [d])
  {
    AppendDecisionGrows(body, d);
    JournalUnmarkedIff(ReadJournal(body) + [d]);
  }

  /** The body changed in its journal and its criterion alone, and the criterion block is damaged only if it was. */
  ghost predicate Beside(body: string, b: string) {
    && Apart(b)
    && (forall m: Name :: m != Answers && m != HowToDemo ==> Read(b, m) == Read(body, m))
    && (Readable(b, HowToDemo) <==> Readable(body, HowToDemo))
  }

  lemma AppendBeside(body: string, d: Decision)
    requires Apart(body) && AppendDecision(body, d).Ok?
    ensures var b := AppendDecision(body, d).value;
      Beside(body, b) && JournalReadable(b) && ReadJournal(b) == ReadJournal(body) + [d]
  {
    var text := RenderJournal(ReadJournal(body) + [d]);
    AppendDecisionGrows(body, d);
    WriteApart(body, Answers, text);
    RenderedIsJournal(ReadJournal(body) + [d]);
    assert Read(AppendDecision(body, d).value, HowToDemo) == Read(body, HowToDemo);
  }

  /** An answer can be put in its place unless the criterion block is damaged. */
  lemma PlaceIff(body: string, kind: string, answer: string)
    requires Apart(body) && Unmarked(answer)
    ensures PlaceBody(body, kind, answer).Ok? <==> (kind == "howtodemo" ==> Readable(body, HowToDemo))
    ensures PlaceBody(body, kind, answer).Ok? ==>
      var b := PlaceBody(body, kind, answer).value; Beside(body, b) && Read(b, Answers) == Read(body, Answers)
  {
    WriteRefuses(body, HowToDemo, answer);
    if kind == "howtodemo" && Write(body, HowToDemo, answer).Ok? {
      WriteApart(body, HowToDemo, answer);
    }
  }

  ghost predicate CanRecord(body: string, q: Question, answer: string, place: bool) {
    && JournalReadable(body) && AllUnmarked(ReadJournal(body) + [DecisionOn(q, answer)])
    && (place && q.kind == "howtodemo" ==> Readable(body, HowToDemo))
    && Readable(body, Asked)
  }

  /** What is done with a body once the decision is in its journal. */
  function Rest(appended: string, q: Question, answer: string, place: bool): Result<string> {
    var placed :- if place then PlaceBody(appended, q.kind, answer) else Ok(appended);
    var closed :- ClearOpen(placed);
    Ok(ClearDraft(closed))
  }

  lemma RestIff(appended: string, q: Question, answer: string, place: bool)
    requires Apart(appended) && Unmarked(answer)
    ensures MadeIf(Rest(appended, q, answer, place),
      (place && q.kind == "howtodemo" ==> Readable(appended, HowToDemo)) && Readable(appended, Asked))
  {
    PlaceIff(appended, q.kind, answer);
    var placed := PlaceBody(appended, q.kind, answer);
    if placed.Ok? { SameReadable(appended, placed.value, Asked); }
  }

  /**
   * A decision on the open question can be recorded exactly when it can be added to the journal, neither the question
   * nor, if the answer has its place there, the criterion being damaged.
   */
  lemma RecordedIff(body: string, q: Question, answer: string, place: bool)
    requires Apart(body)
    ensures MadeIf(RecordedBody(body, q, answer, place), CanRecord(body, q, answer, place))
  {
    var d := DecisionOn(q, answer);
    var appended := AppendDecision(body, d);
    AppendIff(body, d);
    if appended.Ok? {
      AppendBeside(body, d);
      assert (ReadJournal(body) + [d])[|ReadJournal(body)|] == d;
      RestIff(appended.value, q, answer, place);
      SameReadable(body, appended.value, Asked);
    }
    RecordedCases(body, q, answer, place, CanRecord(body, q, answer, place));
  }

  /** The new body is made just when `can` holds. */
  ghost predicate MadeIf(body: Result<string>, can: bool) {
    body.Ok? <==> can
  }

  lemma RecordedCases(body: string, q: Question, answer: string, place: bool, can: bool)
    requires var appended := AppendDecision(body, DecisionOn(q, answer));
      if appended.Ok? then MadeIf(Rest(appended.value, q, answer, place), can) else !can
    ensures MadeIf(RecordedBody(body, q, answer, place), can)
  {
  }

  // ---------------------------------------------------------------------------------------------
  // A confirmed interpretation

  /** The journal with an amendment carried out; one that names no decision is passed over. */
  function Amended(j: seq<Decision>, a: Amendment): seq<Decision> {
    match FirstUnder(j, a.questionId)
    case None => j
    case Some(previous) => j + [AmendedDecision(j, previous, a)]
  }

  function AmendedAll(j: seq<Decision>, list: seq<Amendment>): seq<Decision> {
    if list == [] then j else Amended(AmendedAll(j, list[..|list| - 1]), list[|list| - 1])
  }

  /** Some decision past the first `n` is about the criterion. */
  ghost predicate Places(j: seq<Decision>, n: nat) {
    exists k :: n <= k < |j| && j[k].kind == "howtodemo"
  }

  /** What adding the decisions of `j` past the first `n` to the journal of the body needs. */
  ghost predicate Addable(body: string, j: seq<Decision>, n: nat) {
    AllUnmarked(j) && (Places(j, n) ==> Readable(body, HowToDemo))
  }

  /** The decisions of `j` have been added to the body. */
  ghost predicate Holds(body: string, b: string, j: seq<Decision>) {
    Beside(body, b) && JournalReadable(b) && ReadJournal(b) == j
  }

  lemma PlacesMore(j: seq<Decision>, d: Decision, n: nat)
    requires n <= |j|
    ensures Places(j + [d], n) <==> Places(j, n) || d.kind == "howtodemo"
    ensures AllUnmarked(j + [d]) <==> AllUnmarked(j) && DecisionUnmarked(d)
  {
    var more := j + [d];
    assert more[|j|] == d && forall k :: 0 <= k < |j| ==> more[k] == j[k];
    if AllUnmarked(more) {
      forall k | 0 <= k < |j| ensures DecisionUnmarked(j[k]) { assert DecisionUnmarked(more[k]); }
    }
  }

  /** One decision added to the journal and put in its place. */
  lemma AddOne(body: string, before: string, j: seq<Decision>, d: Decision, n: nat)
    requires Holds(body, before, j) && Addable(body, j, n) && n <= |j|
    ensures var r := AppendDecision(before, d);
      var placed := if r.Ok? then PlaceBody(r.value, d.kind, d.answer) else r;
      (placed.Ok? <==> Addable(body, j + [d], n)) && (placed.Ok? ==> Holds(body, placed.value, j + [d]))
  {
    AppendIff(before, d);
    PlacesMore(j, d, n);
    if AppendDecision(before, d).Ok? {
      AppendBeside(before, d);
      PlaceIff(AppendDecision(before, d).value, d.kind, d.answer);
    }
  }

  lemma AmendIff(body: string, before: string, j: seq<Decision>, a: Amendment, n: nat)
    requires Holds(body, before, j) && Addable(body, j, n) && n <= |j|
    ensures AmendBody(before, a).Ok? <==> Addable(body, Amended(j, a), n)
    ensures AmendBody(before, a).Ok? ==> Holds(body, AmendBody(before, a).value, Amended(j, a))
  {
    var previous := FirstUnder(j, a.questionId);
    if previous.Some? { AddOne(body, before, j, AmendedDecision(j, previous.value, a), n); }
  }

  lemma {:induction false} AmendAllIff(body: string, before: string, j: seq<Decision>, list: seq<Amendment>, n: nat)
    requires Holds(body, before, j) && Addable(body, j, n) && n <= |j|
    ensures n <= |AmendedAll(j, list)|
    ensures AmendAllBody(before, list).Ok? <==> Addable(body, AmendedAll(j, list), n)
    ensures AmendAllBody(before, list).Ok? ==> Holds(body, AmendAllBody(before, list).value, AmendedAll(j, list))
    decreases |list|
  {
    if list != [] {
      var k := |list| - 1;
      var r, most := AmendAllBody(before, list[..k]), AmendedAll(j, list[..k]);
      AmendAllIff(body, before, j, list[..k], n);
      assert AmendedAll(j, list) == Amended(most, list[k]);
      AddableBefore(body, most, list[k], n);
      if r.Ok? { AmendIff(body, r.value, most, list[k], n); }
    }
  }

  lemma AddableBefore(body: string, j: seq<Decision>, a: Amendment, n: nat)
    requires n <= |j|
    ensures Addable(body, Amended(j, a), n) ==> Addable(body, j, n)
  {
    var previous := FirstUnder(j, a.questionId);
    if previous.Some? { PlacesMore(j, AmendedDecision(j, previous.value, a), n); }
  }

  lemma {:induction false} AddableStart(body: string, j: seq<Decision>, list: seq<Amendment>, n: nat)
    requires n <= |j|
    ensures n <= |AmendedAll(j, list)| && (Addable(body, AmendedAll(j, list), n) ==> Addable(body, j, n))
    decreases |list|
  {
    if list != [] {
      AddableStart(body, j, list[..|list| - 1], n);
      AddableBefore(body, AmendedAll(j, list[..|list| - 1]), list[|list| - 1], n);
    }
  }

  /** The journal a confirmed interpretation leads to. */
  function JournalAfter(body: string, q: Question, i: Interpretation): seq<Decision> {
    AmendedAll(ReadJournal(body) + [DecisionOn(q, i.answer)], i.amendments)
  }

  ghost predicate CanApply(body: string, q: Question, i: Interpretation) {
    JournalReadable(body) && Addable(body, JournalAfter(body, q, i), |ReadJournal(body)|) && Readable(body, Asked)
  }

  /** The body before an interpretation is applied holds its own journal, if that can be added to at all. */
  lemma StartHolds(body: string)
    requires Apart(body) && JournalReadable(body) && AllUnmarked(ReadJournal(body))
    ensures Holds(body, body, ReadJournal(body)) && Addable(body, ReadJournal(body), |ReadJournal(body)|)
  {
  }

  function AppliedTo(cleared: string, q: Question, i: Interpretation): Result<string> {
    var placed :- Added(cleared, DecisionOn(q, i.answer));
    var amended :- AmendAllBody(placed, i.amendments);
    ClearOpen(amended)
  }

  /** A decision added to the journal and put in its place. */
  function Added(body: string, d: Decision): Result<string> {
    var appended :- AppendDecision(body, d);
    PlaceBody(appended, d.kind, d.answer)
  }

  lemma AddedIff(body: string, d: Decision)
    requires Apart(body)
    ensures var j, n := ReadJournal(body), |ReadJournal(body)|;
      && (Added(body, d).Ok? <==> JournalReadable(body) && Addable(body, j + [d], n))
      && (Added(body, d).Ok? ==> Holds(body, Added(body, d).value, j + [d]))
  {
    var j, n := ReadJournal(body), |ReadJournal(body)|;
    PlacesMore(j, d, n);
    AppendIff(body, d);
    if JournalReadable(body) && AllUnmarked(j) {
      StartHolds(body);
      AddOne(body, body, j, d, n);
    }
  }

  /** Everything but the draft, applied to a body from which the draft is gone. */
  lemma AppliedToIff(cleared: string, q: Question, i: Interpretation)
    requires Apart(cleared)
    ensures AppliedTo(cleared, q, i).Ok? <==> CanApply(cleared, q, i)
  {
    var d, n := DecisionOn(q, i.answer), |ReadJournal(cleared)|;
    var j := ReadJournal(cleared) + [d];
    AddedIff(cleared, d);
    AddableStart(cleared, j, i.amendments, n);
    if Added(cleared, d).Ok? {
      AmendAllIff(cleared, Added(cleared, d).value, j, i.amendments, n);
      var amended := AmendAllBody(Added(cleared, d).value, i.amendments);
      if amended.Ok? { SameReadable(cleared, amended.value, Asked); }
    }
  }

  lemma SameCanApply(body: string, b: string, q: Question, i: Interpretation)
    requires forall m: Name :: m != Drafted ==> Read(b, m) == Read(body, m)
    ensures CanApply(b, q, i) <==> CanApply(body, q, i)
  {
    SameJournal(body, b);
    SameReadable(body, b, HowToDemo);
    SameReadable(body, b, Asked);
    assert JournalAfter(b, q, i) == JournalAfter(body, q, i);
  }

  lemma SameJournal(body: string, b: string)
    requires Read(b, Answers) == Read(body, Answers)
    ensures ReadJournal(b) == ReadJournal(body) && JournalReadable(b) == JournalReadable(body)
  {
  }

  lemma SameReadable(body: string, b: string, n: Name)
    requires Read(b, n) == Read(body, n)
    ensures Readable(b, n) <==> Readable(body, n)
  {
  }

  /**
   * A confirmed interpretation can be applied exactly when, in the body without the draft, the journal is one, no text
   * of the journal it leads to holds a marker, and neither the question nor, if a decision has its place there, the
   * criterion is damaged.
   */
  lemma AppliedIff(body: string, q: Question, i: Interpretation)
    requires Apart(ClearDraft(body))
    ensures AppliedBody(body, q, i).Ok? <==> CanApply(ClearDraft(body), q, i)
  {
    AppliedToIff(ClearDraft(body), q, i);
    assert AppliedBody(body, q, i) == AppliedTo(ClearDraft(body), q, i);
  }

  /** With the blocks that can be read on lines of their own, the draft makes no difference to that. */
  lemma ClearedOrderly(body: string, q: Question, i: Interpretation)
    requires Orderly(body) && Readable(body, Drafted)
    ensures Apart(ClearDraft(body)) && (CanApply(ClearDraft(body), q, i) <==> CanApply(body, q, i))
  {
    StripOrderly(body, Drafted);
    OrderlyIsApart(ClearDraft(body));
    SameCanApply(body, ClearDraft(body), q, i);
  }

  // ---------------------------------------------------------------------------------------------
  // Questions

  lemma TailFree(a: string, b: string, p: string)
    requires p != "" && p[|p| - 1] == '>' && FreeOf(a, p) && forall i :: 0 <= i < |b| ==> b[i] != '>'
    ensures FreeOf(a + b, p)
  {
    forall i | Has(a + b, p, i) ensures Has(a, p, i) {
      Letters(a + b, p, i);
      assert (a + b)[i + |p| - 1] == '>';
      assert (a + b)[i..i + |p|] == a[i..i + |p|];
    }
  }

  lemma IdUnmarked(kind: string, n: nat)
    requires Unmarked(kind)
    ensures Unmarked(MakeId(kind, n))
  {
    var tail := "-" + Decimal(n);
    assert forall i :: 0 <= i < |tail| ==> tail[i] != '>' by { assert AllDigits(Decimal(n)); }
    assert MakeId(kind, n) == kind + tail;
    forall m: Name, o: bool ensures FreeOf(MakeId(kind, n), Mark(m, o)) {
      MarkIsTag(m, o);
      TailFree(kind, tail, Mark(m, o));
    }
  }

  /** A question can be written into any body exactly when its block is not damaged and none of its texts holds a marker. */
  lemma WriteOpenIff(body: string, q: Question)
    ensures WriteOpen(body, q).Ok? <==> Readable(body, Asked) && QuestionUnmarked(q)
    ensures WriteOpen(body, q).Ok? ==> Readable(WriteOpen(body, q).value, Asked)
  {
    QuestionUnmarkedIff(q);
    WriteRefuses(body, Asked, RenderQuestion(q));
    if WriteOpen(body, q).Ok? { ReadAfterWrite(body, Asked, RenderQuestion(q)); }
  }

  lemma AnnounceIff(body: string, q: Question)
    ensures AnnounceQuestionScript(body, q).end.Returns? <==> Readable(body, Asked) && QuestionUnmarked(q)
    ensures AnnounceAgainScript(body, q).end.Returns? <==> Readable(body, Asked) && QuestionUnmarked(q)
  {
    WriteOpenIff(body, q.(announced := true));
  }

  /** What a call of `ask_question` needs in order not to raise. */
  ghost predicate CanAsk(body: string, kind: string, text: string, options: seq<string>) {
    match ReadOpen(body)
    case Some(q) => q.kind == kind && (q.announced || QuestionUnmarked(q))
    case None =>
      Readable(body, Asked) && Unmarked(kind) && Unmarked(text) && forall i :: 0 <= i < |options| ==> Unmarked(options[i])
  }

  /**
   * On any body, a call of `ask_question` raises, whatever the host does, exactly on an open question of another kind,
   * on a damaged question block, or when a text of the question it has to write holds a marker; then it leaves the
   * body as it was, so a retry raises again.
   */
  lemma AskReturnsIff(s: Issue<string>, kind: string, text: string, options: seq<string>)
    ensures AskScript(s, kind, text, options).end.Returns? <==> CanAsk(s.body, kind, text, options)
    ensures AskScript(s, kind, text, options).end.Raises? ==> Apply(s, AskScript(s, kind, text, options).effects).body == s.body
  {
    match ReadOpen(s.body)
    case Some(q) => AskOpenIff(s, q, kind, text, options);
    case None => AskNewIff(s, kind, text, options);
  }

  lemma AskOpenIff(s: Issue<string>, q: Question, kind: string, text: string, options: seq<string>)
    requires ReadOpen(s.body) == Some(q)
    ensures AskScript(s, kind, text, options).end.Returns? <==> CanAsk(s.body, kind, text, options)
    ensures AskScript(s, kind, text, options).end.Raises? ==> Apply(s, AskScript(s, kind, text, options).effects).body == s.body
  {
    AnnounceIff(s.body, q);
    var post := Post(AskComment(q.id, q.text, q.options));
    assert [post][..0] == [];
    assert Apply(s, [post]).body == s.body;
  }

  lemma AskNewIff(s: Issue<string>, kind: string, text: string, options: seq<string>)
    requires ReadOpen(s.body) == None
    ensures AskScript(s, kind, text, options).end.Returns? <==> CanAsk(s.body, kind, text, options)
    ensures AskScript(s, kind, text, options).end.Raises? ==> Apply(s, AskScript(s, kind, text, options).effects).body == s.body
  {
    var q := Question(NextId(ReadJournal(s.body), kind), kind, text, options, false);
    if Unmarked(kind) { IdUnmarked(kind, MaxUsed(ReadJournal(s.body), kind) + 1); }
    WriteOpenIff(s.body, q);
    if WriteOpen(s.body, q).Ok? { AnnounceIff(WriteOpen(s.body, q).value, q); }
  }

  /** A half-deleted question: its block is damaged, and asking raises though no text holds a marker. */
  lemma HalfDeletedRaises(s: Issue<string>, kind: string, text: string, options: seq<string>)
    requires s.body == Mark(Asked, true)
    ensures AskScript(s, kind, text, options).end.Raises?
  {
    OneMarkIsDamage(Asked);
    AskReturnsIff(s, kind, text, options);
  }

  // ---------------------------------------------------------------------------------------------
  // Answers

  /** The draft block can be read, or can be once its markers are thrown away. */
  predicate DraftBlockUsable(body: string) {
    Readable(body, Drafted) || Readable(DiscardDraft(body), Drafted)
  }

  /** It can be, unless a joint makes a marker of the draft when those are thrown away. */
  lemma JointlessIsUsable(body: string)
    requires !DraftJoint(body)
    ensures DraftBlockUsable(body)
  {
    DiscardLeavesIff(body);
  }

  /** A draft marker split by another one: throwing that one away makes it whole, so no draft can be written any more. */
  lemma SplitDraftRaises(body: string, d: Draft)
    requires body == "<!-- harness:answer-dr" + Mark(Drafted, true) + "aft:start -->"
    ensures WriteDraft(body, d).Err?
  {
    DiscardCanLeave();
    WriteDraftIff(body, d);
  }

  /** A draft can be written into any body exactly when its block is usable and its text holds no marker. */
  lemma WriteDraftIff(body: string, d: Draft)
    ensures WriteDraft(body, d).Ok? <==> DraftBlockUsable(body) && Unmarked(RenderDraft(d))
    ensures WriteDraft(body, d).Ok? ==> Readable(WriteDraft(body, d).value, Drafted)
  {
    var text := RenderDraft(d);
    WriteRefuses(body, Drafted, text);
    WriteRefuses(DiscardDraft(body), Drafted, text);
    if Write(body, Drafted, text).Ok? { ReadAfterWrite(body, Drafted, text); }
    if Write(DiscardDraft(body), Drafted, text).Ok? { ReadAfterWrite(DiscardDraft(body), Drafted, text); }
  }

  lemma AnnounceDraftIff(body: string, d: Draft, i: Interpretation)
    ensures AnnounceDraftScript(body, d, i).end.Returns? <==> DraftBlockUsable(body) && Unmarked(RenderDraft(d.(announced := true)))
  {
    WriteDraftIff(body, d.(announced := true));
  }

  /** What a new draft needs in order to be written. */
  ghost predicate CanDraft(body: string, q: Question, reply: Reply) {
    reply.Understood? && Sound(reply.interpretation, ReadJournal(body)) ==>
      DraftBlockUsable(body) && Unmarked(q.id) && InterpretationUnmarked(reply.interpretation)
  }

  lemma DraftScriptIff(body: string, q: Question, reply: Reply)
    ensures DraftScript(body, q, reply).end.Returns? <==> CanDraft(body, q, reply)
  {
    if reply.Understood? && Sound(reply.interpretation, ReadJournal(body)) {
      var i := reply.interpretation;
      var d := Draft(q.id, Dump(i), false);
      DraftUnmarkedIff(q.id, i, false);
      DraftUnmarkedIff(q.id, i, true);
      WriteDraftIff(body, d);
      if WriteDraft(body, d).Ok? { AnnounceDraftIff(WriteDraft(body, d).value, d, i); }
    }
  }

  /** What a free answer needs in order not to raise. */
  ghost predicate CanConfirm(body: string, q: Question, answer: string, reply: Reply) {
    var d := ReadDraft(body);
    if d.Some? && d.value.questionId == q.id && (!d.value.announced || IsConfirmation(answer)) then
      var i := Load(d.value.interpretation);
      i.Some? && if d.value.announced then CanApply(ClearDraft(body), q, i.value) else Unmarked(RenderDraft(d.value.(announced := true)))
    else CanDraft(body, q, reply)
  }

  /** The activity returns just when `can` holds. */
  ghost predicate ReturnsIf(script: Script<string>, can: bool) {
    script.end.Returns? <==> can
  }

  lemma SettledIff(body: Result<string>, verdict: Verdict, can: bool)
    requires body.Ok? <==> can
    ensures ReturnsIf(SettleScript(body, verdict), can)
  {
  }

  /** A free answer with a draft in the body is a confirmation, an announcement or a new draft. */
  lemma ConfirmCases(body: string, d: Draft, i: Interpretation, q: Question, answer: string, reply: Reply, can: bool)
    requires ReadDraft(body) == Some(d) && Load(d.interpretation) == Some(i)
    requires d.questionId == q.id && d.announced && IsConfirmation(answer) ==>
      ReturnsIf(SettleScript(AppliedBody(body, q, i), Accepted), can)
    requires d.questionId == q.id && !d.announced ==> ReturnsIf(AnnounceDraftScript(body, d, i), can)
    requires !(d.questionId == q.id && (!d.announced || IsConfirmation(answer))) ==> ReturnsIf(DraftScript(body, q, reply), can)
    ensures ReturnsIf(ConfirmScript(body, q, answer, reply), can)
  {
  }

  /** A draft whose interpretation cannot be read back raises when it is to be used. */
  lemma ConfirmUnread(body: string, d: Draft, q: Question, answer: string, reply: Reply, can: bool)
    requires ReadDraft(body) == Some(d) && Load(d.interpretation) == None
    requires d.questionId == q.id && (!d.announced || IsConfirmation(answer)) ==> !can
    requires !(d.questionId == q.id && (!d.announced || IsConfirmation(answer))) ==> ReturnsIf(DraftScript(body, q, reply), can)
    ensures ReturnsIf(ConfirmScript(body, q, answer, reply), can)
  {
  }

  lemma ConfirmNew(body: string, q: Question, answer: string, reply: Reply, can: bool)
    requires ReadDraft(body) == None && ReturnsIf(DraftScript(body, q, reply), can)
    ensures ReturnsIf(ConfirmScript(body, q, answer, reply), can)
  {
  }

  lemma ConfirmIff(body: string, q: Question, answer: string, reply: Reply)
    requires Apart(ClearDraft(body))
    ensures ReturnsIf(ConfirmScript(body, q, answer, reply), CanConfirm(body, q, answer, reply))
  {
    var can := CanConfirm(body, q, answer, reply);
    DraftScriptIff(body, q, reply);
    match ReadDraft(body)
    case None => ConfirmNew(body, q, answer, reply, can);
    case Some(d) =>
      match Load(d.interpretation)
      case None => ConfirmUnread(body, d, q, answer, reply, can);
      case Some(i) =>
        AppliedIff(body, q, i);
        AnnounceDraftIff(body, d, i);
        SettledIff(AppliedBody(body, q, i), Accepted, CanApply(ClearDraft(body), q, i));
        ConfirmCases(body, d, i, q, answer, reply, can);
  }

  /** What an answer to the open question needs in order not to raise. */
  ghost predicate CanAnswerOpen(body: string, q: Question, answer: string, reply: Reply) {
    answer == "" ||
    if IsChoice(answer, |q.options|) then CanRecord(body, q, q.options[Number(answer) - 1], true)
    else CanConfirm(body, q, answer, reply)
  }

  lemma OpenCases(body: string, q: Question, answer: string, commentId: Option<int>, reply: Reply, can: bool)
    requires answer == "" ==> can
    requires IsChoice(answer, |q.options|) ==>
      ReturnsIf(SettleScript(RecordedBody(body, q, q.options[Number(answer) - 1], true), Accepted), can)
    requires answer != "" && !IsChoice(answer, |q.options|) ==> ReturnsIf(ConfirmScript(body, q, answer, reply), can)
    ensures ReturnsIf(OpenScript(body, q, answer, commentId, reply), can)
  {
  }

  lemma ChosenIff(body: string, q: Question, option: string, place: bool, verdict: Verdict)
    requires Apart(body)
    ensures ReturnsIf(SettleScript(RecordedBody(body, q, option, place), verdict), CanRecord(body, q, option, place))
  {
    RecordedIff(body, q, option, place);
    SettledIff(RecordedBody(body, q, option, place), verdict, CanRecord(body, q, option, place));
  }

  /** No block that can be read holds a marker, with the draft in the body or without it. */
  ghost predicate Separate(body: string) {
    Apart(body) && Apart(ClearDraft(body))
  }

  lemma GoodIsSeparate(body: string)
    requires Good(body)
    ensures Separate(body)
  {
    GoodIsOrderly(body);
    StripGood(body, Drafted);
    GoodIsOrderly(ClearDraft(body));
  }

  lemma OpenIff(body: string, q: Question, answer: string, commentId: Option<int>, reply: Reply)
    requires Separate(body)
    ensures ReturnsIf(OpenScript(body, q, answer, commentId, reply), CanAnswerOpen(body, q, answer, reply))
  {
    if IsChoice(answer, |q.options|) { ChosenIff(body, q, q.options[Number(answer) - 1], true, Accepted); }
    ConfirmIff(body, q, answer, reply);
    OpenCases(body, q, answer, commentId, reply, CanAnswerOpen(body, q, answer, reply));
  }

  /** What an answer needs in order not to raise when no question is open. */
  ghost predicate CanAnswerUnasked(body: string, questionId: string) {
    questionId == "" || Known(ReadJournal(body), questionId) ||
    (Readable(body, Asked) && QuestionUnmarked(Revived(ReadJournal(body), questionId)))
  }

  lemma UnaskedIff(body: string, questionId: string)
    ensures ReturnsIf(UnaskedScript(body, questionId), CanAnswerUnasked(body, questionId))
  {
    var q := Revived(ReadJournal(body), questionId);
    WriteOpenIff(body, q);
    if WriteOpen(body, q).Ok? { AnnounceIff(WriteOpen(body, q).value, q); }
  }

  /** What a call of `answer_question` needs in order not to raise. */
  ghost predicate CanAnswer(body: string, questionId: string, answer: string, reply: Reply) {
    match ReadOpen(body)
    case None => CanAnswerUnasked(body, questionId)
    case Some(q) => q.id != questionId || CanAnswerOpen(body, q, answer, reply)
  }

  lemma AnswerTo(s: Issue<string>, q: Question, text: string, commentId: Option<int>, reply: Reply)
    requires ReadOpen(s.body) == Some(q)
    ensures AnswerScript(s, q.id, text, commentId, reply) == OpenScript(s.body, q, Trim(text), commentId, reply)
  {
  }

  /**
   * A call of `answer_question` raises, whatever the host does, exactly when the branch it takes has to write a text
   * with a marker, or to write into or cut out a damaged block, or to add to a journal that is not one, or to use a
   * draft that is none; then it leaves the body as it was. Any block of the body may be damaged, and share its lines
   * with other text; those that can be read hold no marker.
   */
  lemma AnswerReturnsIff(s: Issue<string>, questionId: string, text: string, commentId: Option<int>, reply: Reply)
    requires Separate(s.body)
    ensures AnswerScript(s, questionId, text, commentId, reply).end.Returns? <==> CanAnswer(s.body, questionId, Trim(text), reply)
    ensures RaisesClean(AnswerScript(s, questionId, text, commentId, reply))
  {
    AnswerClean(s, questionId, text, commentId, reply);
    var open := ReadOpen(s.body);
    if open.None? {
      UnaskedIff(s.body, questionId);
    } else if open.value.id == questionId {
      AnswerTo(s, open.value, text, commentId, reply);
      OpenIff(s.body, open.value, Trim(text), commentId, reply);
    }
  }

  /** A call of `close_answered_by_body_edit` raises exactly when the decision cannot be recorded, and then writes nothing. */
  lemma CloseReturnsIff(s: Issue<string>, section: string -> string)
    requires Apart(s.body)
    ensures CloseScript(s, section).end.Returns? <==>
      match ReadOpen(s.body)
      case None => true
      case Some(q) => CanRecord(s.body, q, ReadCriterion(s.body, section), false)
    ensures RaisesClean(CloseScript(s, section))
  {
    if ReadOpen(s.body).Some? { RecordedIff(s.body, ReadOpen(s.body).value, ReadCriterion(s.body, section), false); }
  }

  // ---------------------------------------------------------------------------------------------
  // What closing records, with any block but question, answers and draft damaged

  /** The decision is in the journal, and the question is gone. */
  ghost predicate Closed(body: string, b: string, d: Decision) {
    ReadJournal(b) == ReadJournal(body) + [d] && ReadOpen(b) == None
  }

  lemma AppendedOrderly(body: string, d: Decision)
    requires Orderly(body) && AppendDecision(body, d).Ok?
    ensures var b := AppendDecision(body, d).value;
      Orderly(b) && ReadJournal(b) == ReadJournal(body) + [d]
      && (Readable(b, Asked) <==> Readable(body, Asked)) && (Readable(b, Drafted) <==> Readable(body, Drafted))
  {
    var b := AppendDecision(body, d).value;
    OrderlyIsApart(body);
    AppendBeside(body, d);
    WriteStaysOrderly(body, Answers, RenderJournal(ParsedJournal(Read(body, Answers).value) + [d]));
    SameReadable(body, b, Asked);
    SameReadable(body, b, Drafted);
  }

  lemma ClearedOpen(body: string)
    requires Orderly(body) && Readable(body, Asked)
    ensures ClearOpen(body).Ok?
    ensures var b := ClearOpen(body).value;
      Orderly(b) && ReadJournal(b) == ReadJournal(body) && ReadOpen(b) == None && (Readable(b, Drafted) <==> Readable(body, Drafted))
  {
    StripOrderly(body, Asked);
    var b := ClearOpen(body).value;
    SameReadable(body, b, Drafted);
    SameJournal(body, b);
  }

  lemma ClearedDraft(body: string)
    requires Orderly(body) && Readable(body, Drafted)
    ensures var b := ClearDraft(body); ReadJournal(b) == ReadJournal(body) && ReadOpen(b) == ReadOpen(body)
  {
    StripOrderly(body, Drafted);
    SameJournal(body, ClearDraft(body));
    assert Read(ClearDraft(body), Asked) == Read(body, Asked);
  }

  lemma ClosedBody(body: string, q: Question, answer: string)
    requires Orderly(body) && Readable(body, Asked) && Readable(body, Drafted) && RecordedBody(body, q, answer, false).Ok?
    ensures Closed(body, RecordedBody(body, q, answer, false).value, DecisionOn(q, answer))
  {
    var appended := AppendDecision(body, DecisionOn(q, answer)).value;
    AppendedOrderly(body, DecisionOn(q, answer));
    ClearedOpen(appended);
    ClearedDraft(ClearOpen(appended).value);
  }

  /**
   * Closing a question when no approved block can be read, be it absent or damaged: the decision recorded is what the
   * search finds in the body.
   */
  lemma CloseRecordsSection(s: Issue<string>, q: Question, section: string -> string)
    requires Orderly(s.body) && Readable(s.body, Drafted) && ReadOpen(s.body) == Some(q)
    requires !Match(s.body, HowToDemo).Present? && CloseScript(s, section).end.Returns?
    ensures var effects := CloseScript(s, section).effects;
      |effects| == 2 && effects[0].SetBody? && effects[1] == DropLabel(WAITING) &&
      Closed(s.body, effects[0].body, Decision(q.id, q.kind, q.text, section(s.body), ""))
  {
    ReadsSection(s.body, section);
    ClosedBody(s.body, q, section(s.body));
  }

  // ---------------------------------------------------------------------------------------------
  // What a call that raises leaves, on any body

  /** A script that raises has not written the body. */
  ghost predicate RaisesClean(script: Script<string>) {
    script.end.Raises? ==> NoBody(script.effects)
  }

  ghost predicate NoBody(effects: seq<Effect<string>>) {
    forall k :: 0 <= k < |effects| ==> !effects[k].SetBody?
  }

  lemma {:induction false} NoBodyApplied(s: Issue<string>, effects: seq<Effect<string>>)
    requires NoBody(effects)
    ensures Apply(s, effects).body == s.body
    decreases |effects|
  {
    if effects != [] { NoBodyApplied(s, effects[..|effects| - 1]); }
  }

  lemma AnnounceClean(body: string, q: Question)
    ensures RaisesClean(AnnounceQuestionScript(body, q)) && RaisesClean(AnnounceAgainScript(body, q))
  {
  }

  lemma AskClean(s: Issue<string>, kind: string, text: string, options: seq<string>)
    ensures RaisesClean(AskScript(s, kind, text, options))
  {
    match ReadOpen(s.body)
    case Some(q) => AnnounceClean(s.body, q);
    case None => CreateClean(s.body, Question(NextId(ReadJournal(s.body), kind), kind, text, options, false));
  }

  lemma CreateClean(body: string, q: Question)
    ensures RaisesClean(CreateScript(body, q))
  {
    WriteOpenIff(body, q);
    if WriteOpen(body, q).Ok? { AnnounceIff(WriteOpen(body, q).value, q); }
  }

  lemma AnnounceDraftClean(body: string, d: Draft, i: Interpretation)
    ensures RaisesClean(AnnounceDraftScript(body, d, i))
  {
  }

  /** A draft that could be written can be flagged, so that nothing is raised between the two. */
  lemma DraftClean(body: string, q: Question, reply: Reply)
    ensures RaisesClean(DraftScript(body, q, reply))
  {
    if reply.Understood? && Sound(reply.interpretation, ReadJournal(body)) {
      var i := reply.interpretation;
      var d := Draft(q.id, Dump(i), false);
      DraftUnmarkedIff(q.id, i, false);
      DraftUnmarkedIff(q.id, i, true);
      WriteDraftIff(body, d);
      if WriteDraft(body, d).Ok? { AnnounceDraftIff(WriteDraft(body, d).value, d, i); }
    }
  }

  lemma SettleClean(body: Result<string>, verdict: Verdict)
    ensures RaisesClean(SettleScript(body, verdict))
  {
  }

  lemma ConfirmClean(body: string, q: Question, answer: string, reply: Reply)
    ensures RaisesClean(ConfirmScript(body, q, answer, reply))
  {
    DraftClean(body, q, reply);
    if ReadDraft(body).Some? && Load(ReadDraft(body).value.interpretation).Some? {
      var d, i := ReadDraft(body).value, Load(ReadDraft(body).value.interpretation).value;
      SettleClean(AppliedBody(body, q, i), Accepted);
      AnnounceDraftClean(body, d, i);
      CleanCases(body, d, i, q, answer, reply);
    }
  }

  lemma CleanCases(body: string, d: Draft, i: Interpretation, q: Question, answer: string, reply: Reply)
    requires ReadDraft(body) == Some(d) && Load(d.interpretation) == Some(i)
    requires RaisesClean(SettleScript(AppliedBody(body, q, i), Accepted)) && RaisesClean(AnnounceDraftScript(body, d, i))
    requires RaisesClean(DraftScript(body, q, reply))
    ensures RaisesClean(ConfirmScript(body, q, answer, reply))
  {
  }

  lemma ReaskClean(body: string, questionId: string)
    ensures RaisesClean(ReaskScript(body, questionId))
  {
    var q := Revived(ReadJournal(body), questionId);
    WriteOpenIff(body, q);
    if WriteOpen(body, q).Ok? { AnnounceIff(WriteOpen(body, q).value, q); }
  }

  lemma OpenClean(body: string, q: Question, answer: string, commentId: Option<int>, reply: Reply)
    ensures RaisesClean(OpenScript(body, q, answer, commentId, reply))
  {
    if IsChoice(answer, |q.options|) { SettleClean(RecordedBody(body, q, q.options[Number(answer) - 1], true), Accepted); }
    ConfirmClean(body, q, answer, reply);
  }

  lemma AnswerClean(s: Issue<string>, questionId: string, text: string, commentId: Option<int>, reply: Reply)
    ensures RaisesClean(AnswerScript(s, questionId, text, commentId, reply))
  {
    match ReadOpen(s.body)
    case None => ReaskClean(s.body, questionId);
    case Some(q) => OpenClean(s.body, q, Trim(text), commentId, reply);
  }

  lemma CloseClean(s: Issue<string>, section: string -> string)
    ensures RaisesClean(CloseScript(s, section))
  {
  }

  /** A retry of which the model makes something else may get through: what it understood could not be written down. */
  lemma OtherReplyReturns(s: Issue<string>, q: Question, text: string, commentId: Option<int>, i: Interpretation)
    requires ReadOpen(s.body) == Some(q) && ReadDraft(s.body) == None && Trim(text) != "" && !IsChoice(Trim(text), |q.options|)
    requires Sound(i, ReadJournal(s.body)) && !InterpretationUnmarked(i)
    ensures AnswerScript(s, q.id, text, commentId, Understood(i)).end.Raises?
    ensures AnswerScript(s, q.id, text, commentId, Refused).end.Returns?
  {
    AnswerTo(s, q, text, commentId, Understood(i));
    AnswerTo(s, q, text, commentId, Refused);
    DraftScriptIff(s.body, q, Understood(i));
  }
}
