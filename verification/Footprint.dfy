/** What the activities touch in a body: the blocks of the protocol, and nothing else but line ends at its end. */
module Footprint {
  import opened Blocks
  import opened Bodies
  import opened Chars
  import opened Criterion
  import opened Documents
  import opened Journal
  import opened Protocol
  import opened Records
  import S = Scripts
  import opened Texts
  import opened TextRuns

  /** `u` is `t` and line ends after it. */
  ghost predicate Longer(t: string, u: string) {
    exists w: string :: NewLines(w) && u == t + w
  }

  lemma LongerJoin(t: string, u: string, v: string)
    requires Longer(t, u) && Longer(u, v)
    ensures Longer(t, v)
  {
    var w: string :| NewLines(w) && u == t + w;
    var x: string :| NewLines(x) && v == u + x;
    assert NewLines(w + x) && v == t + (w + x);
  }

  /** Of a good body, no blocks but these were touched, and of the text outside the blocks only its end. */
  ghost predicate Touches(body: string, b: string, names: set<Name>) {
    Good(b) && (forall m: Name :: m !in names ==> Slot(b, m) == Slot(body, m)) && Longer(Outside(body), Outside(b))
  }

  lemma TouchesNothing(body: string, names: set<Name>)
    requires Good(body)
    ensures Touches(body, body, names)
  {
    assert NewLines("") && Outside(body) == Outside(body) + "";
  }

  lemma TouchesJoin(a: string, b: string, c: string, names: set<Name>)
    requires Touches(a, b, names) && Touches(b, c, names)
    ensures Touches(a, c, names)
  {
    LongerJoin(Outside(a), Outside(b), Outside(c));
  }

  lemma WriteTouches(body: string, n: Name, c: string, names: set<Name>)
    requires Good(body) && Write(body, n, c).Ok? && n in names
    ensures Touches(body, Write(body, n, c).value, names)
  {
    var w := PerformOutside(body, Op.Put(n, c));
    WriteGood(body, n, c);
  }

  lemma StripTouches(body: string, n: Name, names: set<Name>)
    requires Good(body) && n in names
    ensures Strip(body, n).Ok? && Touches(body, Strip(body, n).value, names)
  {
    var w := PerformOutside(body, Op.Cut(n));
    StripGood(body, n);
  }

  lemma WriteDraftTouches(body: string, d: Draft, names: set<Name>)
    requires Good(body) && WriteDraft(body, d).Ok? && Drafted in names
    ensures Touches(body, WriteDraft(body, d).value, names)
  {
    assert InPlace(body, Drafted);
    WriteTouches(body, Drafted, RenderDraft(d), names);
  }

  lemma ClearDraftTouches(body: string, names: set<Name>)
    requires Good(body) && Drafted in names
    ensures Touches(body, ClearDraft(body), names)
  {
    StripTouches(body, Drafted, names);
  }

  /** The blocks of the protocol. */
  const RECORDS: set<Name> := {Asked, Name.Answers, Drafted, HowToDemo}

  lemma AppendTouches(body: string, d: Decision)
    requires Good(body) && AppendDecision(body, d).Ok?
    ensures Touches(body, AppendDecision(body, d).value, RECORDS)
  {
    WriteTouches(body, Name.Answers, RenderJournal(ParsedJournal(Read(body, Name.Answers).value) + [d]), RECORDS);
  }

  lemma PlaceTouches(body: string, kind: string, answer: string)
    requires Good(body) && S.PlaceBody(body, kind, answer).Ok?
    ensures Touches(body, S.PlaceBody(body, kind, answer).value, RECORDS)
  {
    if kind == "howtodemo" { WriteTouches(body, HowToDemo, answer, RECORDS); } else { TouchesNothing(body, RECORDS); }
  }

  lemma RecordedTouches(body: string, q: Question, answer: string, place: bool)
    requires Good(body) && S.RecordedBody(body, q, answer, place).Ok?
    ensures Touches(body, S.RecordedBody(body, q, answer, place).value, RECORDS)
  {
    var appended := AppendDecision(body, DecisionOn(q, answer)).value;
    AppendTouches(body, DecisionOn(q, answer));
    var placed := if place then S.PlaceBody(appended, q.kind, answer).value else appended;
    if place { PlaceTouches(appended, q.kind, answer); } else { TouchesNothing(appended, RECORDS); }
    TouchesJoin(body, appended, placed, RECORDS);
    StripTouches(placed, Asked, RECORDS);
    TouchesJoin(body, placed, ClearOpen(placed).value, RECORDS);
    ClearDraftTouches(ClearOpen(placed).value, RECORDS);
    TouchesJoin(body, ClearOpen(placed).value, ClearDraft(ClearOpen(placed).value), RECORDS);
  }

  lemma AmendTouches(body: string, a: Amendment)
    requires Good(body) && S.AmendBody(body, a).Ok?
    ensures Touches(body, S.AmendBody(body, a).value, RECORDS)
  {
    var previous := FirstUnder(ReadJournal(body), a.questionId);
    if previous.Some? {
      var d := AmendedDecision(ReadJournal(body), previous.value, a);
      var appended := AppendDecision(body, d).value;
      AppendTouches(body, d);
      PlaceTouches(appended, previous.value.kind, a.answer);
      TouchesJoin(body, appended, S.PlaceBody(appended, previous.value.kind, a.answer).value, RECORDS);
    } else {
      TouchesNothing(body, RECORDS);
    }
  }

  lemma {:induction false} AmendAllTouches(body: string, list: seq<Amendment>)
    requires Good(body) && S.AmendAllBody(body, list).Ok?
    ensures Touches(body, S.AmendAllBody(body, list).value, RECORDS)
    decreases |list|
  {
    if list == [] {
      TouchesNothing(body, RECORDS);
    } else {
      var n := |list| - 1;
      var before := S.AmendAllBody(body, list[..n]).value;
      AmendAllTouches(body, list[..n]);
      AmendTouches(before, list[n]);
      TouchesJoin(body, before, S.AmendBody(before, list[n]).value, RECORDS);
    }
  }

  lemma AppliedTouches(body: string, q: Question, i: Interpretation)
    requires Good(body) && S.AppliedBody(body, q, i).Ok?
    ensures Touches(body, S.AppliedBody(body, q, i).value, RECORDS)
  {
    var d, cleared := DecisionOn(q, i.answer), ClearDraft(body);
    ClearDraftTouches(body, RECORDS);
    var appended := AppendDecision(cleared, d).value;
    AppendTouches(cleared, d);
    TouchesJoin(body, cleared, appended, RECORDS);
    var placed := S.PlaceBody(appended, q.kind, i.answer).value;
    PlaceTouches(appended, q.kind, i.answer);
    TouchesJoin(body, appended, placed, RECORDS);
    var amended := S.AmendAllBody(placed, i.amendments).value;
    AmendAllTouches(placed, i.amendments);
    TouchesJoin(body, placed, amended, RECORDS);
    StripTouches(amended, Asked, RECORDS);
    TouchesJoin(body, amended, ClearOpen(amended).value, RECORDS);
  }

  // ---------------------------------------------------------------------------------------------
  // Scripts

  /** Every body a script writes touches no more than these blocks of the body it starts from. */
  ghost predicate AllTouch(body: string, effects: seq<Effect<string>>, names: set<Name>) {
    forall k :: 0 <= k < |effects| && effects[k].SetBody? ==> Touches(body, effects[k].body, names)
  }

  lemma {:induction false} LastTouches(s: Issue<string>, effects: seq<Effect<string>>, names: set<Name>)
    requires Good(s.body) && AllTouch(s.body, effects, names)
    ensures Touches(s.body, Apply(s, effects).body, names)
    decreases |effects|
  {
    if effects == [] {
      TouchesNothing(s.body, names);
    } else {
      var n := |effects| - 1;
      LastTouches(s, effects[..n], names);
      DoTouches(s.body, Apply(s, effects[..n]), effects[n], names);
      assert Apply(s, effects) == Do(Apply(s, effects[..n]), effects[n]);
    }
  }

  lemma DoTouches(body: string, s: Issue<string>, e: Effect<string>, names: set<Name>)
    requires Touches(body, s.body, names) && (e.SetBody? ==> Touches(body, e.body, names))
    ensures Touches(body, Do(s, e).body, names)
  {
  }

  lemma AfterTouches(body: string, b: string, next: seq<Effect<string>>, names: set<Name>)
    requires Touches(body, b, names) && AllTouch(b, next, names)
    ensures AllTouch(body, [SetBody(b)] + next, names)
  {
    var all := [SetBody(b)] + next;
    forall k | 0 <= k < |all| && all[k].SetBody? ensures Touches(body, all[k].body, names) {
      if 0 < k {
        assert all[k] == next[k - 1];
        TouchesJoin(body, b, next[k - 1].body, names);
      }
    }
  }

  lemma AnnounceTouches(body: string, q: Question, names: set<Name>)
    requires Good(body) && Asked in names
    ensures AllTouch(body, S.AnnounceQuestionScript(body, q).effects, names)
    ensures AllTouch(body, S.AnnounceAgainScript(body, q).effects, names)
  {
    var marked := MarkAnnounced(body, q);
    if marked.Ok? { WriteTouches(body, Asked, RenderQuestion(q.(announced := true)), names); }
    PostedTouches(body, AskComment(q.id, q.text, q.options), marked, Open(q.id), names);
    AgainTouches(body, marked, names);
  }

  lemma PostedTouches(body: string, c: Comment, marked: Result<string>, verdict: Verdict, names: set<Name>)
    requires marked.Ok? ==> Touches(body, marked.value, names)
    ensures AllTouch(body, (match marked
                            case Err(e) => Script([Post(c)], Raises(e))
                            case Ok(b) => Script([Post(c), SetBody(b)], Returns(verdict))).effects, names)
  {
  }

  lemma AgainTouches(body: string, marked: Result<string>, names: set<Name>)
    requires marked.Ok? ==> Touches(body, marked.value, names)
    ensures AllTouch(body, (match marked
                            case Err(e) => Script([Post(AskedAgain)], Raises(e))
                            case Ok(b) => Script([Post(AskedAgain), SetBody(b), AddLabel(WAITING)], Returns(Reasked))).effects, names)
  {
  }

  lemma AskTouches(s: Issue<string>, kind: string, text: string, options: seq<string>, names: set<Name>)
    requires Good(s.body) && Asked in names
    ensures AllTouch(s.body, S.AskScript(s, kind, text, options).effects, names)
  {
    AskedTouches(s.body, kind, text, options, names);
    LabelledTouches(s, S.AskedScript(s.body, kind, text, options), names);
  }

  lemma AskedTouches(body: string, kind: string, text: string, options: seq<string>, names: set<Name>)
    requires Good(body) && Asked in names
    ensures AllTouch(body, S.AskedScript(body, kind, text, options).effects, names)
  {
    match ReadOpen(body)
    case Some(q) => AnnounceTouches(body, q, names);
    case None => CreateTouches(body, Question(NextId(ReadJournal(body), kind), kind, text, options, false), names);
  }

  lemma LabelledTouches(s: Issue<string>, asked: Script<string>, names: set<Name>)
    requires AllTouch(s.body, asked.effects, names)
    ensures AllTouch(s.body, asked.effects + LabelScript(Apply(s, asked.effects).labels), names)
  {
  }

  lemma CreateTouches(body: string, q: Question, names: set<Name>)
    requires Good(body) && Asked in names
    ensures AllTouch(body, S.CreateScript(body, q).effects, names)
  {
    if WriteOpen(body, q).Ok? {
      var b := WriteOpen(body, q).value;
      WriteTouches(body, Asked, RenderQuestion(q), names);
      AnnounceTouches(b, q, names);
      AfterTouches(body, b, S.AnnounceQuestionScript(b, q).effects, names);
    }
  }

  lemma AnnounceDraftTouches(body: string, d: Draft, i: Interpretation, names: set<Name>)
    requires Good(body) && Drafted in names
    ensures AllTouch(body, S.AnnounceDraftScript(body, d, i).effects, names)
  {
    if MarkDraftAnnounced(body, d).Ok? { WriteDraftTouches(body, d.(announced := true), names); }
  }

  lemma DraftTouches(body: string, q: Question, reply: Reply, names: set<Name>)
    requires Good(body) && Drafted in names
    ensures AllTouch(body, S.DraftScript(body, q, reply).effects, names)
  {
    if reply.Understood? {
      var d := Draft(q.id, Dump(reply.interpretation), false);
      if WriteDraft(body, d).Ok? {
        var b := WriteDraft(body, d).value;
        WriteDraftTouches(body, d, names);
        AnnounceDraftTouches(b, d, reply.interpretation, names);
        AfterTouches(body, b, S.AnnounceDraftScript(b, d, reply.interpretation).effects, names);
      }
    }
  }

  lemma SettleTouches(body: string, b: Result<string>, verdict: Verdict)
    requires b.Ok? ==> Touches(body, b.value, RECORDS)
    ensures AllTouch(body, S.SettleScript(b, verdict).effects, RECORDS)
  {
  }

  lemma ConfirmTouches(body: string, q: Question, answer: string, reply: Reply)
    requires Good(body)
    ensures AllTouch(body, S.ConfirmScript(body, q, answer, reply).effects, RECORDS)
  {
    DraftTouches(body, q, reply, RECORDS);
    if ReadDraft(body).Some? && Load(ReadDraft(body).value.interpretation).Some? {
      var d, i := ReadDraft(body).value, Load(ReadDraft(body).value.interpretation).value;
      if S.AppliedBody(body, q, i).Ok? { AppliedTouches(body, q, i); }
      SettleTouches(body, S.AppliedBody(body, q, i), Accepted);
      AnnounceDraftTouches(body, d, i, RECORDS);
      ConfirmCases(body, d, i, q, answer, reply);
    }
  }

  lemma ConfirmCases(body: string, d: Draft, i: Interpretation, q: Question, answer: string, reply: Reply)
    requires ReadDraft(body) == Some(d) && Load(d.interpretation) == Some(i)
    requires AllTouch(body, S.SettleScript(S.AppliedBody(body, q, i), Accepted).effects, RECORDS)
    requires AllTouch(body, S.AnnounceDraftScript(body, d, i).effects, RECORDS)
    requires AllTouch(body, S.DraftScript(body, q, reply).effects, RECORDS)
    ensures AllTouch(body, S.ConfirmScript(body, q, answer, reply).effects, RECORDS)
  {
  }

  lemma ReaskTouches(body: string, questionId: string)
    requires Good(body)
    ensures AllTouch(body, S.ReaskScript(body, questionId).effects, RECORDS)
  {
    var q := Revived(ReadJournal(body), questionId);
    if WriteOpen(body, q).Ok? {
      var b := WriteOpen(body, q).value;
      WriteTouches(body, Asked, RenderQuestion(q), RECORDS);
      AnnounceTouches(b, q, RECORDS);
      AfterTouches(body, b, S.AnnounceAgainScript(b, q).effects, RECORDS);
    }
  }

  lemma OpenTouches(body: string, q: Question, answer: string, commentId: Option<int>, reply: Reply)
    requires Good(body)
    ensures AllTouch(body, S.OpenScript(body, q, answer, commentId, reply).effects, RECORDS)
  {
    if IsChoice(answer, |q.options|) { ChoiceTouches(body, q, q.options[Number(answer) - 1], true, Accepted); }
    ConfirmTouches(body, q, answer, reply);
  }

  lemma ChoiceTouches(body: string, q: Question, answer: string, place: bool, verdict: Verdict)
    requires Good(body)
    ensures AllTouch(body, S.SettleScript(S.RecordedBody(body, q, answer, place), verdict).effects, RECORDS)
  {
    if S.RecordedBody(body, q, answer, place).Ok? { RecordedTouches(body, q, answer, place); }
    SettleTouches(body, S.RecordedBody(body, q, answer, place), verdict);
  }

  lemma AnswerTouches(s: Issue<string>, questionId: string, text: string, commentId: Option<int>, reply: Reply)
    requires Good(s.body)
    ensures AllTouch(s.body, S.AnswerScript(s, questionId, text, commentId, reply).effects, RECORDS)
  {
    match ReadOpen(s.body)
    case None => ReaskTouches(s.body, questionId);
    case Some(q) => OpenTouches(s.body, q, Trim(text), commentId, reply);
  }

  lemma ScriptTouches(s: Issue<string>, e: TextEvent)
    requires Good(s.body) && !e.Edits?
    ensures AllTouch(s.body, TextScript(s, e).effects, RECORDS)
  {
    match e
    case Asks(kind, text, options) => AskTouches(s, kind, text, options, RECORDS);
    case Answers(questionId, text, commentId, reply) => AnswerTouches(s, questionId, text, commentId, reply);
    case Closes(section) =>
      var open := ReadOpen(s.body);
      if open.Some? { ChoiceTouches(s.body, open.value, ReadCriterion(s.body, section), false, Closed); }
  }

  /**
   * However an attempt of any activity is cut short, it leaves every other block of a good body as it was, and the text
   * outside the blocks too, save for line ends at its end.
   */
  lemma AttemptTouches(s: Issue<string>, e: TextEvent, done: nat, s': Issue<string>)
    requires Good(s.body) && TextAttempt(s, e, done, s')
    ensures Touches(s.body, s'.body, RECORDS)
  {
    var effects := TextScript(s, e).effects;
    ScriptTouches(s, e);
    LastTouches(s, effects[..done], RECORDS);
  }

  lemma StepTouches(s: Issue<string>, e: TextEvent, s': Issue<string>)
    requires Good(s.body) && TextStep(s, e, s') && !e.Edits?
    ensures Touches(s.body, s'.body, RECORDS)
  {
    var done: nat :| TextAttempt(s, e, done, s');
    AttemptTouches(s, e, done, s');
  }

  lemma UntouchedReads(body: string, b: string, n: Name)
    requires Good(body) && Touches(body, b, RECORDS) && n !in RECORDS
    ensures Read(b, n) == Read(body, n)
  {
    ReadIsSlot(body, n);
    ReadIsSlot(b, n);
  }

  /**
   * The blocks that are not records, the plan and its growth, are read as before, and the text outside the blocks
   * gained no more than line ends.
   */
  ghost predicate RestKept(body: string, b: string) {
    (forall n: Name :: n !in RECORDS ==> Read(b, n) == Read(body, n)) && Longer(Outside(body), Outside(b))
  }

  lemma StepKeepsRest(s: Issue<string>, e: TextEvent, s': Issue<string>)
    requires Good(s.body) && TextStep(s, e, s') && !e.Edits?
    ensures RestKept(s.body, s'.body)
  {
    StepTouches(s, e, s');
    TouchesKeepRest(s.body, s'.body);
  }

  lemma TouchesKeepRest(body: string, b: string)
    requires Good(body) && Touches(body, b, RECORDS)
    ensures RestKept(body, b)
  {
    forall n: Name | n !in RECORDS ensures Read(b, n) == Read(body, n) { UntouchedReads(body, b, n); }
  }

  lemma GoodStep(states: seq<Issue<string>>, events: seq<TextEvent>, n: nat)
    requires TextRun(states, events) && Unmarked(states[0].body) && n < |events|
    ensures Good(states[n].body) && TextStep(states[n], events[n], states[n + 1])
  {
    UnmarkedIsBlank(states[0]);
    AlwaysFit(states, events, n);
    assert TextStepAt(states, events, n);
  }

  /** So does every step of a run that is not an edit by people: the plan and the growth blocks stay to the letter. */
  lemma StepLeavesTheRest(states: seq<Issue<string>>, events: seq<TextEvent>, n: nat)
    requires TextRun(states, events) && Unmarked(states[0].body) && n < |events| && !events[n].Edits?
    ensures RestKept(states[n].body, states[n + 1].body)
  {
    GoodStep(states, events, n);
    StepKeepsRest(states[n], events[n], states[n + 1]);
  }
}
