/** Drafts that outlive their question, in the text of the body: the first answer to a new question, and a run of the code. */
module TextLeftDrafts {
  import opened Blocks
  import opened Bodies
  import opened Chars
  import opened Convergence
  import opened Damage
  import opened Documents
  import opened Footprint
  import opened Journal
  import opened LeftDrafts
  import opened Progress
  import opened Protocol
  import opened Records
  import opened Refinement
  import opened Refusals
  import opened Runs
  import S = Scripts
  import opened TextConvergence
  import opened Texts
  import opened TextRuns

  /** The text holds a draft shown under this identifier. */
  predicate ShownInText(body: string, id: string) {
    ReadDraft(body).Some? && ReadDraft(body).value.questionId == id && ReadDraft(body).value.announced
  }

  /** The question is new, the answer to it is its first, it is a word of confirmation, and both calls get through. */
  ghost predicate FirstYesThrough(s: Issue<string>, ask: TextEvent, s': Issue<string>, answer: TextEvent, s'': Issue<string>) {
    && Reached(s) && ReadOpen(s.body) == None && ask.Asks? && Through(s, ask, s')
    && answer.Answers? && answer.questionId == NextId(ReadJournal(s.body), ask.kind)
    && IsConfirmation(Trim(answer.text)) && !IsChoice(Trim(answer.text), |ask.options|)
    && Through(s', answer, s'')
  }

  /**
   * The first answer to a new question, a word of confirmation, changes the journal in the text at once if and only if,
   * before the question was asked, the text held a draft shown under the identifier the question was to get.
   */
  lemma FirstYesInText(s: Issue<string>, ask: TextEvent, s': Issue<string>, answer: TextEvent, s'': Issue<string>)
    requires FirstYesThrough(s, ask, s', answer, s'')
    ensures ReadJournal(s''.body) != ReadJournal(s.body) <==> ShownInText(s.body, NextId(ReadJournal(s.body), ask.kind))
  {
    ReachedIsSound(s);
    ThroughIsCompleted(s, ask, s');
    ThroughIsCompleted(s', answer, s'');
    FirstYesDecidesIff(OnBoard(s), EventOf(s, ask), OnBoard(s'), EventOf(s', answer), OnBoard(s''));
  }

  // ---------------------------------------------------------------------------------------------
  // Which drafts decide

  /** An answer to the question under this identifier, and what the model made of it. */
  predicate GivenInText(e: TextEvent, id: string, i: Interpretation) {
    e.Answers? && e.questionId == id && e.reply == Understood(i)
  }

  /** The step decides the open question in the text by a free answer, as the interpretation says. */
  ghost predicate DecidesInText(s: Issue<string>, e: TextEvent, s': Issue<string>, q: Question, i: Interpretation) {
    && ReadOpen(s.body) == Some(q) && e.Answers? && e.questionId == q.id && !IsChoice(Trim(e.text), |q.options|)
    && exists added :: ReadJournal(s'.body) == ReadJournal(s.body) + added && OnList(ReadJournal(s.body), added, q, i)
  }

  lemma DecidesOnBoard(s: Issue<string>, e: TextEvent, s': Issue<string>, q: Question, i: Interpretation)
    requires Fit(s.body) && Fit(s'.body) && DecidesInText(s, e, s', q, i)
    ensures DecidesBy(OnBoard(s), EventOf(s, e), OnBoard(s'), q, i)
  {
  }

  lemma DecidesOnBoards(states: seq<Issue<string>>, events: seq<TextEvent>, q: Question, i: Interpretation, n: nat)
    requires AllFit(states) && |states| == |events| + 1 && n < |events|
    requires DecidesInText(states[n], events[n], states[n + 1], q, i)
    ensures DecidesBy(Boards(states)[n], Seen(states, events)[n], Boards(states)[n + 1], q, i)
  {
    DecidesOnBoard(states[n], events[n], states[n + 1], q, i);
  }

  lemma NoDraftOnBoard(s: Issue<string>, id: string)
    requires Fit(s.body) && !DraftInText(s.body, id)
    ensures !HasDraft(OnBoard(s).body, id)
  {
  }

  lemma GivenWhen(states: seq<Issue<string>>, events: seq<TextEvent>, n: nat, id: string, i: Interpretation) returns (k: nat)
    requires n <= |events| <= |states| && GivenBefore(Seen(states, events), n, id, i)
    ensures k < n && GivenInText(events[k], id, i)
  {
    k :| 0 <= k < n && GivenFor(Seen(states, events)[k], id, i);
  }

  /**
   * In a run of the code that starts without a draft under the identifier of a question, a free answer decides that
   * question only as the model made, in that run, of an answer under that identifier.
   */
  lemma OnlyOwnDraftInText(states: seq<Issue<string>>, events: seq<TextEvent>, q: Question, i: Interpretation, n: nat)
    returns (k: nat)
    requires TextRun(states, events) && Reached(states[0]) && !DraftInText(states[0].body, q.id)
    requires n < |events| && DecidesInText(states[n], events[n], states[n + 1], q, i)
    ensures k < n && GivenInText(events[k], q.id, i)
  {
    ReachedIsSound(states[0]);
    RunRefines(states, events);
    NoDraftOnBoard(states[0], q.id);
    DecidesOnBoards(states, events, q, i, n);
    OnlyOwnDraftDecides(Boards(states), Seen(states, events), q, i, n);
    k := GivenWhen(states, events, n, q.id, i);
  }

  /**
   * On any body, whatever a free answer says and whatever the model would make of it: a draft under the question's
   * identifier that was not shown yet is shown in its place.
   */
  lemma HiddenDraftInterceptsInText(s: Issue<string>, q: Question, d: Draft, i: Interpretation,
                                    text: string, commentId: Option<int>, reply: Reply)
    requires ReadOpen(s.body) == Some(q) && ReadDraft(s.body) == Some(d) && d.questionId == q.id && !d.announced
    requires Load(d.interpretation) == Some(i) && Trim(text) != "" && !IsChoice(Trim(text), |q.options|)
    ensures S.AnswerScript(s, q.id, text, commentId, reply) == S.AnnounceDraftScript(s.body, d, i)
    ensures S.AnnounceDraftScript(s.body, d, i).effects[0] == Post(Protocol.Shown(q.id, i, ReadJournal(s.body)))
  {
  }

  /** A word of confirmation given to a question, of which the model makes nothing. */
  predicate YesInText(e: TextEvent, id: string, options: seq<string>) {
    && e.Answers? && e.questionId == id && e.reply == Refused
    && IsConfirmation(Trim(e.text)) && !IsChoice(Trim(e.text), |options|)
  }

  /**
   * A new question and two words of confirmation, all three through, the model making nothing of them: the journal in
   * the text is another one if and only if the text held a draft, shown or not, under the identifier before the
   * question was asked.
   */
  lemma TwoYesInText(s: Issue<string>, ask: TextEvent, s1: Issue<string>, yes: TextEvent, s2: Issue<string>,
                     again: TextEvent, s3: Issue<string>)
    requires Reached(s) && ReadOpen(s.body) == None && ask.Asks? && Through(s, ask, s1)
    requires YesInText(yes, NextId(ReadJournal(s.body), ask.kind), ask.options) && Through(s1, yes, s2)
    requires YesInText(again, NextId(ReadJournal(s.body), ask.kind), ask.options) && Through(s2, again, s3)
    ensures ReadJournal(s3.body) != ReadJournal(s.body) <==> DraftInText(s.body, NextId(ReadJournal(s.body), ask.kind))
  {
    ReachedIsSound(s);
    ThroughIsCompleted(s, ask, s1);
    ThroughIsCompleted(s1, yes, s2);
    ThroughIsCompleted(s2, again, s3);
    TwoYesDecideIff(OnBoard(s), EventOf(s, ask), OnBoard(s1), EventOf(s1, yes), OnBoard(s2), EventOf(s2, again), OnBoard(s3));
  }

  // ---------------------------------------------------------------------------------------------
  // Runs that do it

  /** A fit body without a journal block, with this question and this draft. */
  ghost predicate Stage(s: Issue<string>, open: Option<Question>, draft: Option<Pending>) {
    Fit(s.body) && Slot(s.body, Name.Answers) == None && Shown(View(s.body), open, draft)
  }

  /** The blocks a question and its draft live in. */
  const TALK: set<Name> := {Asked, Name.Drafted}

  lemma StageStays(s: Issue<string>, s': Issue<string>, open: Option<Question>, draft: Option<Pending>)
    requires Slot(s.body, Name.Answers) == None && Touches(s.body, s'.body, TALK) && Fit(s'.body)
    requires Shown(View(s'.body), open, draft)
    ensures Stage(s', open, draft)
  {
    assert Slot(s'.body, Name.Answers) == Slot(s.body, Name.Answers);
  }

  predicate Shown(b: Board, open: Option<Question>, draft: Option<Pending>) {
    b.journal == [] && b.open == open && b.draft == draft
  }

  function Next(s: Issue<string>, e: TextEvent): Issue<string>
    requires !e.Edits?
  {
    Apply(s, TextScript(s, e).effects)
  }

  lemma NextIsTextStep(s: Issue<string>, e: TextEvent)
    requires !e.Edits?
    ensures TextStep(s, e, Next(s, e))
  {
    var effects := TextScript(s, e).effects;
    assert effects[..|effects|] == effects;
    assert TextAttempt(s, e, |effects|, Next(s, e));
  }

  lemma FirstId(kind: string)
    requires Unmarked(kind)
    ensures Unmarked(NextId([], kind))
  {
    IdUnmarked(kind, MaxUsed([], kind) + 1);
  }

  lemma StartStage(s: Issue<string>)
    requires Unmarked(s.body)
    ensures Stage(s, None, None)
  {
    UnmarkedIsBlank(s);
    UnmarkedIsGood(s.body);
    assert InPlace(s.body, Name.Answers);
  }

  /** The first question of its kind, announced, with no marker in its texts. */
  ghost predicate FirstOfKind(q: Question) {
    q.id == NextId([], q.kind) && q.announced && Unmarked(q.kind) && Unmarked(q.text) &&
    forall i :: 0 <= i < |q.options| ==> Unmarked(q.options[i])
  }

  /** Asking in a body with no question. */
  lemma AskThrough(s: Issue<string>, draft: Option<Pending>, q: Question)
    requires Stage(s, None, draft) && FirstOfKind(q)
    ensures var ask := Asks(q.kind, q.text, q.options);
      Through(s, ask, Next(s, ask)) && Stage(Next(s, ask), Some(q), draft)
  {
    var ask := Asks(q.kind, q.text, q.options);
    var s' := Next(s, ask);
    GoodIsOrderly(s.body);
    AskReturnsIff(s, q.kind, q.text, q.options);
    ThroughIsCompleted(s, ask, s');
    JustAsked(OnBoard(s), EventOf(s, ask), OnBoard(s'));
    AskTouches(s, q.kind, q.text, q.options, TALK);
    LastTouches(s, TextScript(s, ask).effects, TALK);
    StageStays(s, s', Some(q), draft);
  }

  /** What an answer in free text is, when there is no draft. */
  lemma FreeAnswer(s: Issue<string>, q: Question, free: string, reply: Reply)
    requires ReadOpen(s.body) == Some(q) && ReadDraft(s.body) == None
    requires Trim(free) != "" && !IsChoice(Trim(free), |q.options|)
    ensures S.AnswerScript(s, q.id, free, None, reply) == S.DraftScript(s.body, q, reply)
  {
  }

  /** A free answer to it, understood. */
  lemma DraftThrough(s: Issue<string>, q: Question, free: string, i: Interpretation)
    requires Stage(s, Some(q), None) && q.options == [] && Unmarked(q.id) && InterpretationUnmarked(i)
    requires i.amendments == [] && Trim(i.answer) != "" && Trim(free) != "" && !IsChoice(Trim(free), 0)
    ensures var answer := TextEvent.Answers(q.id, free, None, Understood(i));
      Through(s, answer, Next(s, answer)) && Stage(Next(s, answer), Some(q), Some(Pending(q.id, i, true)))
  {
    var reply := Understood(i);
    var answer := TextEvent.Answers(q.id, free, None, reply);
    var s' := Next(s, answer);
    FreeAnswer(s, q, free, reply);
    GoodIsOrderly(s.body);
    DraftScriptIff(s.body, q, reply);
    ThroughIsCompleted(s, answer, s');
    DraftingCompleted(OnBoard(s), EventOf(s, answer), q, OnBoard(s'));
    DraftTouches(s.body, q, reply, TALK);
    LastTouches(s, TextScript(s, answer).effects, TALK);
    StageStays(s, s', Some(q), Some(Pending(q.id, i, true)));
  }

  /** Such an answer raises nothing, makes three writes and touches the draft alone. */
  lemma DraftingWrites(s: Issue<string>, q: Question, free: string, i: Interpretation)
    requires Stage(s, Some(q), None) && q.options == [] && Unmarked(q.id) && InterpretationUnmarked(i)
    requires i.amendments == [] && Trim(i.answer) != "" && Trim(free) != "" && !IsChoice(Trim(free), 0)
    ensures var script := TextScript(s, TextEvent.Answers(q.id, free, None, Understood(i)));
      script.end.Returns? && |script.effects| == 3 && AllTouch(s.body, script.effects, TALK)
  {
    var reply := Understood(i);
    FreeAnswer(s, q, free, reply);
    GoodIsOrderly(s.body);
    DraftScriptIff(s.body, q, reply);
    ThreeWrites(s, q, TextEvent.Answers(q.id, free, None, reply), i);
    DraftTouches(s.body, q, reply, TALK);
  }

  /** The same answer, cut short after its comment: its draft is in the text, without the flag. */
  lemma DraftCut(s: Issue<string>, q: Question, free: string, i: Interpretation) returns (s': Issue<string>)
    requires Stage(s, Some(q), None) && q.options == [] && Unmarked(q.id) && InterpretationUnmarked(i)
    requires i.amendments == [] && Trim(i.answer) != "" && Trim(free) != "" && !IsChoice(Trim(free), 0)
    ensures TextStep(s, TextEvent.Answers(q.id, free, None, Understood(i)), s')
    ensures Stage(s', Some(q), Some(Pending(q.id, i, false))) && ShownIn(s'.comments, q.id, i)
  {
    var answer := TextEvent.Answers(q.id, free, None, Understood(i));
    var effects := TextScript(s, answer).effects;
    DraftingWrites(s, q, free, i);
    s' := Apply(s, effects[..2]);
    TwoWritesCut(s, q, answer, i, s');
    LastTouches(s, effects[..2], TALK);
    StageStays(s, s', Some(q), Some(Pending(q.id, i, false)));
  }

  lemma TwoWritesCut(s: Issue<string>, q: Question, answer: TextEvent, i: Interpretation, s': Issue<string>)
    requires Stage(s, Some(q), None) && q.options == [] && i.amendments == [] && Trim(i.answer) != ""
    requires answer.Answers? && answer.questionId == q.id && answer.reply == Understood(i)
    requires Trim(answer.text) != "" && !IsChoice(Trim(answer.text), 0) && 2 <= |TextScript(s, answer).effects|
    requires s' == Apply(s, TextScript(s, answer).effects[..2])
    ensures TextStep(s, answer, s') && Fit(s'.body) && Shown(View(s'.body), Some(q), Some(Pending(q.id, i, false)))
    ensures ShownIn(s'.comments, q.id, i)
  {
    assert TextAttempt(s, answer, 2, s');
    AttemptRefines(s, answer, 2, s');
    DraftingCut(OnBoard(s), EventOf(s, answer), q, OnBoard(s'));
  }

  /** Such an answer that raises nothing makes three writes: the draft, the comment, the flag. */
  lemma ThreeWrites(s: Issue<string>, q: Question, answer: TextEvent, i: Interpretation)
    requires Stage(s, Some(q), None) && q.options == [] && i.amendments == [] && Trim(i.answer) != ""
    requires answer.Answers? && answer.questionId == q.id && answer.reply == Understood(i)
    requires Trim(answer.text) != "" && !IsChoice(Trim(answer.text), 0) && TextScript(s, answer).end.Returns?
    ensures |TextScript(s, answer).effects| == 3
  {
    ScriptRefines(s, answer);
    assert |ScriptOf(OnBoard(s), EventOf(s, answer)).effects| == 3;
  }

  lemma CutQuestion(body: string) returns (b: string)
    requires Good(body)
    ensures Touches(body, b, TALK) && ReadOpen(b) == None && Bodies.SameRecords(body, b, false, true, true)
  {
    ClearOpenGood(body);
    b := ClearOpen(body).value;
    StripTouches(body, Asked, TALK);
  }

  /** People take the question out of the body. */
  lemma TakenOut(s: Issue<string>, open: Option<Question>, draft: Option<Pending>) returns (s': Issue<string>)
    requires Stage(s, open, draft)
    ensures TextStep(s, Edits, s') && Stage(s', None, draft)
  {
    var b := CutQuestion(s.body);
    s' := s.(body := b);
    QuestionGone(s, s', open, draft);
  }

  lemma QuestionGone(s: Issue<string>, s': Issue<string>, open: Option<Question>, draft: Option<Pending>)
    requires Stage(s, open, draft) && s' == s.(body := s'.body) && Touches(s.body, s'.body, TALK)
    requires ReadOpen(s'.body) == None && Bodies.SameRecords(s.body, s'.body, false, true, true)
    ensures TextEdit(s, s') && Stage(s', None, draft)
  {
    StageStays(s, s', None, draft);
  }

  /** An interpretation without amendments and without markers can be applied to a body with no journal. */
  lemma CanApplyFirst(body: string, q: Question, i: Interpretation)
    requires Good(body) && Slot(body, Name.Answers) == None && ReadJournal(body) == [] && i.amendments == []
    requires QuestionUnmarked(q) && InterpretationUnmarked(i)
    ensures CanApply(ClearDraft(body), q, i)
  {
    GoodIsOrderly(body);
    FirstAddable(body, q, i);
    ClearedOrderly(body, q, i);
  }

  lemma FirstAddable(body: string, q: Question, i: Interpretation)
    requires Good(body) && Slot(body, Name.Answers) == None && ReadJournal(body) == [] && i.amendments == []
    requires QuestionUnmarked(q) && InterpretationUnmarked(i)
    ensures CanApply(body, q, i)
  {
    var d := DecisionOn(q, i.answer);
    assert JournalAfter(body, q, i) == [d];
    assert DecisionUnmarked(d) by { EmptyUnmarked(); }
    GoodIsOrderly(body);
    ReadIsSlot(body, Name.Answers);
  }

  lemma EmptyUnmarked()
    ensures Unmarked("")
  {
    forall n: Name ensures ClearOf("", n) { ClearOfNothing(n); }
  }

  /** What the draft of the text is, when the board shows this one. */
  lemma DraftShown(body: string, q: Question, i: Interpretation)
    requires Fit(body) && View(body).draft == Some(Pending(q.id, i, true))
    ensures ReadDraft(body).Some? && ReadDraft(body).value.questionId == q.id && ReadDraft(body).value.announced
    ensures Load(ReadDraft(body).value.interpretation) == Some(i)
  {
  }

  /** A word of confirmation that meets a draft not shown yet: it is shown now. */
  lemma HiddenThrough(s: Issue<string>, q: Question, i: Interpretation)
    requires Stage(s, Some(q), Some(Pending(q.id, i, false))) && q.options == []
    requires Unmarked(q.id) && InterpretationUnmarked(i)
    ensures var yes := TextEvent.Answers(q.id, "yes", None, Refused);
      Through(s, yes, Next(s, yes)) && Stage(Next(s, yes), Some(q), Some(Pending(q.id, i, true)))
  {
    var yes := TextEvent.Answers(q.id, "yes", None, Refused);
    var s' := Next(s, yes);
    var d := Draft(q.id, Dump(i), false);
    YesConfirms();
    YesIsNoNumber(0);
    EmptyIsNoConfirmation();
    HiddenInText(s.body, q, i);
    HiddenDraftInterceptsInText(s, q, d, i, "yes", None, Refused);
    DraftUnmarkedIff(q.id, i, true);
    GoodIsOrderly(s.body);
    AnnounceDraftIff(s.body, d, i);
    ThroughIsCompleted(s, yes, s');
    HiddenShown(OnBoard(s), EventOf(s, yes), q, OnBoard(s'));
    AnnounceDraftTouches(s.body, d, i, TALK);
    LastTouches(s, TextScript(s, yes).effects, TALK);
    StageStays(s, s', Some(q), Some(Pending(q.id, i, true)));
  }

  lemma HiddenInText(body: string, q: Question, i: Interpretation)
    requires Fit(body) && View(body).draft == Some(Pending(q.id, i, false))
    ensures ReadDraft(body) == Some(Draft(q.id, Dump(i), false)) && Load(Dump(i)) == Some(i)
  {
  }

  /** A confirmation of the draft in the body. */
  lemma YesThrough(s: Issue<string>, q: Question, i: Interpretation)
    requires Stage(s, Some(q), Some(Pending(q.id, i, true))) && q.options == []
    requires QuestionUnmarked(q) && InterpretationUnmarked(i) && i.amendments == []
    ensures var yes := TextEvent.Answers(q.id, "yes", None, Refused); Through(s, yes, Next(s, yes))
  {
    GoodIsSeparate(s.body);
    CanApplyFirst(s.body, q, i);
    DraftShown(s.body, q, i);
    YesConfirms();
    assert CanConfirm(s.body, q, Trim("yes"), Refused);
    AnswerReturnsIff(s, q.id, "yes", None, Refused);
  }

  /** The run `longer` goes on from the run `states`. */
  ghost predicate GoesOn(states: seq<Issue<string>>, events: seq<TextEvent>, longer: seq<Issue<string>>, more: seq<TextEvent>) {
    && |states| == |events| + 1 && |longer| == |more| + 1 && |events| <= |more|
    && (forall i :: 0 <= i < |states| ==> longer[i] == states[i])
    && (forall i :: 0 <= i < |events| ==> more[i] == events[i])
  }

  lemma SameStep(states: seq<Issue<string>>, events: seq<TextEvent>, longer: seq<Issue<string>>, more: seq<TextEvent>, i: nat)
    requires GoesOn(states, events, longer, more) && i < |events| && TextStepAt(states, events, i)
    ensures TextStepAt(longer, more, i)
  {
    assert longer[i] == states[i] && longer[i + 1] == states[i + 1] && more[i] == events[i];
  }

  lemma LastStep(states: seq<Issue<string>>, events: seq<TextEvent>, e: TextEvent, s': Issue<string>)
    requires |states| == |events| + 1 && TextStep(states[|events|], e, s')
    ensures TextStepAt(states + [s'], events + [e], |events|)
  {
  }

  lemma OldStep(states: seq<Issue<string>>, events: seq<TextEvent>, longer: seq<Issue<string>>, more: seq<TextEvent>, i: nat)
    requires TextRun(states, events) && GoesOn(states, events, longer, more) && i < |events|
    ensures TextStepAt(longer, more, i)
  {
    assert TextStepAt(states, events, i);
    SameStep(states, events, longer, more, i);
  }

  lemma SameAt(states: seq<Issue<string>>, events: seq<TextEvent>, n: nat, i: nat)
    requires i == n < |events| < |states| && TextStepAt(states, events, n)
    ensures TextStepAt(states, events, i)
  {
  }

  lemma RunGoesOn(states: seq<Issue<string>>, events: seq<TextEvent>, longer: seq<Issue<string>>, more: seq<TextEvent>)
    requires TextRun(states, events) && GoesOn(states, events, longer, more) && |more| == |events| + 1
    requires TextStepAt(longer, more, |events|)
    ensures TextRun(longer, more)
  {
    forall i | 0 <= i < |more| ensures TextStepAt(longer, more, i) {
      if i < |events| { OldStep(states, events, longer, more, i); } else { SameAt(longer, more, |events|, i); }
    }
  }

  /** One step more. */
  lemma RunMore(states: seq<Issue<string>>, events: seq<TextEvent>, e: TextEvent, s': Issue<string>)
    returns (longer: seq<Issue<string>>, more: seq<TextEvent>)
    requires TextRun(states, events) && TextStep(states[|events|], e, s')
    ensures TextRun(longer, more) && GoesOn(states, events, longer, more)
    ensures |more| == |events| + 1 && more[|events|] == e && longer[|states|] == s'
  {
    longer, more := states + [s'], events + [e];
    LastStep(states, events, e, s');
    RunGoesOn(states, events, longer, more);
  }

  /** A run, and the stage it has come to. */
  ghost predicate RunTo(states: seq<Issue<string>>, events: seq<TextEvent>, open: Option<Question>, draft: Option<Pending>) {
    TextRun(states, events) && Stage(states[|events|], open, draft)
  }

  lemma AskMore(states: seq<Issue<string>>, events: seq<TextEvent>, draft: Option<Pending>, q: Question)
    returns (longer: seq<Issue<string>>, more: seq<TextEvent>)
    requires RunTo(states, events, None, draft) && FirstOfKind(q)
    ensures GoesOn(states, events, longer, more) && |more| == |events| + 1
    ensures more[|events|] == Asks(q.kind, q.text, q.options) && RunTo(longer, more, Some(q), draft)
  {
    var s, ask := states[|events|], Asks(q.kind, q.text, q.options);
    AskThrough(s, draft, q);
    NextIsTextStep(s, ask);
    longer, more := RunMore(states, events, ask, Next(s, ask));
  }

  lemma DraftMore(states: seq<Issue<string>>, events: seq<TextEvent>, q: Question, free: string, i: Interpretation)
    returns (longer: seq<Issue<string>>, more: seq<TextEvent>)
    requires RunTo(states, events, Some(q), None) && q.options == [] && Unmarked(q.id) && InterpretationUnmarked(i)
    requires i.amendments == [] && Trim(i.answer) != "" && Trim(free) != "" && !IsChoice(Trim(free), 0)
    ensures GoesOn(states, events, longer, more) && |more| == |events| + 1
    ensures more[|events|] == TextEvent.Answers(q.id, free, None, Understood(i))
    ensures RunTo(longer, more, Some(q), Some(Pending(q.id, i, true)))
  {
    var s, answer := states[|events|], TextEvent.Answers(q.id, free, None, Understood(i));
    DraftThrough(s, q, free, i);
    NextIsTextStep(s, answer);
    longer, more := RunMore(states, events, answer, Next(s, answer));
  }

  lemma CutMore(states: seq<Issue<string>>, events: seq<TextEvent>, q: Question, free: string, i: Interpretation)
    returns (longer: seq<Issue<string>>, more: seq<TextEvent>)
    requires RunTo(states, events, Some(q), None) && q.options == [] && Unmarked(q.id) && InterpretationUnmarked(i)
    requires i.amendments == [] && Trim(i.answer) != "" && Trim(free) != "" && !IsChoice(Trim(free), 0)
    ensures GoesOn(states, events, longer, more) && |more| == |events| + 1
    ensures more[|events|] == TextEvent.Answers(q.id, free, None, Understood(i))
    ensures RunTo(longer, more, Some(q), Some(Pending(q.id, i, false))) && ShownIn(longer[|more|].comments, q.id, i)
  {
    var s' := DraftCut(states[|events|], q, free, i);
    longer, more := RunMore(states, events, TextEvent.Answers(q.id, free, None, Understood(i)), s');
  }

  lemma HiddenMore(states: seq<Issue<string>>, events: seq<TextEvent>, q: Question, i: Interpretation)
    returns (longer: seq<Issue<string>>, more: seq<TextEvent>)
    requires RunTo(states, events, Some(q), Some(Pending(q.id, i, false))) && q.options == []
    requires Unmarked(q.id) && InterpretationUnmarked(i)
    ensures GoesOn(states, events, longer, more) && |more| == |events| + 1
    ensures more[|events|] == TextEvent.Answers(q.id, "yes", None, Refused)
    ensures RunTo(longer, more, Some(q), Some(Pending(q.id, i, true)))
  {
    var s, yes := states[|events|], TextEvent.Answers(q.id, "yes", None, Refused);
    HiddenThrough(s, q, i);
    NextIsTextStep(s, yes);
    longer, more := RunMore(states, events, yes, Next(s, yes));
  }

  lemma TakenOutMore(states: seq<Issue<string>>, events: seq<TextEvent>, open: Option<Question>, draft: Option<Pending>)
    returns (longer: seq<Issue<string>>, more: seq<TextEvent>)
    requires RunTo(states, events, open, draft)
    ensures GoesOn(states, events, longer, more) && |more| == |events| + 1 && more[|events|] == Edits
    ensures RunTo(longer, more, None, draft)
  {
    var s' := TakenOut(states[|events|], open, draft);
    longer, more := RunMore(states, events, Edits, s');
  }

  lemma AskFirst(s: Issue<string>, q: Question) returns (states: seq<Issue<string>>, events: seq<TextEvent>)
    requires Unmarked(s.body) && FirstOfKind(q)
    ensures RunTo(states, events, Some(q), None)
    ensures states[0] == s && |events| == 1 && events[0] == Asks(q.kind, q.text, q.options)
  {
    StartStage(s);
    states, events := AskMore([s], [], None, q);
  }

  /** Asked, answered in free text, the draft shown. */
  lemma ShowsDraftInText(s: Issue<string>, q: Question, free: string, i: Interpretation)
    returns (states: seq<Issue<string>>, events: seq<TextEvent>)
    requires q == Question(NextId([], q.kind), q.kind, q.text, [], true)
    requires Unmarked(s.body) && Unmarked(q.kind) && Unmarked(q.text) && InterpretationUnmarked(i)
    requires i.amendments == [] && Trim(i.answer) != "" && Trim(free) != "" && !IsChoice(Trim(free), 0)
    ensures RunTo(states, events, Some(q), Some(Pending(q.id, i, true))) && states[0] == s && |events| == 2
    ensures events[0] == Asks(q.kind, q.text, []) && events[1] == TextEvent.Answers(q.id, free, None, Understood(i))
  {
    FirstId(q.kind);
    states, events := AskFirst(s, q);
    states, events := DraftMore(states, events, q, free, i);
  }

  /** Asked, answered in free text, the draft shown; then the question's block is taken out of the body. */
  lemma LeavesDraftInText(s: Issue<string>, kind: string, text: string, free: string, i: Interpretation)
    returns (states: seq<Issue<string>>, events: seq<TextEvent>)
    requires Unmarked(s.body) && Unmarked(kind) && Unmarked(text) && InterpretationUnmarked(i)
    requires i.amendments == [] && Trim(i.answer) != "" && Trim(free) != "" && !IsChoice(Trim(free), 0)
    ensures RunTo(states, events, None, Some(Pending(NextId([], kind), i, true))) && states[0] == s && |events| == 3
    ensures events[0] == Asks(kind, text, []) && events[2] == Edits
    ensures events[1] == TextEvent.Answers(NextId([], kind), free, None, Understood(i))
  {
    var q := Question(NextId([], kind), kind, text, [], true);
    states, events := ShowsDraftInText(s, q, free, i);
    states, events := TakenOutMore(states, events, Some(q), Some(Pending(q.id, i, true)));
  }

  /** Another question of that kind asked, and confirmed by a word: the left draft decides it. */
  lemma LeftDecides(states: seq<Issue<string>>, events: seq<TextEvent>, kind: string, other: string, i: Interpretation)
    returns (longer: seq<Issue<string>>, more: seq<TextEvent>)
    requires RunTo(states, events, None, Some(Pending(NextId([], kind), i, true)))
    requires Unmarked(kind) && Unmarked(other) && InterpretationUnmarked(i) && i.amendments == [] && Trim(i.answer) != ""
    ensures TextRun(longer, more) && GoesOn(states, events, longer, more) && |more| == |events| + 2
    ensures more[|events|] == Asks(kind, other, [])
    ensures more[|events| + 1] == TextEvent.Answers(NextId([], kind), "yes", None, Refused)
    ensures ReadJournal(longer[|more|].body) == [Decision(NextId([], kind), kind, other, i.answer, "")]
  {
    var q := Question(NextId([], kind), kind, other, [], true);
    FirstId(kind);
    longer, more := AskMore(states, events, Some(Pending(q.id, i, true)), q);
    longer, more := YesMore(longer, more, q, i);
  }

  /** A confirmation of the draft in the body is recorded as the decision on the question that is open. */
  lemma YesMore(states: seq<Issue<string>>, events: seq<TextEvent>, q: Question, i: Interpretation)
    returns (longer: seq<Issue<string>>, more: seq<TextEvent>)
    requires RunTo(states, events, Some(q), Some(Pending(q.id, i, true))) && q.options == [] && q.id == NextId([], q.kind)
    requires QuestionUnmarked(q) && InterpretationUnmarked(i) && i.amendments == [] && Trim(i.answer) != ""
    ensures TextRun(longer, more) && GoesOn(states, events, longer, more) && |more| == |events| + 1
    ensures more[|events|] == TextEvent.Answers(q.id, "yes", None, Refused)
    ensures ReadJournal(longer[|more|].body) == [DecisionOn(q, i.answer)]
  {
    var s, yes := states[|events|], TextEvent.Answers(q.id, "yes", None, Refused);
    YesThrough(s, q, i);
    DecidedInText(s, q, i, Next(s, yes));
    NextIsTextStep(s, yes);
    longer, more := RunMore(states, events, yes, Next(s, yes));
  }

  lemma DecidedInText(s: Issue<string>, q: Question, i: Interpretation, s': Issue<string>)
    requires Stage(s, Some(q), Some(Pending(q.id, i, true))) && q.options == [] && q.id == NextId([], q.kind)
    requires i.amendments == [] && Trim(i.answer) != ""
    requires Through(s, TextEvent.Answers(q.id, "yes", None, Refused), s')
    ensures ReadJournal(s'.body) == [DecisionOn(q, i.answer)]
  {
    var yes := TextEvent.Answers(q.id, "yes", None, Refused);
    ThroughIsCompleted(s, yes, s');
    YesConfirms();
    NextIdSound([], q.kind);
    var added := OwnDraftApplied(OnBoard(s), EventOf(s, yes), q, i, OnBoard(s'));
    OnlyTheDecision([], added, q, i);
    assert [] + added == added;
  }

  /**
   * From any issue whose body holds no marker there is a run of the code in which the interpretation of the answer to
   * one question, shown for that question, decides another one, whose text it was never shown with: for every kind,
   * every two texts and every interpretation without amendments, if they hold no marker.
   */
  lemma DraftDecidesAnotherInText(s: Issue<string>, kind: string, text: string, free: string, i: Interpretation, other: string)
    returns (states: seq<Issue<string>>, events: seq<TextEvent>)
    requires Unmarked(s.body) && Unmarked(kind) && Unmarked(text) && Unmarked(other) && InterpretationUnmarked(i)
    requires i.amendments == [] && Trim(i.answer) != "" && Trim(free) != "" && !IsChoice(Trim(free), 0)
    ensures TextRun(states, events) && states[0] == s && |events| == 5
    ensures events[0] == Asks(kind, text, []) && events[3] == Asks(kind, other, []) && events[2] == Edits
    ensures events[1] == TextEvent.Answers(NextId([], kind), free, None, Understood(i))
    ensures events[4] == TextEvent.Answers(NextId([], kind), "yes", None, Refused)
    ensures ReadJournal(states[5].body) == [Decision(NextId([], kind), kind, other, i.answer, "")]
  {
    states, events := LeavesDraftInText(s, kind, text, free, i);
    states, events := LeftDecides(states, events, kind, other, i);
  }

  /** Asked, answered in free text, the attempt cut short before the flag; then the question's block is taken out. */
  lemma LeavesHiddenInText(s: Issue<string>, q: Question, free: string, i: Interpretation)
    returns (states: seq<Issue<string>>, events: seq<TextEvent>)
    requires q == Question(NextId([], q.kind), q.kind, q.text, [], true)
    requires Unmarked(s.body) && Unmarked(q.kind) && Unmarked(q.text) && InterpretationUnmarked(i)
    requires i.amendments == [] && Trim(i.answer) != "" && Trim(free) != "" && !IsChoice(Trim(free), 0)
    ensures RunTo(states, events, None, Some(Pending(q.id, i, false))) && states[0] == s && |events| == 3
    ensures events[0] == Asks(q.kind, q.text, []) && events[2] == Edits
    ensures events[1] == TextEvent.Answers(q.id, free, None, Understood(i)) && ShownIn(states[2].comments, q.id, i)
  {
    states, events := CutDraftInText(s, q, free, i);
    states, events := TakenOutMore(states, events, Some(q), Some(Pending(q.id, i, false)));
  }

  lemma CutDraftInText(s: Issue<string>, q: Question, free: string, i: Interpretation)
    returns (states: seq<Issue<string>>, events: seq<TextEvent>)
    requires q == Question(NextId([], q.kind), q.kind, q.text, [], true)
    requires Unmarked(s.body) && Unmarked(q.kind) && Unmarked(q.text) && InterpretationUnmarked(i)
    requires i.amendments == [] && Trim(i.answer) != "" && Trim(free) != "" && !IsChoice(Trim(free), 0)
    ensures RunTo(states, events, Some(q), Some(Pending(q.id, i, false))) && states[0] == s && |events| == 2
    ensures events[0] == Asks(q.kind, q.text, []) && events[1] == TextEvent.Answers(q.id, free, None, Understood(i))
    ensures ShownIn(states[2].comments, q.id, i)
  {
    FirstId(q.kind);
    states, events := AskFirst(s, q);
    states, events := CutMore(states, events, q, free, i);
  }

  /** Another question of that kind asked, and answered twice by a word: the hidden draft is shown, then decides it. */
  lemma HiddenDecides(states: seq<Issue<string>>, events: seq<TextEvent>, q: Question, i: Interpretation)
    returns (longer: seq<Issue<string>>, more: seq<TextEvent>)
    requires q == Question(NextId([], q.kind), q.kind, q.text, [], true) && Unmarked(q.kind) && Unmarked(q.text)
    requires RunTo(states, events, None, Some(Pending(q.id, i, false)))
    requires InterpretationUnmarked(i) && i.amendments == [] && Trim(i.answer) != ""
    ensures TextRun(longer, more) && GoesOn(states, events, longer, more) && |more| == |events| + 3
    ensures more[|events|] == Asks(q.kind, q.text, [])
    ensures more[|events| + 1] == more[|events| + 2] == TextEvent.Answers(q.id, "yes", None, Refused)
    ensures ReadJournal(longer[|more|].body) == [DecisionOn(q, i.answer)]
  {
    FirstId(q.kind);
    longer, more := AskMore(states, events, Some(Pending(q.id, i, false)), q);
    longer, more := HiddenYes(longer, more, q, i);
  }

  lemma HiddenYes(states: seq<Issue<string>>, events: seq<TextEvent>, q: Question, i: Interpretation)
    returns (longer: seq<Issue<string>>, more: seq<TextEvent>)
    requires RunTo(states, events, Some(q), Some(Pending(q.id, i, false))) && q.options == [] && q.id == NextId([], q.kind)
    requires QuestionUnmarked(q) && InterpretationUnmarked(i) && i.amendments == [] && Trim(i.answer) != ""
    ensures TextRun(longer, more) && GoesOn(states, events, longer, more) && |more| == |events| + 2
    ensures more[|events|] == more[|events| + 1] == TextEvent.Answers(q.id, "yes", None, Refused)
    ensures ReadJournal(longer[|more|].body) == [DecisionOn(q, i.answer)]
  {
    longer, more := HiddenMore(states, events, q, i);
    longer, more := YesMore(longer, more, q, i);
  }

  /**
   * From any issue whose body holds no marker there is a run of the code in which the answering attempt is cut short
   * before it flags its draft, the question's block is taken out, and the draft, shown in place of the first answer to
   * another question, decides that one on the second: no answer to the other question was ever understood.
   */
  lemma HiddenDraftDecidesAnotherInText(s: Issue<string>, kind: string, text: string, free: string, i: Interpretation,
                                        other: string)
    returns (states: seq<Issue<string>>, events: seq<TextEvent>)
    requires Unmarked(s.body) && Unmarked(kind) && Unmarked(text) && Unmarked(other) && InterpretationUnmarked(i)
    requires i.amendments == [] && Trim(i.answer) != "" && Trim(free) != "" && !IsChoice(Trim(free), 0)
    ensures TextRun(states, events) && states[0] == s && |events| == 6
    ensures events[0] == Asks(kind, text, []) && events[2] == Edits && events[3] == Asks(kind, other, [])
    ensures events[1] == TextEvent.Answers(NextId([], kind), free, None, Understood(i))
    ensures events[4] == events[5] == TextEvent.Answers(NextId([], kind), "yes", None, Refused)
    ensures DraftInText(states[3].body, NextId([], kind)) && !ReadDraft(states[3].body).value.announced
    ensures ShownIn(states[2].comments, NextId([], kind), i)
    ensures ReadJournal(states[6].body) == [Decision(NextId([], kind), kind, other, i.answer, "")]
  {
    var q, o := Question(NextId([], kind), kind, text, [], true), Question(NextId([], kind), kind, other, [], true);
    states, events := LeavesHiddenInText(s, q, free, i);
    HiddenInText(states[3].body, q, i);
    states, events := HiddenDecides(states, events, o, i);
  }
}
