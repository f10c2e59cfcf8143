/** Runs over the text of the body: every one of them is a run over the board, so what holds there holds of the text. */
module TextRuns {
  import opened Blocks
  import opened Bodies
  import opened Chars
  import opened Criterion
  import opened Documents
  import opened Frames
  import opened Journal
  import opened Protocol
  import opened Records
  import opened Refinement
  import opened Runs
  import S = Scripts
  import opened Texts

  datatype TextEvent =
    | Asks(kind: string, text: string, options: seq<string>)
    | Answers(questionId: string, text: string, commentId: Option<int>, reply: Reply)
    | Closes(section: string -> string)
    | Edits

  function TextScript(s: Issue<string>, e: TextEvent): Script<string>
    requires !e.Edits?
  {
    match e
    case Asks(kind, text, options) => S.AskScript(s, kind, text, options)
    case Answers(questionId, text, commentId, reply) => S.AnswerScript(s, questionId, text, commentId, reply)
    case Closes(section) => S.CloseScript(s, section)
  }

  /** People may edit everything but the journal, keep the blocks in order, and remove the question or the draft. */
  ghost predicate TextEdit(s: Issue<string>, s': Issue<string>) {
    && Good(s'.body)
    && ReadJournal(s'.body) == ReadJournal(s.body)
    && (ReadOpen(s'.body) == ReadOpen(s.body) || ReadOpen(s'.body) == None)
    && (ReadDraft(s'.body) == ReadDraft(s.body) || ReadDraft(s'.body) == None)
    && s.comments <= s'.comments
  }

  ghost predicate TextAttempt(s: Issue<string>, e: TextEvent, done: nat, s': Issue<string>) {
    !e.Edits? && done <= |TextScript(s, e).effects| && s' == Apply(s, TextScript(s, e).effects[..done])
  }

  ghost predicate TextStep(s: Issue<string>, e: TextEvent, s': Issue<string>) {
    if e.Edits? then TextEdit(s, s') else exists done: nat :: TextAttempt(s, e, done, s')
  }

  ghost predicate TextRun(states: seq<Issue<string>>, events: seq<TextEvent>) {
    |states| == |events| + 1 && forall i :: 0 <= i < |events| ==> TextStepAt(states, events, i)
  }

  ghost predicate TextStepAt(states: seq<Issue<string>>, events: seq<TextEvent>, i: int)
    requires 0 <= i < |events| < |states|
  {
    TextStep(states[i], events[i], states[i + 1])
  }

  /** The same event as the board sees it. */
  ghost function EventOf(s: Issue<string>, e: TextEvent): Event {
    match e
    case Asks(kind, text, options) => Asking(kind, text, options)
    case Answers(questionId, text, commentId, reply) => Answering(questionId, text, commentId, reply)
    case Closes(section) => Closing(ReadCriterion(s.body, section))
    case Edits => Editing
  }

  lemma ScriptRefines(s: Issue<string>, e: TextEvent)
    requires Fit(s.body) && !e.Edits?
    ensures Refines(TextScript(s, e), ScriptOf(OnBoard(s), EventOf(s, e)))
  {
    match e
    case Asks(kind, text, options) => AskRefines(s, kind, text, options);
    case Answers(questionId, text, commentId, reply) => AnswerRefines(s, questionId, text, commentId, reply);
    case Closes(section) => CloseRefines(s, section);
  }

  /** An attempt over the text is an attempt over the board that made as many writes. */
  lemma AttemptRefines(s: Issue<string>, e: TextEvent, done: nat, s': Issue<string>)
    requires Fit(s.body) && TextAttempt(s, e, done, s')
    ensures Fit(s'.body) && Attempt(OnBoard(s), EventOf(s, e), done, OnBoard(s'))
  {
    ScriptRefines(s, e);
    RefinedApply(s, TextScript(s, e), ScriptOf(OnBoard(s), EventOf(s, e)), done);
  }

  lemma AttemptIsStep(s: Issue<Board>, e: Event, done: nat, s': Issue<Board>)
    requires Attempt(s, e, done, s')
    ensures Step(s, e, s')
  {
  }

  lemma EditRefines(s: Issue<string>, s': Issue<string>)
    requires Fit(s.body) && TextEdit(s, s')
    ensures Fit(s'.body) && Step(OnBoard(s), Editing, OnBoard(s'))
  {
  }

  lemma StepRefines(s: Issue<string>, e: TextEvent, s': Issue<string>)
    requires Fit(s.body) && TextStep(s, e, s')
    ensures Fit(s'.body) && Step(OnBoard(s), EventOf(s, e), OnBoard(s'))
  {
    if e.Edits? {
      EditRefines(s, s');
    } else {
      var done: nat :| TextAttempt(s, e, done, s');
      AttemptRefines(s, e, done, s');
      AttemptIsStep(OnBoard(s), EventOf(s, e), done, OnBoard(s'));
    }
  }

  lemma NextFits(states: seq<Issue<string>>, events: seq<TextEvent>, i: nat)
    requires TextRun(states, events) && i < |events| && Fit(states[i].body)
    ensures Fit(states[i + 1].body)
  {
    assert TextStepAt(states, events, i);
    StepRefines(states[i], events[i], states[i + 1]);
  }

  lemma {:induction false} AlwaysFit(states: seq<Issue<string>>, events: seq<TextEvent>, n: nat)
    requires TextRun(states, events) && Fit(states[0].body) && n < |states|
    ensures Fit(states[n].body)
    decreases n
  {
    if n > 0 {
      var m := n - 1;
      AlwaysFit(states, events, m);
      NextFits(states, events, m);
      assert m + 1 == n;
    }
  }

  ghost predicate AllFit(states: seq<Issue<string>>) {
    forall i :: 0 <= i < |states| ==> Fit(states[i].body)
  }

  ghost function Boards(states: seq<Issue<string>>): seq<Issue<Board>>
    requires AllFit(states)
  {
    seq(|states|, i requires 0 <= i < |states| => OnBoard(states[i]))
  }

  ghost function Seen(states: seq<Issue<string>>, events: seq<TextEvent>): seq<Event>
    requires |events| <= |states|
  {
    seq(|events|, i requires 0 <= i < |events| => EventOf(states[i], events[i]))
  }

  lemma StepOnBoard(states: seq<Issue<string>>, events: seq<TextEvent>, i: nat)
    requires TextRun(states, events) && AllFit(states) && i < |events|
    ensures StepAt(Boards(states), Seen(states, events), i)
  {
    assert TextStepAt(states, events, i);
    StepRefines(states[i], events[i], states[i + 1]);
  }

  /** A run over the text is, step by step, a run over the board. */
  lemma RunRefines(states: seq<Issue<string>>, events: seq<TextEvent>)
    requires TextRun(states, events) && Fit(states[0].body)
    ensures AllFit(states) && Run(Boards(states), Seen(states, events))
  {
    forall n | 0 <= n < |states| ensures Fit(states[n].body) { AlwaysFit(states, events, n); }
    forall i | 0 <= i < |events| ensures StepAt(Boards(states), Seen(states, events), i) { StepOnBoard(states, events, i); }
  }

  /** A body without markers is where every run starts: it is in order and holds no records. */
  lemma UnmarkedIsBlank(s: Issue<string>)
    requires Unmarked(s.body)
    ensures Fit(s.body) && Blank(OnBoard(s))
  {
    UnmarkedIsGood(s.body);
    assert Match(s.body, Asked) == Match(s.body, Name.Answers) == Match(s.body, Drafted) == Absent by {
      assert InPlace(s.body, Asked) && InPlace(s.body, Name.Answers) && InPlace(s.body, Drafted);
    }
  }

  /**
   * The promises of the protocol, read in the text: from any body without markers, in every state of every run, each
   * block is readable, no two decisions share an identifier, and the open question is not decided yet; and
   * what is once in the journal stays there, in its place.
   */
  lemma TextPromises(states: seq<Issue<string>>, events: seq<TextEvent>, m: nat, n: nat)
    requires TextRun(states, events) && Unmarked(states[0].body) && m <= n < |states|
    ensures forall name: Name :: Read(states[n].body, name).Ok?
    ensures DistinctIds(ReadJournal(states[n].body))
    ensures ReadOpen(states[n].body).Some? ==> Fresh(ReadJournal(states[n].body), ReadOpen(states[n].body).value.id)
    ensures ReadJournal(states[m].body) <= ReadJournal(states[n].body)
  {
    UnmarkedIsBlank(states[0]);
    RunRefines(states, events);
    NoDoubleDecision(Boards(states), Seen(states, events), n);
    JournalOnlyGrows(Boards(states), Seen(states, events), m, n);
    forall name: Name ensures Read(states[n].body, name).Ok? { ReadIsSlot(states[n].body, name); }
  }

  lemma GrewInText(s: Issue<string>, e: Event, s': Issue<string>)
    requires Fit(s.body) && Fit(s'.body) && Grew(OnBoard(s), e, OnBoard(s'))
    ensures ReadJournal(s.body) <= ReadJournal(s'.body)
    ensures var added := ReadJournal(s'.body)[|ReadJournal(s.body)|..];
      added == [] || Justified(OnBoard(s), e, added)
  {
  }

  /** In the text too, a step adds to the journal what it accounts for in the state it met, and nothing else. */
  lemma TextOnlyWhatWasShown(states: seq<Issue<string>>, events: seq<TextEvent>, n: nat)
    requires TextRun(states, events) && Unmarked(states[0].body) && n < |events|
    ensures Fit(states[n].body) && ReadJournal(states[n].body) <= ReadJournal(states[n + 1].body)
    ensures var added := ReadJournal(states[n + 1].body)[|ReadJournal(states[n].body)|..];
      added == [] || Justified(OnBoard(states[n]), EventOf(states[n], events[n]), added)
  {
    UnmarkedIsBlank(states[0]);
    RunRefines(states, events);
    OnlyWhatWasShown(Boards(states), Seen(states, events), n);
    GrewInText(states[n], EventOf(states[n], events[n]), states[n + 1]);
  }

  // ---------------------------------------------------------------------------------------------
  // The acceptance criterion

  /** A criterion block that is not blank is what the gate reads, in the body and in the exposed body alike. */
  lemma SlotIsCriterion(body: string, criterion: string, section: string -> string)
    requires Good(body) && Slot(body, HowToDemo) == Some(criterion) && Trim(criterion) != ""
    ensures ReadCriterion(body, section) == Trim(criterion)
    ensures ReadCriterion(Expose(body, section), section) == Trim(criterion)
  {
    assert InPlace(body, HowToDemo);
    ExposeKeepsApproved(body, section);
  }

  /** The last criterion among the decisions added is the last one in the journal, and is what the block then holds. */
  lemma AddedIsLast(s: Issue<string>, e: Event, s': Issue<string>, added: seq<Decision>)
    requires Fit(s.body) && Fit(s'.body) && Grew(OnBoard(s), e, OnBoard(s')) && e.Answering?
    requires ReadJournal(s'.body) == ReadJournal(s.body) + added && LastAnswer(added, "howtodemo").Some?
    ensures Slot(s'.body, HowToDemo) == LastAnswer(ReadJournal(s'.body), "howtodemo") == LastAnswer(added, "howtodemo")
  {
    assert ReadJournal(s'.body)[|ReadJournal(s.body)|..] == added;
    LastAnswerJoin(ReadJournal(s.body), added, "howtodemo");
  }

  /**
   * The journal and the gate agree: when an answer, by number or by a confirmed interpretation, adds decisions among
   * which the last one about the criterion says `criterion`, not blank, then that is the last decision about the
   * criterion in the whole journal, and it is what the gate reads in the body, and in the body exposed to acceptance.
   */
  lemma CriterionIsLastDecision(states: seq<Issue<string>>, events: seq<TextEvent>, n: nat, added: seq<Decision>,
                                criterion: string, section: string -> string)
    requires TextRun(states, events) && Unmarked(states[0].body) && n < |events| && events[n].Answers?
    requires ReadJournal(states[n + 1].body) == ReadJournal(states[n].body) + added
    requires LastAnswer(added, "howtodemo") == Some(criterion) && Trim(criterion) != ""
    ensures LastAnswer(ReadJournal(states[n + 1].body), "howtodemo") == Some(criterion)
    ensures ReadCriterion(states[n + 1].body, section) == Trim(criterion)
    ensures ReadCriterion(Expose(states[n + 1].body, section), section) == Trim(criterion)
  {
    UnmarkedIsBlank(states[0]);
    RunRefines(states, events);
    OnlyWhatWasShown(Boards(states), Seen(states, events), n);
    AddedIsLast(states[n], EventOf(states[n], events[n]), states[n + 1], added);
    SlotIsCriterion(states[n + 1].body, criterion, section);
  }
}
