/**
 * What an identifier names: within a run one question, as long as nobody takes an undecided question out of the body;
 * when somebody does, the next one of its kind can get the same identifier, and an answer meant for the first decides it.
 */
module OneQuestion {
  import opened Chars
  import opened Convergence
  import opened Journal
  import opened LeftDrafts
  import opened Protocol
  import opened Records
  import opened Runs
  import opened Texts

  predicate SameQuestion(q: Question, r: Question) {
    q.id == r.id && q.kind == r.kind && q.text == r.text && q.options == r.options
  }

  /** The question is still the open one, or an entry of the journal stands under its identifier. */
  predicate Kept(b: Board, q: Question) {
    (b.open.Some? && SameQuestion(b.open.value, q)) || Known(b.journal, q.id)
  }

  ghost predicate AllKept(effects: seq<Effect<Board>>, q: Question) {
    forall k :: 0 <= k < |effects| && effects[k].SetBody? ==> Kept(effects[k].body, q)
  }

  lemma {:induction false} LastKept(s: Issue<Board>, effects: seq<Effect<Board>>, q: Question)
    requires Kept(s.body, q) && AllKept(effects, q)
    ensures Kept(Apply(s, effects).body, q)
    decreases |effects|
  {
    if effects != [] { LastKept(s, effects[..|effects| - 1], q); }
  }

  lemma RecordedKeeps(b: Board, q: Question, answer: string, place: bool)
    ensures Kept(Recorded(b, q, answer, place), q)
  {
    KnownLast(b.journal, DecisionOn(q, answer), []);
    assert [DecisionOn(q, answer)] + [] == [DecisionOn(q, answer)];
  }

  lemma AppliedKeeps(b: Board, q: Question, i: Interpretation)
    requires JournalSound(b.journal) && Sound(i, b.journal) && IdOf(q.id, q.kind) && Fresh(b.journal, q.id)
    ensures Kept(Applied(b, q, i), q)
  {
    var added := AppliedAdds(b, q, i);
    assert (b.journal + added)[|b.journal|] == added[0];
  }

  lemma AnswerKeeps(b: Board, comments: seq<Comment>, q: Question, answer: string, commentId: Option<int>, reply: Reply)
    requires BoardSound(b, comments) && b.open == Some(q)
    ensures AllKept(AnswerOpen(b, q, answer, commentId, reply).effects, q)
  {
    if IsChoice(answer, |q.options|) {
      RecordedKeeps(b, q, q.options[Number(answer) - 1], true);
      SettleKeeps(Recorded(b, q, q.options[Number(answer) - 1], true), q);
    } else {
      ConfirmKeeps(b, comments, q, answer, reply);
    }
  }

  lemma SettleKeeps(b: Board, q: Question)
    requires Kept(b, q)
    ensures AllKept(Settle(b, Accepted).effects, q)
  {
  }

  lemma ConfirmKeeps(b: Board, comments: seq<Comment>, q: Question, answer: string, reply: Reply)
    requires BoardSound(b, comments) && b.open == Some(q)
    ensures AllKept(ConfirmText(b, q, answer, reply).effects, q)
  {
    if b.draft.Some? {
      AppliedKeeps(b, q, b.draft.value.interpretation);
      SettleKeeps(Applied(b, q, b.draft.value.interpretation), q);
      DraftKeeps(b, q, b.draft.value, reply);
    } else {
      DraftKeeps(b, q, Pending("", Interpretation("", []), false), reply);
    }
  }

  lemma DraftKeeps(b: Board, q: Question, p: Pending, reply: Reply)
    requires b.open == Some(q)
    ensures AllKept(AnnounceDraft(b, p).effects, q) && AllKept(Protocol.Drafted(b, q, reply).effects, q)
  {
  }

  lemma ScriptKeepsQuestion(s: Issue<Board>, e: Event, q: Question)
    requires Inv(s) && s.body.open == Some(q) && !e.Editing?
    ensures AllKept(ScriptOf(s, e).effects, q)
  {
    match e
    case Asking(kind, text, options) =>
    case Answering(questionId, text, commentId, reply) => AnswerKeeps(s.body, s.comments, q, Trim(text), commentId, reply);
    case Closing(criterion) => RecordedKeeps(s.body, q, criterion, false);
  }

  /** No edit takes an open question out of the body. */
  ghost predicate NoneTakenOut(states: seq<Issue<Board>>, events: seq<Event>)
    requires |events| < |states|
  {
    forall i :: 0 <= i < |events| && events[i].Editing? ==> states[i + 1].body.open == states[i].body.open
  }

  lemma StepKeepsQuestion(s: Issue<Board>, e: Event, s': Issue<Board>, q: Question)
    requires Inv(s) && Step(s, e, s') && Kept(s.body, q) && (e.Editing? ==> s'.body.open == s.body.open)
    ensures Kept(s'.body, q)
  {
    StepKeeps(s, e, s');
    if Known(s.body.journal, q.id) {
      KnownGrows(s.body.journal, s'.body.journal[|s.body.journal|..], q.id);
      assert s'.body.journal == s.body.journal + s'.body.journal[|s.body.journal|..];
    } else if !e.Editing? {
      var done: nat :| Attempt(s, e, done, s');
      ScriptKeepsQuestion(s, e, s.body.open.value);
      SameKept(ScriptOf(s, e).effects[..done], s.body.open.value, q);
      LastKept(s, ScriptOf(s, e).effects[..done], q);
    }
  }

  lemma SameKept(effects: seq<Effect<Board>>, r: Question, q: Question)
    requires AllKept(effects, r) && SameQuestion(r, q)
    ensures AllKept(effects, q)
  {
  }

  lemma {:induction false} RunKeepsQuestion(states: seq<Issue<Board>>, events: seq<Event>, q: Question, m: nat, n: nat)
    requires Run(states, events) && Inv(states[0]) && NoneTakenOut(states, events) && m <= n < |states|
    requires states[m].body.open == Some(q)
    ensures Kept(states[n].body, q)
    decreases n
  {
    if m < n {
      var k := n - 1;
      RunKeepsQuestion(states, events, q, m, k);
      RunKeeps(states, events, k);
      assert StepAt(states, events, k);
      StepKeepsQuestion(states[k], events[k], states[n], q);
    }
  }

  /**
   * In a run in which no edit takes an open question out of the body, two questions open under one identifier, however
   * far apart, are one question: of one kind, with one text and the same options.
   */
  lemma IdNamesOneQuestion(states: seq<Issue<Board>>, events: seq<Event>, m: nat, n: nat)
    requires Run(states, events) && Inv(states[0]) && NoneTakenOut(states, events) && m <= n < |states|
    requires states[m].body.open.Some? && states[n].body.open.Some?
    requires states[m].body.open.value.id == states[n].body.open.value.id
    ensures SameQuestion(states[m].body.open.value, states[n].body.open.value)
  {
    RunKeepsQuestion(states, events, states[m].body.open.value, m, n);
    RunKeeps(states, events, n);
  }

  /** The option of a number, chosen for the question that is open now. */
  lemma ChosenNow(s: Issue<Board>, q: Question, word: string, s': Issue<Board>)
    requires s.body.open == Some(q) && IsChoice(Trim(word), |q.options|)
    requires Completed(s, Answering(q.id, word, None, Refused), s')
    ensures s'.body.journal == s.body.journal + [DecisionOn(q, q.options[Number(Trim(word)) - 1])]
  {
    var settled := Recorded(s.body, q, q.options[Number(Trim(word)) - 1], true);
    assert ScriptOf(s, Answering(q.id, word, None, Refused)).effects == [SetBody(settled), DropLabel(WAITING)];
    ApplyTwo(s, SetBody(settled), DropLabel(WAITING));
  }

  lemma AnotherChosen(s: Issue<Board>, kind: string, other: string, others: seq<string>, word: string)
    returns (s': Issue<Board>, s'': Issue<Board>)
    requires s.body.journal == [] && s.body.open == None && IsChoice(Trim(word), |others|)
    ensures Step(s, Asking(kind, other, others), s') && Step(s', Answering(NextId([], kind), word, None, Refused), s'')
    ensures s'.body.open == Some(Question(NextId([], kind), kind, other, others, true))
    ensures s''.body.journal == [Decision(NextId([], kind), kind, other, others[Number(Trim(word)) - 1], "")]
  {
    var ask, answer := Asking(kind, other, others), Answering(NextId([], kind), word, None, Refused);
    s' := Next(s, ask);
    NextIsStep(s, ask);
    JustAsked(s, ask, s');
    s'' := Next(s', answer);
    NextIsStep(s', answer);
    ChosenNow(s', s'.body.open.value, word, s'');
  }

  /**
   * When an edit does take one out: from any issue with nothing decided and nothing asked there is a run in which the
   * number of an option, given for the identifier of one question, decides another one under that identifier, by an
   * option of that other question.
   */
  lemma NumberDecidesAnother(s: Issue<Board>, kind: string, text: string, options: seq<string>,
                             other: string, others: seq<string>, word: string)
    returns (states: seq<Issue<Board>>, events: seq<Event>)
    requires Blank(s) && IsChoice(Trim(word), |others|)
    ensures Run(states, events) && states[0] == s && |events| == 4
    ensures events[0] == Asking(kind, text, options) && events[1] == Editing && events[2] == Asking(kind, other, others)
    ensures states[1].body.open == Some(Question(NextId([], kind), kind, text, options, true))
    ensures states[3].body.open == Some(Question(NextId([], kind), kind, other, others, true))
    ensures events[3] == Answering(NextId([], kind), word, None, Refused)
    ensures states[4].body.journal == [Decision(NextId([], kind), kind, other, others[Number(Trim(word)) - 1], "")]
  {
    var e0, e2, e3 := Asking(kind, text, options), Asking(kind, other, others), Answering(NextId([], kind), word, None, Refused);
    var s1 := Next(s, e0);
    NextIsStep(s, e0);
    JustAsked(s, e0, s1);
    var s2 := s1.(body := s1.body.(open := None));
    var s3, s4 := AnotherChosen(s2, kind, other, others, word);
    OneStep(s, e0, s1);
    states, events := RunMore([s, s1], [e0], Editing, s2);
    states, events := RunMore(states, events, e2, s3);
    states, events := RunMore(states, events, e3, s4);
  }
}
