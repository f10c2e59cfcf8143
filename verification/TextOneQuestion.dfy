/** What an identifier names, in the text of the body, and a run of the code in which it comes to name another question. */
module TextOneQuestion {
  import opened Blocks
  import opened Bodies
  import opened Chars
  import opened Documents
  import opened OneQuestion
  import opened Progress
  import opened Protocol
  import opened Records
  import opened Refinement
  import opened Refusals
  import opened TextConvergence
  import opened TextLeftDrafts
  import opened TextRuns
  import opened Texts

  /** No edit takes an open question out of the text. */
  ghost predicate NoneTakenFromText(states: seq<Issue<string>>, events: seq<TextEvent>)
    requires |events| < |states|
  {
    forall i :: 0 <= i < |events| && events[i].Edits? ==> ReadOpen(states[i + 1].body) == ReadOpen(states[i].body)
  }

  lemma NoneTakenOnBoard(states: seq<Issue<string>>, events: seq<TextEvent>)
    requires |events| < |states| && AllFit(states) && NoneTakenFromText(states, events)
    ensures NoneTakenOut(Boards(states), Seen(states, events))
  {
  }

  /** The two questions read from the text are one, whatever lies between, if no edit took an open question out. */
  lemma IdNamesOneQuestionInText(states: seq<Issue<string>>, events: seq<TextEvent>, m: nat, n: nat)
    requires TextRun(states, events) && Reached(states[0]) && NoneTakenFromText(states, events) && m <= n < |states|
    requires ReadOpen(states[m].body).Some? && ReadOpen(states[n].body).Some?
    requires ReadOpen(states[m].body).value.id == ReadOpen(states[n].body).value.id
    ensures SameQuestion(ReadOpen(states[m].body).value, ReadOpen(states[n].body).value)
  {
    ReachedIsSound(states[0]);
    RunRefines(states, events);
    NoneTakenOnBoard(states, events);
    IdNamesOneQuestion(Boards(states), Seen(states, events), m, n);
  }

  // ---------------------------------------------------------------------------------------------
  // A run in which a number decides another question

  /** A decision on the first question can be recorded in a body without a journal. */
  lemma CanRecordFirst(body: string, q: Question, answer: string)
    requires Good(body) && Slot(body, Name.Answers) == None && ReadJournal(body) == []
    requires QuestionUnmarked(q) && Unmarked(answer)
    ensures CanRecord(body, q, answer, true)
  {
    var d := DecisionOn(q, answer);
    assert DecisionUnmarked(d) by { EmptyUnmarked(); }
    assert [] + [d] == [d];
    GoodIsSeparate(body);
    ReadIsSlot(body, Name.Answers);
    ReadIsSlot(body, Asked);
    ReadIsSlot(body, HowToDemo);
  }

  /** An option chosen by its number. */
  lemma ChoiceThrough(s: Issue<string>, q: Question, word: string)
    requires Stage(s, Some(q), None) && FirstOfKind(q) && IsChoice(Trim(word), |q.options|)
    ensures var answer := TextEvent.Answers(q.id, word, None, Refused);
      Through(s, answer, Next(s, answer)) &&
      ReadJournal(Next(s, answer).body) == [DecisionOn(q, q.options[Number(Trim(word)) - 1])]
  {
    var answer := TextEvent.Answers(q.id, word, None, Refused);
    var option := q.options[Number(Trim(word)) - 1];
    FirstId(q.kind);
    GoodIsSeparate(s.body);
    CanRecordFirst(s.body, q, option);
    AnswerReturnsIff(s, q.id, word, None, Refused);
    ThroughIsCompleted(s, answer, Next(s, answer));
    ChosenNow(OnBoard(s), q, word, OnBoard(Next(s, answer)));
  }

  lemma ChoiceMore(states: seq<Issue<string>>, events: seq<TextEvent>, q: Question, word: string)
    returns (longer: seq<Issue<string>>, more: seq<TextEvent>)
    requires RunTo(states, events, Some(q), None) && FirstOfKind(q) && IsChoice(Trim(word), |q.options|)
    ensures TextRun(longer, more) && GoesOn(states, events, longer, more) && |more| == |events| + 1
    ensures more[|events|] == TextEvent.Answers(q.id, word, None, Refused)
    ensures ReadJournal(longer[|more|].body) == [DecisionOn(q, q.options[Number(Trim(word)) - 1])]
  {
    var s, answer := states[|events|], TextEvent.Answers(q.id, word, None, Refused);
    ChoiceThrough(s, q, word);
    NextIsTextStep(s, answer);
    longer, more := RunMore(states, events, answer, Next(s, answer));
  }

  /** A question asked and taken out of the body. */
  lemma AskedAndTaken(s: Issue<string>, q: Question) returns (states: seq<Issue<string>>, events: seq<TextEvent>)
    requires Unmarked(s.body) && FirstOfKind(q)
    ensures RunTo(states, events, None, None) && states[0] == s && |events| == 2
    ensures events[0] == Asks(q.kind, q.text, q.options) && events[1] == Edits && ReadOpen(states[1].body) == Some(q)
  {
    states, events := AskFirst(s, q);
    states, events := TakenOutMore(states, events, Some(q), None);
  }

  lemma AskedAndChosen(states: seq<Issue<string>>, events: seq<TextEvent>, q: Question, word: string)
    returns (longer: seq<Issue<string>>, more: seq<TextEvent>)
    requires RunTo(states, events, None, None) && FirstOfKind(q) && IsChoice(Trim(word), |q.options|)
    ensures TextRun(longer, more) && GoesOn(states, events, longer, more) && |more| == |events| + 2
    ensures more[|events|] == Asks(q.kind, q.text, q.options)
    ensures more[|events| + 1] == TextEvent.Answers(q.id, word, None, Refused)
    ensures ReadOpen(longer[|events| + 1].body) == Some(q)
    ensures ReadJournal(longer[|more|].body) == [DecisionOn(q, q.options[Number(Trim(word)) - 1])]
  {
    longer, more := AskMore(states, events, None, q);
    longer, more := ChoiceMore(longer, more, q, word);
  }

  /**
   * From any issue whose body holds no marker, for every two questions of one kind without markers and every number of
   * an option of the second: a run of the code in which the first is asked, taken out of the body, the second asked under
   * the same identifier, and the number, given for that identifier, recorded as that option of the second.
   */
  lemma NumberDecidesAnotherInText(s: Issue<string>, q: Question, o: Question, word: string)
    returns (states: seq<Issue<string>>, events: seq<TextEvent>)
    requires Unmarked(s.body) && FirstOfKind(q) && FirstOfKind(o) && q.kind == o.kind && IsChoice(Trim(word), |o.options|)
    ensures TextRun(states, events) && states[0] == s && |events| == 4 && q.id == o.id
    ensures events[0] == Asks(q.kind, q.text, q.options) && events[1] == Edits && ReadOpen(states[1].body) == Some(q)
    ensures events[2] == Asks(o.kind, o.text, o.options) && ReadOpen(states[3].body) == Some(o)
    ensures events[3] == TextEvent.Answers(q.id, word, None, Refused)
    ensures ReadJournal(states[4].body) == [DecisionOn(o, o.options[Number(Trim(word)) - 1])]
  {
    states, events := AskedAndTaken(s, q);
    states, events := AskedAndChosen(states, events, o, word);
  }
}
