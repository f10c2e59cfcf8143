/** The promises about retries, read in the text of the body: failed attempts of one call, then one that gets through. */
module TextConvergence {
  import opened Blocks
  import opened Bodies
  import opened Chars
  import opened Commands
  import opened Convergence
  import opened Criterion
  import opened Journal
  import opened Protocol
  import opened Records
  import opened Refinement
  import opened Runs
  import opened Texts
  import opened TextRuns
  import opened Verdicts
  import opened Words

  /** The attempt made all its writes and raised nothing. */
  ghost predicate Through(s: Issue<string>, e: TextEvent, s': Issue<string>) {
    !e.Edits? && TextScript(s, e).end.Returns? && s' == Apply(s, TextScript(s, e).effects)
  }

  lemma ThroughIsCompleted(s: Issue<string>, e: TextEvent, s': Issue<string>)
    requires Fit(s.body) && Through(s, e, s')
    ensures Fit(s'.body) && Completed(OnBoard(s), EventOf(s, e), OnBoard(s'))
    ensures TextScript(s, e).end == ScriptOf(OnBoard(s), EventOf(s, e)).end
  {
    var script, abs := TextScript(s, e), ScriptOf(OnBoard(s), EventOf(s, e));
    ScriptRefines(s, e);
    RefinedApply(s, script, abs, |script.effects|);
    assert script.effects[..|script.effects|] == script.effects && abs.effects[..|abs.effects|] == abs.effects;
  }

  /** A state that some run from a body without markers leads to. */
  ghost predicate Reached(s: Issue<string>) {
    exists states: seq<Issue<string>>, events: seq<TextEvent> :: ReachedBy(states, events, s)
  }

  ghost predicate ReachedBy(states: seq<Issue<string>>, events: seq<TextEvent>, s: Issue<string>) {
    TextRun(states, events) && Unmarked(states[0].body) && states[|events|] == s
  }

  lemma ReachedIsSound(s: Issue<string>)
    requires Reached(s)
    ensures Fit(s.body) && Inv(OnBoard(s))
  {
    var states: seq<Issue<string>>, events: seq<TextEvent> :| ReachedBy(states, events, s);
    UnmarkedIsBlank(states[0]);
    RunRefines(states, events);
    RunKeeps(Boards(states), Seen(states, events), |events|);
  }

  /** Attempts of one call, from a state a run can reach, and one more attempt of it that gets through. */
  ghost predicate Retried(states: seq<Issue<string>>, events: seq<TextEvent>, e: TextEvent, s': Issue<string>) {
    TextRun(states, events) && Reached(states[0]) && Through(states[|events|], e, s')
  }

  lemma RetriedOnBoard(states: seq<Issue<string>>, events: seq<TextEvent>, e: TextEvent, s': Issue<string>)
    requires Retried(states, events, e, s')
    ensures AllFit(states) && Run(Boards(states), Seen(states, events)) && Inv(Boards(states)[0])
    ensures Fit(s'.body) && Completed(Boards(states)[|events|], EventOf(states[|events|], e), OnBoard(s'))
  {
    ReachedIsSound(states[0]);
    RunRefines(states, events);
    ThroughIsCompleted(states[|events|], e, s');
  }

  predicate SameText(e: TextEvent, questionId: string, text: string) {
    e.Answers? && e.questionId == questionId && e.text == text
  }

  /** Answers with these arguments; what the model makes of the text may differ each time. */
  ghost predicate AllSameText(events: seq<TextEvent>, questionId: string, text: string) {
    forall i :: 0 <= i < |events| ==> SameText(events[i], questionId, text)
  }

  lemma AllSame(states: seq<Issue<string>>, events: seq<TextEvent>, questionId: string, text: string)
    requires |events| <= |states| && AllSameText(events, questionId, text)
    ensures AllSameAnswer(Seen(states, events), questionId, text)
  {
    forall i | 0 <= i < |events| ensures SameAnswer(Seen(states, events)[i], questionId, text) {
      assert SameText(events[i], questionId, text);
    }
  }

  /**
   * An answer by number, retried: in the text there is then exactly one decision more, on that question and with the
   * option of that number, no question, no draft, and no waiting label.
   */
  lemma ChoiceInText(states: seq<Issue<string>>, events: seq<TextEvent>, q: Question, text: string, e: TextEvent, s': Issue<string>)
    requires Retried(states, events, e, s') && AllSameText(events + [e], q.id, text)
    requires ReadOpen(states[0].body) == Some(q) && IsChoice(Trim(text), |q.options|)
    ensures ReadJournal(s'.body) == ReadJournal(states[0].body) + [DecisionOn(q, q.options[Number(Trim(text)) - 1])]
    ensures ReadOpen(s'.body) == None && ReadDraft(s'.body) == None && WAITING !in s'.labels
    ensures DistinctIds(ReadJournal(s'.body))
  {
    RetriedOnBoard(states, events, e, s');
    assert events == (events + [e])[..|events|] && SameText((events + [e])[|events|], q.id, text);
    AllSame(states, events, q.id, text);
    ChoiceConverges(Boards(states), Seen(states, events), q.id, text, EventOf(states[|events|], e), OnBoard(s'));
  }

  /**
   * A confirmation of a shown draft, retried: in the text there are then exactly the decision on the question and one
   * for each amendment shown, each once, no question, no draft, and no waiting label.
   */
  lemma ConfirmationInText(states: seq<Issue<string>>, events: seq<TextEvent>, q: Question, d: Draft, i: Interpretation,
                           text: string, e: TextEvent, s': Issue<string>) returns (added: seq<Decision>)
    requires Retried(states, events, e, s') && AllSameText(events + [e], q.id, text)
    requires ReadOpen(states[0].body) == Some(q) && ReadDraft(states[0].body) == Some(d)
    requires d.questionId == q.id && d.announced && Load(d.interpretation) == Some(i)
    requires IsConfirmation(Trim(text)) && !IsChoice(Trim(text), |q.options|)
    ensures ReadJournal(s'.body) == ReadJournal(states[0].body) + added && OnList(ReadJournal(states[0].body), added, q, i)
    ensures ReadOpen(s'.body) == None && ReadDraft(s'.body) == None && WAITING !in s'.labels
    ensures DistinctIds(ReadJournal(s'.body))
  {
    RetriedOnBoard(states, events, e, s');
    assert events == (events + [e])[..|events|] && SameText((events + [e])[|events|], q.id, text);
    AllSame(states, events, q.id, text);
    added := ConfirmationConverges(Boards(states), Seen(states, events), q.id, text, EventOf(states[|events|], e), OnBoard(s'));
  }

  /** After it the amended entries are out of force, every other one is as it was, and what was added is in force. */
  lemma ConfirmationInForce(states: seq<Issue<string>>, events: seq<TextEvent>, q: Question, d: Draft, i: Interpretation,
                            text: string, e: TextEvent, s': Issue<string>) returns (added: seq<Decision>)
    requires Retried(states, events, e, s') && AllSameText(events + [e], q.id, text)
    requires ReadOpen(states[0].body) == Some(q) && ReadDraft(states[0].body) == Some(d)
    requires d.questionId == q.id && d.announced && Load(d.interpretation) == Some(i)
    requires IsConfirmation(Trim(text)) && !IsChoice(Trim(text), |q.options|)
    ensures OnList(ReadJournal(states[0].body), added, q, i)
    ensures EffectiveOf(ReadJournal(s'.body)) ==
      DroppingAll(EffectiveOf(ReadJournal(states[0].body)), AmendedIds(i.amendments)) + added
  {
    added := ConfirmationInText(states, events, q, d, i, text, e, s');
    ConfirmedInForce(ReadJournal(states[0].body), added, q, i);
  }

  /**
   * An answer that neither chooses by number nor confirms, retried, cut short anywhere: the text holds the same journal
   * and the same question after any number of attempts, so no draft is applied by the call that made it.
   */
  lemma DraftingInText(states: seq<Issue<string>>, events: seq<TextEvent>, q: Question, text: string, n: nat)
    requires TextRun(states, events) && Reached(states[0]) && AllSameText(events, q.id, text) && n < |states|
    requires ReadOpen(states[0].body) == Some(q) && !IsChoice(Trim(text), |q.options|) && !IsConfirmation(Trim(text))
    ensures ReadJournal(states[n].body) == ReadJournal(states[0].body) && ReadOpen(states[n].body) == Some(q)
  {
    ReachedIsSound(states[0]);
    RunRefines(states, events);
    AllSame(states, events, q.id, text);
    DraftingNeverDecides(Boards(states), Seen(states, events), q, text, n);
  }

  // ---------------------------------------------------------------------------------------------
  // Asking

  ghost predicate AllAsks(events: seq<TextEvent>, q: Question) {
    forall i :: 0 <= i < |events| ==> events[i] == Asks(q.kind, q.text, q.options)
  }

  lemma AllAsksSeen(states: seq<Issue<string>>, events: seq<TextEvent>, q: Question)
    requires |events| <= |states| && AllAsks(events, q)
    ensures AllAsking(Seen(states, events), q)
  {
  }

  /**
   * A question asked again and again, from no open question: once an attempt gets through, it stands in the text,
   * announced, under the identifier the first attempt gave it, with the waiting label on and the journal as it was.
   */
  lemma AskingInText(states: seq<Issue<string>>, events: seq<TextEvent>, q: Question, s': Issue<string>)
    requires Retried(states, events, Asks(q.kind, q.text, q.options), s') && AllAsks(events, q)
    requires ReadOpen(states[0].body) == None && !q.announced && q.id == NextId(ReadJournal(states[0].body), q.kind)
    ensures ReadOpen(s'.body) == Some(q.(announced := true)) && WAITING in s'.labels
    ensures ReadJournal(s'.body) == ReadJournal(states[0].body)
  {
    RetriedOnBoard(states, events, Asks(q.kind, q.text, q.options), s');
    AllAsksSeen(states, events, q);
    AskingConverges(q, Boards(states), Seen(states, events), OnBoard(s'));
  }

  /** Nothing of the question is in the text, or the question, or the question with its flag; the journal is as it was. */
  predicate PartlyInText(body: string, q: Question, b: string) {
    && (ReadOpen(b) == None || ReadOpen(b) == Some(q) || ReadOpen(b) == Some(q.(announced := true)))
    && ReadJournal(b) == ReadJournal(body)
  }

  /**
   * However often asking failed: the question in the text, if any, is always the same one; and its comments are those
   * of the attempts that posted it and did not record that, plus one once the flag is in the text.
   */
  lemma AskingRunInText(states: seq<Issue<string>>, events: seq<TextEvent>, q: Question, n: nat)
    requires TextRun(states, events) && Reached(states[0]) && AllAsks(events, q) && n < |states|
    requires ReadOpen(states[0].body) == None && !q.announced && q.id == NextId(ReadJournal(states[0].body), q.kind)
    ensures AllFit(states) && PartlyInText(states[0].body, q, states[n].body)
    ensures AskCount(states[n].comments, q.id) == AskCount(states[0].comments, q.id) +
      Missed(Boards(states), q.id, n) + if ReadOpen(states[n].body) == Some(q.(announced := true)) then 1 else 0
  {
    ReachedIsSound(states[0]);
    RunRefines(states, events);
    AllAsksSeen(states, events, q);
    AskingRun(q, Boards(states), Seen(states, events), n);
  }

  /** An answer to a lost question that comes back as asked again leaves a new question open, under a new identifier. */
  lemma ReaskedInText(s: Issue<string>, e: TextEvent, s': Issue<string>)
    requires Reached(s) && e.Answers? && TextScript(s, e).end == Returns(Reasked) && Through(s, e, s')
    ensures ReadJournal(s'.body) == ReadJournal(s.body) && WAITING in s'.labels && ReadOpen(s'.body).Some?
    ensures ReadOpen(s'.body) == Some(Revived(ReadJournal(s.body), e.questionId).(announced := true))
    ensures var q := ReadOpen(s'.body).value; q.announced && q.id != e.questionId && Fresh(ReadJournal(s'.body), q.id)
  {
    ReachedIsSound(s);
    ThroughIsCompleted(s, e, s');
    ReaskedIsNew(OnBoard(s), EventOf(s, e), OnBoard(s'));
  }

  /**
   * The question open then is of the kind of the lost one, so that its answer goes to the same place; it has no options,
   * and a number past the lost one's and all those of its kind in the journal.
   */
  lemma ReaskedKindInText(s: Issue<string>, e: TextEvent, kind: string, n: nat, s': Issue<string>)
    requires Reached(s) && e.Answers? && TextScript(s, e).end == Returns(Reasked) && Through(s, e, s')
    requires kind != "" && e.questionId == MakeId(kind, n)
    ensures InPlaceOfKind(ReadOpen(s'.body), ReadJournal(s.body), kind, n)
  {
    ReaskedInText(s, e, s');
    RevivedOpen(ReadOpen(s'.body), ReadJournal(s.body), e.questionId, kind, n);
  }

  /** On any body: an empty answer to the question read as open reacts with two signs, writes nothing, and is reported so. */
  lemma EmptyInText(s: Issue<string>, e: TextEvent)
    requires e.Answers? && ReadOpen(s.body).Some? && ReadOpen(s.body).value.id == e.questionId && Trim(e.text) == ""
    ensures TextScript(s, e).end == Returns(Empty)
    ensures TextScript(s, e).effects ==
      if e.commentId.Some? then [React(e.commentId.value, "confused"), React(e.commentId.value, "-1")] else []
  {
  }

  /** A call that gets through is reported as the verdicts say of what the text holds. */
  lemma VerdictInText(s: Issue<string>, e: TextEvent, s': Issue<string>)
    requires Reached(s) && e.Answers? && Through(s, e, s')
    ensures Fit(s.body)
    ensures var b := OnBoard(s).body; var decides := Decides(b, e.questionId, Trim(e.text));
      TextScript(s, e).end == Returns(
        if b.open == None then
          (if e.questionId == "" then NoQuestion else if Known(b.journal, e.questionId) then Accepted else Reasked)
        else if !ToOpen(b, e.questionId) then NoQuestion
        else if Trim(e.text) == "" then Empty else if decides then Accepted else Confirm)
  {
    ReachedIsSound(s);
    ThroughIsCompleted(s, e, s');
    VerdictIff(OnBoard(s), e.questionId, e.text, e.commentId, e.reply);
  }

  /** An answer to be confirmed that gets through leaves in the text what asking to confirm leaves on the board. */
  lemma ConfirmInText(s: Issue<string>, e: TextEvent, s': Issue<string>)
    requires Reached(s) && e.Answers? && TextScript(s, e).end == Returns(Confirm) && Through(s, e, s')
    ensures Fit(s.body) && Fit(s'.body) && AskedToConfirm(OnBoard(s), e.questionId, e.reply, OnBoard(s'))
  {
    ReachedIsSound(s);
    ThroughIsCompleted(s, e, s');
    ConfirmTells(OnBoard(s), EventOf(s, e), OnBoard(s'));
  }

  /**
   * A retry of such an answer asks again if and only if the first attempt wrote nothing, the new question holding no
   * marker; once the body was written, the retry reports the command as late, and writes nothing else, though right
   * after the body, before the comment, nobody was told of the new question.
   */
  lemma ReaskRetryInText(s: Issue<string>, e: TextEvent, done: nat, s': Issue<string>)
    requires Reached(s) && ReadOpen(s.body) == None && TextAttempt(s, e, done, s')
    requires e.Answers? && e.questionId != "" && !Known(ReadJournal(s.body), e.questionId)
    ensures TextScript(s', e).end == Returns(Reasked) <==> done == 0 && TextScript(s, e).end.Returns?
    ensures done != 0 ==> TextScript(s', e) == Script([Post(Outdated)], Returns(NoQuestion))
    ensures done == 1 ==> s'.comments == s.comments
  {
    ReachedIsSound(s);
    AttemptRefines(s, e, done, s');
    ReaskRetry(OnBoard(s), EventOf(s, e), done, OnBoard(s'));
    if done == 0 {
      assert TextScript(s, e).effects[..0] == [];
      ScriptRefines(s, e);
    } else {
      LateAnswer(s', e);
    }
  }

  /** An answer to another question than the one that is open. */
  lemma LateAnswer(s: Issue<string>, e: TextEvent)
    requires e.Answers? && ReadOpen(s.body).Some? && ReadOpen(s.body).value.id != e.questionId
    ensures TextScript(s, e) == Script([Post(Outdated)], Returns(NoQuestion))
  {
  }

  // ---------------------------------------------------------------------------------------------
  // Who confirms a draft

  /** The text holds a draft for the question under this identifier, shown or not. */
  predicate DraftInText(body: string, id: string) {
    ReadDraft(body).Some? && ReadDraft(body).value.questionId == id
  }

  /**
   * When a free answer that meets a draft of its question, shown or not, or leads to one, got through, and a retry of
   * the same call too, the journal in the text is another one if and only if the answer is a word of confirmation.
   */
  lemma RetryConfirmsItselfInText(s: Issue<string>, e: TextEvent, q: Question, s': Issue<string>, again: TextEvent, s'': Issue<string>)
    requires Reached(s) && ReadOpen(s.body) == Some(q) && e.Answers? && e.questionId == q.id && Trim(e.text) != ""
    requires !IsChoice(Trim(e.text), |q.options|) && Through(s, e, s')
    requires DraftInText(s.body, q.id) || (e.reply.Understood? && Sound(e.reply.interpretation, ReadJournal(s.body)))
    requires SameText(again, q.id, e.text) && Through(s', again, s'')
    ensures ReadJournal(s''.body) != ReadJournal(s.body) <==> IsConfirmation(Trim(e.text))
  {
    ReachedIsSound(s);
    ThroughIsCompleted(s, e, s');
    ThroughIsCompleted(s', again, s'');
    RetryConfirmsItselfIff(OnBoard(s), EventOf(s, e), q, OnBoard(s'), EventOf(s', again), OnBoard(s''));
  }

  // ---------------------------------------------------------------------------------------------
  // Closing

  ghost predicate AllCloses(events: seq<TextEvent>, section: string -> string) {
    forall i :: 0 <= i < |events| ==> events[i] == Closes(section)
  }

  /** An attempt to close writes nothing into the body, or leaves it without a question. */
  lemma CloseAttempt(s: Issue<string>, section: string -> string, done: nat, s': Issue<string>)
    requires Fit(s.body) && TextAttempt(s, Closes(section), done, s')
    ensures Fit(s'.body) && (s'.body == s.body || ReadOpen(s'.body) == None)
  {
    AttemptRefines(s, Closes(section), done, s');
    if done == 0 {
      assert TextScript(s, Closes(section)).effects[..0] == [];
    } else {
      CloseOpens(OnBoard(s), ReadCriterion(s.body, section), done, OnBoard(s'));
    }
  }

  lemma CloseOpens(s: Issue<Board>, criterion: string, done: nat, s': Issue<Board>)
    requires Attempt(s, Closing(criterion), done, s') && 0 < done
    ensures s'.body.open == None
  {
    var effects := Close(s, criterion).effects;
    ApplyOne(s, effects[0]);
    if done == 1 {
      assert effects[..1] == [effects[0]];
    } else {
      assert effects[..2] == [effects[0], effects[1]];
      ApplyTwo(s, effects[0], effects[1]);
    }
  }

  lemma ClosingBody(states: seq<Issue<string>>, events: seq<TextEvent>, section: string -> string, m: nat)
    requires TextRun(states, events) && AllFit(states) && AllCloses(events, section) && m < |events|
    ensures states[m + 1].body == states[m].body || ReadOpen(states[m + 1].body) == None
  {
    assert TextStepAt(states, events, m) && events[m] == Closes(section);
    var done: nat :| TextAttempt(states[m], events[m], done, states[m + 1]);
    CloseAttempt(states[m], section, done, states[m + 1]);
  }

  lemma {:induction false} ClosingBodies(states: seq<Issue<string>>, events: seq<TextEvent>, section: string -> string, n: nat)
    requires TextRun(states, events) && AllFit(states) && AllCloses(events, section) && n < |states|
    ensures states[n].body == states[0].body || ReadOpen(states[n].body) == None
    decreases n
  {
    if n > 0 {
      var m := n - 1;
      ClosingBodies(states, events, section, m);
      ClosingBody(states, events, section, m);
      assert m + 1 == n;
    }
  }

  lemma ClosesOnBoard(states: seq<Issue<string>>, events: seq<TextEvent>, section: string -> string, n: nat, criterion: string)
    requires TextRun(states, events) && AllFit(states) && AllCloses(events, section) && n < |states|
    requires criterion == ReadCriterion(states[0].body, section)
    ensures ClosesWith(OnBoard(states[n]), EventOf(states[n], Closes(section)), criterion)
  {
    ClosingBodies(states, events, section, n);
  }

  /** With no approved block in the body, the decision is what the search finds in it; with a blank one, in the rest. */
  lemma ClosingRecordsSection(states: seq<Issue<string>>, events: seq<TextEvent>, q: Question, section: string -> string, s': Issue<string>)
    requires Retried(states, events, Closes(section), s') && AllCloses(events, section)
    requires ReadOpen(states[0].body) == Some(q)
    ensures !Match(states[0].body, HowToDemo).Damaged?
    ensures Match(states[0].body, HowToDemo).Absent? ==>
      ReadJournal(s'.body) == ReadJournal(states[0].body) + [DecisionOn(q, section(states[0].body))]
    ensures Match(states[0].body, HowToDemo).Present? ==>
      var Present(pre, c, post) := Match(states[0].body, HowToDemo);
      ReadJournal(s'.body) ==
        ReadJournal(states[0].body) + [DecisionOn(q, if AllOf(c, IsSpace) then section(pre + post) else Trim(c))]
  {
    ClosingInText(states, events, q, section, s');
    ReachedIsSound(states[0]);
    assert InPlace(states[0].body, HowToDemo);
    if Match(states[0].body, HowToDemo).Present? {
      ReadsBlock(states[0].body, section);
    } else {
      ReadsSection(states[0].body, section);
    }
  }

  /**
   * A question answered by an edit of the body, closed again and again: in the text there is then exactly one decision
   * more, on that question and with the criterion the gate read, no question, no draft, and no waiting label.
   */
  lemma ClosingInText(states: seq<Issue<string>>, events: seq<TextEvent>, q: Question, section: string -> string, s': Issue<string>)
    requires Retried(states, events, Closes(section), s') && AllCloses(events, section)
    requires ReadOpen(states[0].body) == Some(q)
    ensures ReadJournal(s'.body) == ReadJournal(states[0].body) + [DecisionOn(q, ReadCriterion(states[0].body, section))]
    ensures ReadOpen(s'.body) == None && ReadDraft(s'.body) == None && WAITING !in s'.labels
    ensures DistinctIds(ReadJournal(s'.body))
  {
    var criterion := ReadCriterion(states[0].body, section);
    RetriedOnBoard(states, events, Closes(section), s');
    ClosesOnBoard(states, events, section, |events|, criterion);
    forall i | 0 <= i < |events| ensures ClosesWith(Boards(states)[i], Seen(states, events)[i], criterion) {
      ClosesOnBoard(states, events, section, i, criterion);
    }
    ClosingConverges(Boards(states), Seen(states, events), criterion, EventOf(states[|events|], Closes(section)), OnBoard(s'));
  }
}
