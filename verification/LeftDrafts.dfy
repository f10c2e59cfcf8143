/**
 * A draft that outlives its question. Drafts are bound to a question by its identifier; a question whose block is
 * taken out of the body leaves its draft there, and the next question of that kind gets the same identifier again.
 */
module LeftDrafts {
  import opened Chars
  import opened Convergence
  import opened Journal
  import opened Protocol
  import opened Records
  import opened Runs
  import opened Texts

  lemma JustAsked(s: Issue<Board>, e: Event, s': Issue<Board>)
    requires s.body.open == None && e.Asking? && Completed(s, e, s')
    ensures s'.body == Announced(s.body, NewQuestion(s.body, e.kind, e.text, e.options))
  {
    AskingConverges(NewQuestion(s.body, e.kind, e.text, e.options), [s], [], s');
  }

  /** The question is new, the answer to it is its first, and it is a word of confirmation, not a number. */
  ghost predicate FirstYes(s: Issue<Board>, ask: Event, s': Issue<Board>, answer: Event, s'': Issue<Board>) {
    && s.body.open == None && ask.Asking? && Completed(s, ask, s')
    && answer.Answering? && answer.questionId == NextId(s.body.journal, ask.kind)
    && IsConfirmation(Trim(answer.text)) && !IsChoice(Trim(answer.text), |ask.options|)
    && Completed(s', answer, s'')
  }

  /**
   * The first answer to a new question, a word of confirmation, decides it at once if and only if, before the question
   * was asked, the body held an announced draft under the identifier the question was to get; then by that draft,
   * whatever the question says. (A draft not announced yet decides at the next word: TwoYesDecideIff.)
   */
  lemma FirstYesDecidesIff(s: Issue<Board>, ask: Event, s': Issue<Board>, answer: Event, s'': Issue<Board>)
    requires Inv(s) && FirstYes(s, ask, s', answer, s'')
    ensures s''.body.journal != s.body.journal <==> HasShown(s.body, NextId(s.body.journal, ask.kind))
    ensures HasShown(s.body, NextId(s.body.journal, ask.kind)) ==>
      exists added :: s''.body.journal == s.body.journal + added &&
        OnList(s.body.journal, added, NewQuestion(s.body, ask.kind, ask.text, ask.options), s.body.draft.value.interpretation)
  {
    var q := NewQuestion(s.body, ask.kind, ask.text, ask.options).(announced := true);
    JustAsked(s, ask, s');
    NextIdSound(s.body.journal, ask.kind);
    if HasShown(s.body, q.id) {
      var added := OwnDraftApplied(s', answer, q, s.body.draft.value.interpretation, s'');
      assert OnList(s.body.journal, added, NewQuestion(s.body, ask.kind, ask.text, ask.options), s.body.draft.value.interpretation);
      assert |s''.body.journal| == |s.body.journal| + |added|;
    } else {
      DraftingLeavesAlone(s', answer, q);
      LeftAlone(s'.body, s', ScriptOf(s', answer).effects);
    }
  }

  // ---------------------------------------------------------------------------------------------
  // Where a draft comes from

  /** An answer to the question under this identifier, and what the model made of it. */
  predicate GivenFor(e: Event, id: string, i: Interpretation) {
    e.Answering? && e.questionId == id && e.reply == Understood(i)
  }

  /** The draft of `t` is the one of `b`, perhaps flagged, or what the model just made of an answer under its identifier. */
  predicate DraftFrom(b: Board, e: Event, t: Board) {
    t.draft.Some? ==>
      var p := t.draft.value;
      || (b.draft.Some? && b.draft.value.questionId == p.questionId && b.draft.value.interpretation == p.interpretation)
      || GivenFor(e, p.questionId, p.interpretation)
  }

  ghost predicate AllDraftsFrom(b: Board, e: Event, effects: seq<Effect<Board>>) {
    forall k :: 0 <= k < |effects| && effects[k].SetBody? ==> DraftFrom(b, e, effects[k].body)
  }

  lemma {:induction false} AmendAllKeepsDraft(b: Board, list: seq<Amendment>)
    ensures AmendAll(b, list).draft == b.draft
    decreases |list|
  {
    if list != [] { AmendAllKeepsDraft(b, list[..|list| - 1]); }
  }

  lemma AppliedHasNoDraft(b: Board, q: Question, i: Interpretation)
    ensures Applied(b, q, i).draft == None
  {
    AmendAllKeepsDraft(Place(Append(b.(draft := None), DecisionOn(q, i.answer)), q.kind, i.answer), i.amendments);
  }

  lemma OpenDraftsFrom(b: Board, e: Event, q: Question)
    requires e.Answering? && q.id == e.questionId
    ensures AllDraftsFrom(b, e, AnswerOpen(b, q, Trim(e.text), e.commentId, e.reply).effects)
  {
    if b.draft.Some? { AppliedHasNoDraft(b, q, b.draft.value.interpretation); }
  }

  lemma ScriptDraftsFrom(s: Issue<Board>, e: Event)
    requires !e.Editing?
    ensures AllDraftsFrom(s.body, e, ScriptOf(s, e).effects)
  {
    if e.Answering? && s.body.open.Some? && s.body.open.value.id == e.questionId {
      OpenDraftsFrom(s.body, e, s.body.open.value);
    }
  }

  lemma {:induction false} LastDraftFrom(b: Board, e: Event, s: Issue<Board>, effects: seq<Effect<Board>>)
    requires AllDraftsFrom(b, e, effects) && DraftFrom(b, e, s.body)
    ensures DraftFrom(b, e, Apply(s, effects).body)
    decreases |effects|
  {
    if effects != [] { LastDraftFrom(b, e, s, effects[..|effects| - 1]); }
  }

  lemma StepDraftFrom(s: Issue<Board>, e: Event, s': Issue<Board>)
    requires Step(s, e, s')
    ensures DraftFrom(s.body, e, s'.body)
  {
    if !e.Editing? {
      var done: nat :| Attempt(s, e, done, s');
      ScriptDraftsFrom(s, e);
      LastDraftFrom(s.body, e, s, ScriptOf(s, e).effects[..done]);
    }
  }

  /** The interpretation was given, before state `n`, for an answer under this identifier. */
  ghost predicate GivenBefore(events: seq<Event>, n: nat, id: string, i: Interpretation)
    requires n <= |events|
  {
    exists k :: 0 <= k < n && GivenFor(events[k], id, i)
  }

  /**
   * In a run that starts without a draft under an identifier, every draft that stands under it later is what the model
   * made, in that run, of an answer under that identifier.
   */
  lemma {:induction false} DraftsAreAnswers(states: seq<Issue<Board>>, events: seq<Event>, id: string, n: nat)
    requires Run(states, events) && n < |states| && !HasDraft(states[0].body, id) && HasDraft(states[n].body, id)
    ensures GivenBefore(events, n, id, states[n].body.draft.value.interpretation)
    decreases n
  {
    if n > 0 {
      var m := n - 1;
      assert StepAt(states, events, m);
      StepDraftFrom(states[m], events[m], states[n]);
      if !GivenFor(events[m], id, states[n].body.draft.value.interpretation) {
        DraftsAreAnswers(states, events, id, m);
      }
    }
  }

  // ---------------------------------------------------------------------------------------------
  // Which drafts decide

  /** The step decides the open question by a free answer, as the interpretation says. */
  ghost predicate DecidesBy(s: Issue<Board>, e: Event, s': Issue<Board>, q: Question, i: Interpretation) {
    && s.body.open == Some(q) && e.Answering? && e.questionId == q.id && !IsChoice(Trim(e.text), |q.options|)
    && exists added :: s'.body.journal == s.body.journal + added && OnList(s.body.journal, added, q, i)
  }

  lemma NothingDone(s: Issue<Board>, e: Event, done: nat, s': Issue<Board>)
    requires Attempt(s, e, done, s')
    ensures done == 0 ==> s' == s
  {
    if done == 0 { assert ScriptOf(s, e).effects[..0] == []; }
  }

  lemma UnconfirmedKeeps(s: Issue<Board>, e: Event, q: Question, done: nat, s': Issue<Board>)
    requires s.body.open == Some(q) && e.Answering? && e.questionId == q.id && !IsChoice(Trim(e.text), |q.options|)
    requires Attempt(s, e, done, s') && !(HasShown(s.body, q.id) && IsConfirmation(Trim(e.text)))
    ensures s'.body.journal == s.body.journal
  {
    DraftingLeavesAlone(s, e, q);
    LeftAlone(s.body, s, ScriptOf(s, e).effects[..done]);
  }

  /** What a confirmation that wrote something did to the journal. */
  lemma ConfirmedPart(s: Issue<Board>, e: Event, q: Question, done: nat, s': Issue<Board>)
    requires s.body.open == Some(q) && e.Answering? && e.questionId == q.id && !IsChoice(Trim(e.text), |q.options|)
    requires HasShown(s.body, q.id) && IsConfirmation(Trim(e.text)) && Attempt(s, e, done, s') && 0 < done
    ensures s'.body.journal == Applied(s.body, q, s.body.draft.value.interpretation).journal
  {
    EmptyIsNoConfirmation();
    var applied := Applied(s.body, q, s.body.draft.value.interpretation);
    var effects := ScriptOf(s, e).effects;
    assert effects == [SetBody(applied), DropLabel(WAITING)];
    if done == 1 {
      assert effects[..1] == [SetBody(applied)];
      ApplyOne(s, SetBody(applied));
    } else {
      assert effects[..2] == [SetBody(applied), DropLabel(WAITING)];
      ApplyTwo(s, SetBody(applied), DropLabel(WAITING));
    }
  }

  /** A free answer decides the question only as the draft of the body says, and only a draft shown for that question. */
  lemma DecidesByDraft(s: Issue<Board>, e: Event, s': Issue<Board>, q: Question, i: Interpretation)
    requires Inv(s) && Step(s, e, s') && DecidesBy(s, e, s', q, i)
    ensures HasShown(s.body, q.id) && s.body.draft.value.interpretation == i && IsConfirmation(Trim(e.text))
  {
    var added :| s'.body.journal == s.body.journal + added && OnList(s.body.journal, added, q, i);
    assert |s'.body.journal| > |s.body.journal|;
    var done: nat :| Attempt(s, e, done, s');
    NothingDone(s, e, done, s');
    var shown := HasShown(s.body, q.id) && IsConfirmation(Trim(e.text));
    if !shown { UnconfirmedKeeps(s, e, q, done, s'); }
    assert shown;
    ConfirmedPart(s, e, q, done, s');
    var known := AppliedAdds(s.body, q, s.body.draft.value.interpretation);
    SameList(s.body.journal, added, known, q, i, s.body.draft.value.interpretation);
  }

  /** What is added says what the interpretation was. */
  lemma SameList(journal: seq<Decision>, a: seq<Decision>, b: seq<Decision>, q: Question, i: Interpretation, j: Interpretation)
    requires journal + a == journal + b && OnList(journal, a, q, i) && OnList(journal, b, q, j)
    ensures i == j
  {
    assert a == (journal + a)[|journal|..] && b == (journal + b)[|journal|..];
    assert |i.amendments| == |j.amendments|;
    forall k | 0 <= k < |i.amendments| ensures i.amendments[k] == j.amendments[k] {
      assert Carries(journal, a[1..][k], i.amendments[k]) && Carries(journal, b[1..][k], j.amendments[k]);
    }
    assert i.amendments == j.amendments;
  }

  /**
   * In a run that starts without a draft under the identifier of a question, a free answer decides that question only
   * as the model made, in that run, of an answer under that identifier.
   */
  lemma OnlyOwnDraftDecides(states: seq<Issue<Board>>, events: seq<Event>, q: Question, i: Interpretation, n: nat)
    requires Run(states, events) && Inv(states[0]) && !HasDraft(states[0].body, q.id)
    requires n < |events| && DecidesBy(states[n], events[n], states[n + 1], q, i)
    ensures GivenBefore(events, n, q.id, i)
  {
    RunKeeps(states, events, n);
    assert StepAt(states, events, n);
    DecidesByDraft(states[n], events[n], states[n + 1], q, i);
    DraftsAreAnswers(states, events, q.id, n);
  }

  lemma NothingShown(s: Issue<Board>, e: Event, q: Question, s': Issue<Board>)
    requires s.body.open == Some(q) && e.Answering? && e.questionId == q.id && e.reply == Refused
    requires Trim(e.text) != "" && !IsChoice(Trim(e.text), |q.options|) && !HasDraft(s.body, q.id) && Completed(s, e, s')
    ensures s'.body == s.body
  {
    ApplyOne(s, Post(NotUnderstood));
  }

  /** A word of confirmation given to a question, of which the model makes nothing. */
  predicate Yes(e: Event, q: Question) {
    && e.Answering? && e.questionId == q.id && e.reply == Refused
    && IsConfirmation(Trim(e.text)) && !IsChoice(Trim(e.text), |q.options|)
  }

  /** A word of confirmation that meets a shown draft decides by it, and the next one finds the question decided. */
  lemma YesShown(s: Issue<Board>, q: Question, yes: Event, s': Issue<Board>)
    requires Inv(s) && s.body.open == Some(q) && HasShown(s.body, q.id) && Yes(yes, q) && Completed(s, yes, s')
    ensures DecidesBy(s, yes, s', q, s.body.draft.value.interpretation)
    ensures s'.body.open == None && Known(s'.body.journal, q.id)
  {
    var added := OwnDraftApplied(s, yes, q, s.body.draft.value.interpretation, s');
    ConfirmedLeaves(s, yes, q, s', added);
  }

  /** Two words of confirmation, both through: the second one decides if the first one only showed the draft. */
  lemma TwoYes(s: Issue<Board>, q: Question, yes: Event, s': Issue<Board>, again: Event, s'': Issue<Board>)
    requires Inv(s) && s.body.open == Some(q) && Yes(yes, q) && Yes(again, q)
    requires Completed(s, yes, s') && Completed(s', again, s'')
    ensures !HasDraft(s.body, q.id) ==> s''.body.journal == s.body.journal
    ensures HasShown(s.body, q.id) ==>
      DecidesBy(s, yes, s', q, s.body.draft.value.interpretation) && s''.body.journal == s'.body.journal
    ensures HasDraft(s.body, q.id) && !s.body.draft.value.announced ==>
      s'.body.journal == s.body.journal && DecidesBy(s', again, s'', q, s.body.draft.value.interpretation)
  {
    EmptyIsNoConfirmation();
    NamedId(q.id, q.kind);
    if HasShown(s.body, q.id) {
      YesShown(s, q, yes, s');
      DecidedStays(s', again, q, s'');
    } else if HasDraft(s.body, q.id) {
      HiddenShown(s, yes, q, s');
      KeptByStep(s, yes, s');
      YesShown(s', q, again, s'');
    } else {
      NothingShown(s, yes, q, s');
      NothingShown(s', again, q, s'');
    }
  }

  lemma CompletedIsStep(s: Issue<Board>, e: Event, s': Issue<Board>)
    requires Completed(s, e, s')
    ensures Step(s, e, s')
  {
    var effects := ScriptOf(s, e).effects;
    assert effects[..|effects|] == effects;
    assert Attempt(s, e, |effects|, s');
  }

  lemma KeptByStep(s: Issue<Board>, e: Event, s': Issue<Board>)
    requires Inv(s) && Completed(s, e, s')
    ensures Inv(s')
  {
    CompletedIsStep(s, e, s');
    StepKeeps(s, e, s');
  }

  /**
   * A new question and two words of confirmation, all three through, the model making nothing of them: the journal is
   * another one if and only if the body held a draft, shown or not, under the identifier before the question was asked;
   * then the question is decided as that draft says.
   */
  lemma TwoYesDecideIff(s: Issue<Board>, ask: Event, s1: Issue<Board>, yes: Event, s2: Issue<Board>, again: Event, s3: Issue<Board>)
    requires Inv(s) && s.body.open == None && ask.Asking? && Completed(s, ask, s1)
    requires var q := NewQuestion(s.body, ask.kind, ask.text, ask.options); Yes(yes, q) && Yes(again, q)
    requires Completed(s1, yes, s2) && Completed(s2, again, s3)
    ensures s3.body.journal != s.body.journal <==> HasDraft(s.body, NextId(s.body.journal, ask.kind))
    ensures HasDraft(s.body, NextId(s.body.journal, ask.kind)) ==>
      var q, i := NewQuestion(s.body, ask.kind, ask.text, ask.options), s.body.draft.value.interpretation;
      exists added :: s3.body.journal == s.body.journal + added && OnList(s.body.journal, added, q, i)
  {
    var q := NewQuestion(s.body, ask.kind, ask.text, ask.options).(announced := true);
    JustAsked(s, ask, s1);
    KeptByStep(s, ask, s1);
    TwoYes(s1, q, yes, s2, again, s3);
    if HasDraft(s.body, q.id) {
      var i := s.body.draft.value.interpretation;
      var added :| s3.body.journal == s.body.journal + added && OnList(s.body.journal, added, q, i);
      assert OnList(s.body.journal, added, NewQuestion(s.body, ask.kind, ask.text, ask.options), i);
      assert |s3.body.journal| > |s.body.journal|;
    }
  }

  // ---------------------------------------------------------------------------------------------
  // A run that does it

  ghost function Next(s: Issue<Board>, e: Event): Issue<Board>
    requires !e.Editing?
  {
    Apply(s, ScriptOf(s, e).effects)
  }

  lemma NextIsStep(s: Issue<Board>, e: Event)
    requires !e.Editing?
    ensures Step(s, e, Next(s, e)) && Completed(s, e, Next(s, e))
  {
    var effects := ScriptOf(s, e).effects;
    assert effects[..|effects|] == effects;
    assert Attempt(s, e, |effects|, Next(s, e));
  }

  /** One step more. */
  lemma RunMore(states: seq<Issue<Board>>, events: seq<Event>, e: Event, s': Issue<Board>)
    returns (longer: seq<Issue<Board>>, more: seq<Event>)
    requires Run(states, events) && Step(states[|events|], e, s')
    ensures Run(longer, more) && |more| == |events| + 1 && more[|events|] == e && longer[|states|] == s'
    ensures (forall i :: 0 <= i < |states| ==> longer[i] == states[i]) && forall i :: 0 <= i < |events| ==> more[i] == events[i]
  {
    longer, more := states + [s'], events + [e];
    forall i | 0 <= i < |more| ensures StepAt(longer, more, i) {
      if i < |events| { assert StepAt(states, events, i); }
    }
  }

  /** Asked, answered in free text, the draft shown; then the question's block is taken out of the body. */
  lemma LeavesDraft(s: Issue<Board>, kind: string, text: string, free: string, i: Interpretation)
    returns (s1: Issue<Board>, s2: Issue<Board>, s3: Issue<Board>)
    requires Blank(s) && i.amendments == [] && Trim(i.answer) != "" && Trim(free) != "" && !IsChoice(Trim(free), 0)
    ensures var id := NextId([], kind);
      && Step(s, Asking(kind, text, []), s1)
      && Step(s1, Answering(id, free, None, Understood(i)), s2)
      && Step(s2, Editing, s3)
      && s3.body == s.body.(draft := Some(Pending(id, i, true)))
  {
    var ask, answer := Asking(kind, text, []), Answering(NextId([], kind), free, None, Understood(i));
    var q := NewQuestion(s.body, kind, text, []).(announced := true);
    s1 := Next(s, ask);
    NextIsStep(s, ask);
    JustAsked(s, ask, s1);
    s2 := Next(s1, answer);
    NextIsStep(s1, answer);
    DraftingCompleted(s1, answer, q, s2);
    s3 := s2.(body := s2.body.(open := None));
  }

  /** A first free answer cut short after its comment leaves its draft without the flag. */
  lemma DraftingCut(s: Issue<Board>, e: Event, q: Question, s': Issue<Board>)
    requires s.body.open == Some(q) && e.Answering? && e.questionId == q.id && Trim(e.text) != ""
    requires !IsChoice(Trim(e.text), |q.options|) && s.body.draft == None
    requires e.reply.Understood? && Sound(e.reply.interpretation, s.body.journal) && Attempt(s, e, 2, s')
    ensures s'.body == s.body.(draft := Some(Pending(q.id, e.reply.interpretation, false)))
    ensures ShownIn(s'.comments, q.id, e.reply.interpretation)
  {
    var p := Pending(q.id, e.reply.interpretation, false);
    var b := s.body.(draft := Some(p));
    var post, flag := AnnounceDraft(b, p).effects[0], AnnounceDraft(b, p).effects[1];
    assert ScriptOf(s, e).effects == [SetBody(b)] + [post, flag];
    assert ScriptOf(s, e).effects[..2] == [SetBody(b), post];
    ApplyTwo(s, SetBody(b), post);
    assert s'.comments[|s.comments|] == post.comment;
  }

  /**
   * From any issue with nothing decided and nothing asked there is a run in which the interpretation of the answer to
   * one question, shown for that question, decides another one, whose text it was never shown with. (The board takes
   * any texts; TextLeftDrafts.DraftDecidesAnotherInText is the run over the body, where texts with markers are refused.)
   */
  lemma DraftDecidesAnother(s: Issue<Board>, kind: string, text: string, free: string, i: Interpretation, other: string)
    returns (states: seq<Issue<Board>>, events: seq<Event>)
    requires Blank(s) && i.amendments == [] && Trim(i.answer) != "" && Trim(free) != "" && !IsChoice(Trim(free), 0)
    ensures Run(states, events) && states[0] == s && |events| == 5
    ensures events[0] == Asking(kind, text, []) && events[3] == Asking(kind, other, [])
    ensures events[1].Answering? && events[1].text == free && events[4].Answering? && events[4].text == "yes"
    ensures states[5].body.journal == [Decision(NextId([], kind), kind, other, i.answer, "")]
  {
    var id := NextId([], kind);
    var s1, s2, s3 := LeavesDraft(s, kind, text, free, i);
    var ask, yes := Asking(kind, other, []), Answering(id, "yes", None, Refused);
    var s4 := Next(s3, ask);
    NextIsStep(s3, ask);
    var s5 := Next(s4, yes);
    NextIsStep(s4, yes);
    var e0, e1 := Asking(kind, text, []), Answering(id, free, None, Understood(i));
    states, events := [s], [];
    states, events := RunMore(states, events, e0, s1);
    states, events := RunMore(states, events, e1, s2);
    states, events := RunMore(states, events, Editing, s3);
    states, events := RunMore(states, events, ask, s4);
    states, events := RunMore(states, events, yes, s5);
    YesDecides(s3, ask, s4, yes, s5, i);
  }

  /** Without amendments one decision is added, the one on the question. */
  lemma OnlyTheDecision(j: seq<Decision>, added: seq<Decision>, q: Question, i: Interpretation)
    requires OnList(j, added, q, i) && i.amendments == []
    ensures added == [DecisionOn(q, i.answer)]
  {
    assert added == [added[0]] + added[1..];
  }

  lemma YesDecides(s: Issue<Board>, ask: Event, s': Issue<Board>, yes: Event, s'': Issue<Board>, i: Interpretation)
    requires s.body.journal == [] && s.body.open == None && i.amendments == [] && Trim(i.answer) != ""
    requires ask.Asking? && ask.options == [] && s.body.draft == Some(Pending(NextId([], ask.kind), i, true))
    requires yes == Answering(NextId([], ask.kind), "yes", None, Refused)
    requires Completed(s, ask, s') && Completed(s', yes, s'')
    ensures s''.body.journal == [Decision(NextId([], ask.kind), ask.kind, ask.text, i.answer, "")]
  {
    var q := NewQuestion(s.body, ask.kind, ask.text, ask.options).(announced := true);
    YesConfirms();
    JustAsked(s, ask, s');
    NextIdSound([], ask.kind);
    var added := OwnDraftApplied(s', yes, q, i, s'');
    OnlyTheDecision([], added, q, i);
    assert [] + added == added;
  }

  // ---------------------------------------------------------------------------------------------
  // The exact condition

  /** Step `n` decides `q` by a free answer as the model made of no answer of the run under its identifier. */
  ghost predicate ForeignDecision(states: seq<Issue<Board>>, events: seq<Event>, q: Question, i: Interpretation, n: nat)
    requires n < |events| < |states|
  {
    DecidesBy(states[n], events[n], states[n + 1], q, i) && !GivenBefore(events, n, q.id, i)
  }

  /** A run that starts with this call, in which the question it asks is decided as no answer to it was understood. */
  ghost predicate DecidedForeign(s: Issue<Board>, ask: Event, states: seq<Issue<Board>>, events: seq<Event>, q: Question,
                                 i: Interpretation, n: nat)
    requires ask.Asking?
  {
    && Run(states, events) && n < |events| && states[0] == s && events[0] == ask
    && q.id == NextId(s.body.journal, ask.kind) && ForeignDecision(states, events, q, i, n)
  }

  lemma YesIsNoNumber(n: nat)
    ensures !IsChoice(Trim("yes"), n)
  {
    assert TrimLeft("yes", IsSpace) == "yes" && TrimRight("yes", IsSpace) == "yes";
    assert !IsDigit("yes"[0]);
  }

  /** Nothing but refusals since the question was asked. */
  lemma NoneGiven(events: seq<Event>, n: nat, id: string, i: Interpretation)
    requires n <= |events| && forall k :: 0 <= k < n ==> events[k].Asking? || (events[k].Answering? && events[k].reply == Refused)
    ensures !GivenBefore(events, n, id, i)
  {
  }

  lemma OneStep(s: Issue<Board>, e: Event, s': Issue<Board>)
    requires Step(s, e, s')
    ensures Run([s, s'], [e])
  {
    assert StepAt([s, s'], [e], 0);
  }

  /** Three steps, as a run. */
  lemma ThreeSteps(s: Issue<Board>, e: Event, s1: Issue<Board>, e1: Event, s2: Issue<Board>, e2: Event, s3: Issue<Board>)
    returns (states: seq<Issue<Board>>, events: seq<Event>)
    requires Step(s, e, s1) && Step(s1, e1, s2) && Step(s2, e2, s3)
    ensures Run(states, events) && |events| == 3 && events[0] == e && events[1] == e1 && events[2] == e2
    ensures states[0] == s && states[1] == s1 && states[2] == s2 && states[3] == s3
  {
    OneStep(s, e, s1);
    states, events := RunMore([s, s1], [e], e1, s2);
    states, events := RunMore(states, events, e2, s3);
  }

  lemma YesYes(s: Issue<Board>, yes: Event) returns (s': Issue<Board>, s'': Issue<Board>)
    requires yes.Answering?
    ensures Completed(s, yes, s') && Completed(s', yes, s'') && Step(s, yes, s') && Step(s', yes, s'')
  {
    s' := Next(s, yes);
    NextIsStep(s, yes);
    s'' := Next(s', yes);
    NextIsStep(s', yes);
  }

  /** The step that decides after the asking: the first word if the draft was shown, else the second. */
  lemma OneYesDecides(s: Issue<Board>, ask: Event, s1: Issue<Board>, yes: Event, s2: Issue<Board>, s3: Issue<Board>, q: Question)
    requires Inv(s) && s.body.open == None && ask.Asking? && HasDraft(s.body, q.id) && Completed(s, ask, s1)
    requires q == NewQuestion(s.body, ask.kind, ask.text, ask.options).(announced := true) && Yes(yes, q)
    requires Completed(s1, yes, s2) && Completed(s2, yes, s3)
    ensures DecidesBy(s1, yes, s2, q, s.body.draft.value.interpretation) ||
      DecidesBy(s2, yes, s3, q, s.body.draft.value.interpretation)
  {
    JustAsked(s, ask, s1);
    KeptByStep(s, ask, s1);
    TwoYes(s1, q, yes, s2, yes, s3);
  }

  /** A draft left in the body, shown or not, decides the next question under its identifier. */
  lemma LeftDraftDecides(s: Issue<Board>, ask: Event)
    returns (states: seq<Issue<Board>>, events: seq<Event>, q: Question, n: nat)
    requires Inv(s) && s.body.open == None && ask.Asking? && HasDraft(s.body, NextId(s.body.journal, ask.kind))
    ensures DecidedForeign(s, ask, states, events, q, s.body.draft.value.interpretation, n)
  {
    q := NewQuestion(s.body, ask.kind, ask.text, ask.options).(announced := true);
    var yes := Answering(q.id, "yes", None, Refused);
    YesConfirms();
    YesIsNoNumber(|q.options|);
    var s1 := Next(s, ask);
    NextIsStep(s, ask);
    var s2, s3 := YesYes(s1, yes);
    OneYesDecides(s, ask, s1, yes, s2, s3, q);
    states, events := ThreeSteps(s, ask, s1, yes, s2, yes, s3);
    n := ForeignIn(states, events, q, s.body.draft.value.interpretation);
  }

  lemma ForeignIn(states: seq<Issue<Board>>, events: seq<Event>, q: Question, i: Interpretation) returns (n: nat)
    requires |states| == 4 && |events| == 3 && events[0].Asking? && Yes(events[1], q) && Yes(events[2], q)
    requires DecidesBy(states[1], events[1], states[2], q, i) || DecidesBy(states[2], events[2], states[3], q, i)
    ensures n < 3 && ForeignDecision(states, events, q, i, n)
  {
    NoneGiven(events, 1, q.id, i);
    NoneGiven(events, 2, q.id, i);
    n := if DecidesBy(states[1], events[1], states[2], q, i) then 1 else 2;
  }

  /**
   * A question that is asked can be decided as no answer to it was understood if and only if, before it was asked, the
   * body held a draft under its identifier, shown or not.
   */
  lemma ForeignDecidesIff(s: Issue<Board>, ask: Event)
    requires Inv(s) && s.body.open == None && ask.Asking?
    ensures (exists states, events, q, i, n :: DecidedForeign(s, ask, states, events, q, i, n)) <==>
      HasDraft(s.body, NextId(s.body.journal, ask.kind))
  {
    if HasDraft(s.body, NextId(s.body.journal, ask.kind)) {
      var states, events, q, n := LeftDraftDecides(s, ask);
      assert DecidedForeign(s, ask, states, events, q, s.body.draft.value.interpretation, n);
    } else {
      forall states, events, q, i, n | DecidedForeign(s, ask, states, events, q, i, n) ensures false {
        OnlyOwnDraftDecides(states, events, q, i, n);
      }
    }
  }
}
