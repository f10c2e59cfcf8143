/** What the verdict of an answer tells: when each is given, and what then is in the issue. */
module Verdicts {
  import opened Chars
  import opened Commands
  import opened Convergence
  import opened Journal
  import opened Protocol
  import opened Records
  import opened Runs
  import opened Texts
  import opened Words

  /** The answer is to the question that is open. */
  predicate ToOpen(b: Board, questionId: string) {
    b.open.Some? && b.open.value.id == questionId
  }

  /** It decides that question: by the number of an option, or by a word that confirms a draft shown for it. */
  predicate Decides(b: Board, questionId: string, answer: string) {
    ToOpen(b, questionId) && answer != "" &&
    (IsChoice(answer, |b.open.value.options|) || (HasShown(b, questionId) && IsConfirmation(answer)))
  }

  /** Which verdict an answer gets. */
  lemma VerdictIff(s: Issue<Board>, questionId: string, text: string, commentId: Option<int>, reply: Reply)
    ensures var end, b := Answer(s, questionId, text, commentId, reply).end, s.body;
      && (end == Returns(Empty) <==> ToOpen(b, questionId) && Trim(text) == "")
      && (end == Returns(Accepted) <==>
            Decides(b, questionId, Trim(text)) || (b.open == None && questionId != "" && Known(b.journal, questionId)))
      && (end == Returns(Confirm) <==> ToOpen(b, questionId) && Trim(text) != "" && !Decides(b, questionId, Trim(text)))
      && (end == Returns(Reasked) <==> b.open == None && questionId != "" && !Known(b.journal, questionId))
      && (end == Returns(NoQuestion) <==> if b.open == None then questionId == "" else !ToOpen(b, questionId))
  {
  }

  /** How asking ends: it refuses exactly on an open question of another kind, and else names the question that is open. */
  lemma AskVerdictIff(s: Issue<Board>, kind: string, text: string, options: seq<string>)
    ensures var end, open := Ask(s, kind, text, options).end, s.body.open;
      && (end.Raises? <==> open.Some? && open.value.kind != kind)
      && (end.Raises? ==> end == Raises(ConflictingQuestion) && Ask(s, kind, text, options).effects == [])
      && (end.Returns? ==> end == Returns(Open(if open.Some? then open.value.id else NextId(s.body.journal, kind))))
  {
  }

  /** An empty answer to the open question reacts to its comment with two signs, and does nothing else. */
  lemma EmptyTells(s: Issue<Board>, e: Event, s': Issue<Board>)
    requires e.Answering? && ScriptOf(s, e).end == Returns(Empty) && Completed(s, e, s')
    ensures s' == s.(reactions := s.reactions +
      if e.commentId.Some? then [(e.commentId.value, "confused"), (e.commentId.value, "-1")] else [])
  {
    if e.commentId.Some? {
      var x, y := React(e.commentId.value, "confused"), React(e.commentId.value, "-1");
      assert ScriptOf(s, e).effects == [x, y];
      ApplyTwo(s, x, y);
      assert s.reactions + [(e.commentId.value, "confused")] + [(e.commentId.value, "-1")] ==
        s.reactions + [(e.commentId.value, "confused"), (e.commentId.value, "-1")];
    } else {
      assert s.reactions + [] == s.reactions;
    }
  }

  /** An answer to no question that is open leaves the body, and says in one comment which it was. */
  lemma NoQuestionTells(s: Issue<Board>, e: Event, s': Issue<Board>)
    requires e.Answering? && ScriptOf(s, e).end == Returns(NoQuestion) && Completed(s, e, s')
    ensures s' == s.(comments := s.comments + [if s.body.open == None then NothingAsked else Outdated])
  {
    ApplyOne(s, ScriptOf(s, e).effects[0]);
  }

  /** An accepted answer is in the journal, no question is open, and nobody is waited for. */
  lemma AcceptedTells(s: Issue<Board>, e: Event, s': Issue<Board>)
    requires Inv(s) && e.Answering? && ScriptOf(s, e).end == Returns(Accepted) && Completed(s, e, s')
    ensures Known(s'.body.journal, e.questionId) && s'.body.open == None && WAITING !in s'.labels
    ensures s'.comments == s.comments
  {
    if s.body.open == None {
      ApplyOne(s, DropLabel(WAITING));
    } else {
      var q := s.body.open.value;
      VerdictIff(s, e.questionId, e.text, e.commentId, e.reply);
      var settled := SettledBody(s, e, q);
      ApplyTwo(s, SetBody(settled), DropLabel(WAITING));
    }
  }

  lemma SettledBody(s: Issue<Board>, e: Event, q: Question) returns (settled: Board)
    requires Inv(s) && e.Answering? && s.body.open == Some(q) && Decides(s.body, e.questionId, Trim(e.text))
    ensures ScriptOf(s, e).effects == [SetBody(settled), DropLabel(WAITING)]
    ensures settled.open == None && Known(settled.journal, q.id)
  {
    if IsChoice(Trim(e.text), |q.options|) {
      var answer := q.options[Number(Trim(e.text)) - 1];
      settled := Recorded(s.body, q, answer, true);
      assert settled.journal[|s.body.journal|] == DecisionOn(q, answer);
    } else {
      var i := s.body.draft.value.interpretation;
      settled := Applied(s.body, q, i);
      var added := AppliedAdds(s.body, q, i);
      assert settled.journal[|s.body.journal|] == added[0];
    }
  }

  /** A draft under the identifier stands in the body and was not shown yet. */
  predicate Hides(b: Board, questionId: string) {
    HasDraft(b, questionId) && !b.draft.value.announced
  }

  /** The model made something of the answer: a text that is not blank, and amendments of entries that exist. */
  ghost predicate Meaningful(reply: Reply, journal: seq<Decision>) {
    reply.Understood? && !AllOf(reply.interpretation.answer, IsSpace) &&
    forall a :: a in reply.interpretation.amendments ==> Known(journal, a.questionId)
  }

  lemma SoundIff(i: Interpretation, journal: seq<Decision>)
    ensures Sound(i, journal) <==> Meaningful(Understood(i), journal)
  {
    BlankIff(i.answer);
  }

  /**
   * What asking to confirm leaves. A draft not shown yet is shown, whatever the model made of the answer; else what it
   * made, if that is anything, becomes the draft and is shown; else people are told that nothing was understood.
   */
  ghost predicate AskedToConfirm(s: Issue<Board>, questionId: string, reply: Reply, s': Issue<Board>) {
    if Hides(s.body, questionId) then ShownNow(s, questionId, s.body.draft.value.interpretation, s')
    else if Meaningful(reply, s.body.journal) then ShownNow(s, questionId, reply.interpretation, s')
    else s' == s.(comments := s.comments + [NotUnderstood])
  }

  ghost predicate ShownNow(s: Issue<Board>, questionId: string, i: Interpretation, s': Issue<Board>) {
    s' == s.(body := s.body.(draft := Some(Pending(questionId, i, true))),
             comments := s.comments + [Shown(questionId, i, s.body.journal)])
  }

  /** An answer that is to be confirmed decides nothing, leaves the question open, and puts exactly one comment to people. */
  lemma ConfirmTells(s: Issue<Board>, e: Event, s': Issue<Board>)
    requires e.Answering? && ScriptOf(s, e).end == Returns(Confirm) && Completed(s, e, s')
    ensures AskedToConfirm(s, e.questionId, e.reply, s')
  {
    var q, b := s.body.open.value, s.body;
    VerdictIff(s, e.questionId, e.text, e.commentId, e.reply);
    if e.reply.Understood? { SoundIff(e.reply.interpretation, b.journal); }
    if Hides(b, q.id) {
      AnnouncedNow(s, e, q, b.draft.value, s');
    } else if Meaningful(e.reply, b.journal) {
      DraftedNow(s, e, q, s');
    } else {
      assert ScriptOf(s, e).effects == [Post(NotUnderstood)];
      ApplyOne(s, Post(NotUnderstood));
    }
  }

  lemma AnnouncedNow(s: Issue<Board>, e: Event, q: Question, p: Pending, s': Issue<Board>)
    requires e.Answering? && p.questionId == q.id && ScriptOf(s, e) == AnnounceDraft(s.body, p) && Completed(s, e, s')
    ensures s' == s.(body := s.body.(draft := Some(p.(announced := true))),
                     comments := s.comments + [Shown(q.id, p.interpretation, s.body.journal)])
  {
    ApplyTwo(s, AnnounceDraft(s.body, p).effects[0], AnnounceDraft(s.body, p).effects[1]);
  }

  lemma DraftedNow(s: Issue<Board>, e: Event, q: Question, s': Issue<Board>)
    requires e.Answering? && e.reply.Understood? && Sound(e.reply.interpretation, s.body.journal)
    requires ScriptOf(s, e) == Protocol.Drafted(s.body, q, e.reply) && Completed(s, e, s')
    ensures s' == s.(body := s.body.(draft := Some(Pending(q.id, e.reply.interpretation, true))),
                     comments := s.comments + [Shown(q.id, e.reply.interpretation, s.body.journal)])
  {
    var p := Pending(q.id, e.reply.interpretation, false);
    var b := s.body.(draft := Some(p));
    var post, flag := AnnounceDraft(b, p).effects[0], AnnounceDraft(b, p).effects[1];
    assert ScriptOf(s, e).effects == [SetBody(b)] + [post, flag];
    ApplyFirst(s, SetBody(b), [post, flag]);
    ApplyTwo(Do(s, SetBody(b)), post, flag);
  }

  /** A question asked in place of a lost one: of its kind, without options, numbered past it, and announced. */
  lemma ReaskedTells(s: Issue<Board>, e: Event, kind: string, n: nat, s': Issue<Board>)
    requires Inv(s) && e.Answering? && ScriptOf(s, e).end == Returns(Reasked) && Completed(s, e, s')
    requires kind != "" && e.questionId == MakeId(kind, n)
    ensures InPlaceOfKind(s'.body.open, s.body.journal, kind, n)
  {
    ReaskedIsNew(s, e, s');
    RevivedOpen(s'.body.open, s.body.journal, e.questionId, kind, n);
  }

  /** The number of an option, written plainly, retried after any failures, decides for that option. */
  lemma NumberDecides(states: seq<Issue<Board>>, events: seq<Event>, q: Question, k: nat, e: Event, s': Issue<Board>)
    requires Run(states, events) && Inv(states[0]) && states[0].body.open == Some(q)
    requires 1 <= k <= |q.options| && k <= 9999 && AllSameAnswer(events, q.id, Decimal(k))
    requires SameAnswer(e, q.id, Decimal(k)) && Completed(states[|events|], e, s')
    ensures s'.body.journal == states[0].body.journal + [Decision(q.id, q.kind, q.text, q.options[k - 1], "")]
  {
    NumberIsChoice(k, |q.options|);
    ChoiceConverges(states, events, q.id, Decimal(k), e, s');
  }
}
