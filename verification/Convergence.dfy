/** What any number of failed attempts of one call, and one that gets through, leave behind. */
module Convergence {
  import opened Chars
  import opened Journal
  import opened Protocol
  import opened Records
  import opened Runs
  import opened Texts

  /** The event is a call of `answer_question` with these arguments; what the model makes of them may differ. */
  predicate SameAnswer(e: Event, questionId: string, text: string) {
    e.Answering? && e.questionId == questionId && e.text == text
  }

  ghost predicate AllSameAnswer(events: seq<Event>, questionId: string, text: string) {
    forall i :: 0 <= i < |events| ==> SameAnswer(events[i], questionId, text)
  }

  /** The attempt made all its writes. */
  ghost predicate Completed(s: Issue<Board>, e: Event, s': Issue<Board>) {
    !e.Editing? && s' == Apply(s, ScriptOf(s, e).effects)
  }

  lemma AttemptAt(states: seq<Issue<Board>>, events: seq<Event>, i: nat) returns (done: nat)
    requires Run(states, events) && i < |events| && !events[i].Editing?
    ensures Attempt(states[i], events[i], done, states[i + 1])
  {
    assert StepAt(states, events, i);
    done :| Attempt(states[i], events[i], done, states[i + 1]);
  }

  lemma ApplyOne(s: Issue<Board>, x: Effect<Board>)
    ensures Apply(s, [x]) == Do(s, x) && Apply(s, []) == s
  {
    assert [x][..0] == [];
  }

  lemma ApplyTwo(s: Issue<Board>, x: Effect<Board>, y: Effect<Board>)
    ensures Apply(s, [x, y]) == Do(Do(s, x), y)
  {
    assert [x, y][..1] == [x];
    ApplyOne(s, x);
  }

  // ---------------------------------------------------------------------------------------------
  // A decision is recorded once

  /** Either nothing of the decision is in the body yet, or all of it is. */
  predicate Halfway(b: Board, settled: Board, t: Board) {
    t == b || t == settled
  }

  /** The call settles the body `b`: with it unchanged, the script writes `settled` and takes the label off. */
  ghost predicate Settles(b: Board, questionId: string, text: string, settled: Board) {
    && questionId != "" && settled.open == None && Known(settled.journal, questionId)
    && forall s: Issue<Board>, commentId: Option<int>, reply: Reply ::
        s.body == b ==> Answer(s, questionId, text, commentId, reply) == Settle(settled, Accepted)
  }

  lemma SettlingStep(b: Board, questionId: string, text: string, settled: Board, s: Issue<Board>, e: Event, done: nat, s': Issue<Board>)
    requires Settles(b, questionId, text, settled) && Halfway(b, settled, s.body)
    requires SameAnswer(e, questionId, text) && Attempt(s, e, done, s')
    ensures Halfway(b, settled, s'.body)
    ensures done == |ScriptOf(s, e).effects| ==> s'.body == settled && WAITING !in s'.labels
    ensures ScriptOf(s, e).end == Returns(Accepted)
  {
    var effects := ScriptOf(s, e).effects;
    if s.body == b && s.body != settled {
      assert effects == [SetBody(settled), DropLabel(WAITING)];
      if done == 1 {
        assert effects[..done] == [SetBody(settled)];
        ApplyOne(s, SetBody(settled));
      } else if done == 2 {
        assert effects[..done] == [SetBody(settled), DropLabel(WAITING)];
        ApplyTwo(s, SetBody(settled), DropLabel(WAITING));
      }
    } else {
      assert effects == [DropLabel(WAITING)] by { assert s.body == settled; }
      if done == 1 {
        assert effects[..done] == [DropLabel(WAITING)];
        ApplyOne(s, DropLabel(WAITING));
      }
    }
  }

  lemma {:induction false} SettlingRun(b: Board, questionId: string, text: string, settled: Board,
                                       states: seq<Issue<Board>>, events: seq<Event>, n: nat)
    requires Settles(b, questionId, text, settled) && states != [] && states[0].body == b
    requires Run(states, events) && AllSameAnswer(events, questionId, text) && n < |states|
    ensures Halfway(b, settled, states[n].body)
    decreases n
  {
    if n > 0 {
      SettlingRun(b, questionId, text, settled, states, events, n - 1);
      SettlingAt(b, questionId, text, settled, states, events, n - 1);
    }
  }

  lemma SettlingAt(b: Board, questionId: string, text: string, settled: Board,
                   states: seq<Issue<Board>>, events: seq<Event>, i: nat)
    requires Settles(b, questionId, text, settled) && Run(states, events) && AllSameAnswer(events, questionId, text)
    requires i < |events| && Halfway(b, settled, states[i].body)
    ensures Halfway(b, settled, states[i + 1].body)
  {
    assert SameAnswer(events[i], questionId, text);
    var done := AttemptAt(states, events, i);
    SettlingStep(b, questionId, text, settled, states[i], events[i], done, states[i + 1]);
  }

  lemma Settled(b: Board, questionId: string, text: string, settled: Board,
                states: seq<Issue<Board>>, events: seq<Event>, e: Event, s': Issue<Board>)
    requires Settles(b, questionId, text, settled) && states != [] && states[0].body == b
    requires Run(states, events) && AllSameAnswer(events, questionId, text)
    requires SameAnswer(e, questionId, text) && Completed(states[|events|], e, s')
    ensures s'.body == settled && WAITING !in s'.labels && ScriptOf(states[|events|], e).end == Returns(Accepted)
  {
    var s := states[|events|];
    SettlingRun(b, questionId, text, settled, states, events, |events|);
    assert ScriptOf(s, e).effects[..|ScriptOf(s, e).effects|] == ScriptOf(s, e).effects;
    SettlingStep(b, questionId, text, settled, s, e, |ScriptOf(s, e).effects|, s');
  }

  lemma NamedId(id: string, kind: string)
    requires IdOf(id, kind)
    ensures id != ""
  {
    var n: nat :| id == MakeId(kind, n);
    assert |MakeId(kind, n)| == |kind| + 1 + |Decimal(n)|;
  }

  lemma KnownLast(j: seq<Decision>, d: Decision, more: seq<Decision>)
    ensures Known(j + ([d] + more), d.questionId)
  {
    assert (j + ([d] + more))[|j|] == d;
  }

  lemma ChoiceSettles(b: Board, q: Question, text: string, answer: string)
    requires b.open == Some(q) && q.id != "" && IsChoice(Trim(text), |q.options|)
    requires answer == q.options[Number(Trim(text)) - 1]
    ensures Settles(b, q.id, text, Recorded(b, q, answer, true))
  {
    KnownLast(b.journal, DecisionOn(q, answer), []);
    assert [DecisionOn(q, answer)] + [] == [DecisionOn(q, answer)];
  }

  lemma ChoiceSettled(s: Issue<Board>, q: Question, text: string) returns (settled: Board)
    requires Inv(s) && s.body.open == Some(q) && IsChoice(Trim(text), |q.options|)
    ensures Settles(s.body, q.id, text, settled) && JournalSound(settled.journal) && settled.draft == None
    ensures settled.journal == s.body.journal + [DecisionOn(q, q.options[Number(Trim(text)) - 1])]
  {
    var answer := q.options[Number(Trim(text)) - 1];
    settled := Recorded(s.body, q, answer, true);
    NamedId(q.id, q.kind);
    SoundAdd(s.body.journal, DecisionOn(q, answer));
    ChoiceSettles(s.body, q, text, answer);
  }

  lemma ConfirmationSettles(b: Board, q: Question, text: string, added: seq<Decision>)
    requires b.open == Some(q) && q.id != "" && b.draft.Some? && b.draft.value.questionId == q.id && b.draft.value.announced
    requires IsConfirmation(Trim(text)) && !IsChoice(Trim(text), |q.options|)
    requires OnList(b.journal, added, q, b.draft.value.interpretation)
    requires Extends(b.(open := None, draft := None), added, Applied(b, q, b.draft.value.interpretation))
    ensures Settles(b, q.id, text, Applied(b, q, b.draft.value.interpretation))
  {
    assert added == [added[0]] + added[1..];
    KnownLast(b.journal, added[0], added[1..]);
    EmptyIsNoConfirmation();
  }

  /**
   * An answer by number: after any number of attempts cut short anywhere, one that gets through leaves exactly one
   * decision for the question, with the chosen option, no open question, no draft and no waiting label, and reports it accepted.
   */
  lemma ChoiceConverges(states: seq<Issue<Board>>, events: seq<Event>, questionId: string, text: string, e: Event, s': Issue<Board>)
    requires Run(states, events) && Inv(states[0]) && AllSameAnswer(events, questionId, text)
    requires var open := states[0].body.open;
      open.Some? && open.value.id == questionId && IsChoice(Trim(text), |open.value.options|)
    requires SameAnswer(e, questionId, text) && Completed(states[|events|], e, s')
    ensures var q := states[0].body.open.value;
      s'.body.journal == states[0].body.journal + [DecisionOn(q, q.options[Number(Trim(text)) - 1])]
    ensures JournalSound(s'.body.journal)
    ensures s'.body.open == None && s'.body.draft == None && WAITING !in s'.labels
    ensures ScriptOf(states[|events|], e).end == Returns(Accepted)
  {
    var settled := ChoiceSettled(states[0], states[0].body.open.value, text);
    Settled(states[0].body, questionId, text, settled, states, events, e, s');
  }

  /**
   * A confirmation of a shown draft: after any number of attempts cut short anywhere, one that gets through leaves
   * the decision on the question and those that carry out the amendments, each once, no open question and no waiting label.
   */
  lemma ConfirmationConverges(states: seq<Issue<Board>>, events: seq<Event>, questionId: string, text: string, e: Event, s': Issue<Board>)
    returns (added: seq<Decision>)
    requires Run(states, events) && Inv(states[0]) && AllSameAnswer(events, questionId, text)
    requires var open, draft := states[0].body.open, states[0].body.draft;
      && open.Some? && open.value.id == questionId
      && draft.Some? && draft.value.questionId == questionId && draft.value.announced
      && IsConfirmation(Trim(text)) && !IsChoice(Trim(text), |open.value.options|)
    requires SameAnswer(e, questionId, text) && Completed(states[|events|], e, s')
    ensures s'.body.journal == states[0].body.journal + added
    ensures OnList(states[0].body.journal, added, states[0].body.open.value, states[0].body.draft.value.interpretation)
    ensures JournalSound(s'.body.journal)
    ensures s'.body.open == None && s'.body.draft == None && WAITING !in s'.labels
    ensures ScriptOf(states[|events|], e).end == Returns(Accepted)
  {
    var b := states[0].body;
    var q, i := b.open.value, b.draft.value.interpretation;
    NamedId(q.id, q.kind);
    added := AppliedAdds(b, q, i);
    ConfirmationSettles(b, q, text, added);
    Settled(b, questionId, text, Applied(b, q, i), states, events, e, s');
  }

  lemma EmptyIsNoConfirmation()
    ensures !IsConfirmation("")
  {
    assert Trim("") == "" && Lower("") == "" && TrimLeft("", IsTailMark) == "";
  }

  // ---------------------------------------------------------------------------------------------
  // Closing by an edit of the body

  /** Calls that close the question; while it is open, the gate reads this criterion in the body. */
  ghost predicate AllClosing(states: seq<Issue<Board>>, events: seq<Event>, criterion: string)
    requires |events| < |states|
  {
    forall i :: 0 <= i < |events| ==> ClosesWith(states[i], events[i], criterion)
  }

  predicate ClosesWith(s: Issue<Board>, e: Event, criterion: string) {
    e.Closing? && (s.body.open.Some? ==> e.criterion == criterion)
  }

  lemma ClosingStep(b: Board, q: Question, criterion: string, s: Issue<Board>, e: Event, done: nat, s': Issue<Board>)
    requires b.open == Some(q) && Halfway(b, Recorded(b, q, criterion, false), s.body)
    requires ClosesWith(s, e, criterion) && Attempt(s, e, done, s')
    ensures Halfway(b, Recorded(b, q, criterion, false), s'.body)
    ensures done == |ScriptOf(s, e).effects| ==> s'.body == Recorded(b, q, criterion, false) && WAITING !in s'.labels
  {
    var effects, settled := ScriptOf(s, e).effects, Recorded(b, q, criterion, false);
    if s.body == b {
      assert effects == [SetBody(settled), DropLabel(WAITING)];
      if done == 1 {
        assert effects[..done] == [SetBody(settled)];
        ApplyOne(s, SetBody(settled));
      } else if done == 2 {
        assert effects[..done] == [SetBody(settled), DropLabel(WAITING)];
        ApplyTwo(s, SetBody(settled), DropLabel(WAITING));
      }
    } else if done == 1 {
      assert effects[..done] == [DropLabel(WAITING)];
      ApplyOne(s, DropLabel(WAITING));
    }
  }

  lemma {:induction false} ClosingRun(criterion: string, states: seq<Issue<Board>>, events: seq<Event>, n: nat)
    requires Run(states, events) && AllClosing(states, events, criterion) && states[0].body.open.Some? && n < |states|
    ensures var b := states[0].body; Halfway(b, Recorded(b, b.open.value, criterion, false), states[n].body)
    decreases n
  {
    if n > 0 {
      ClosingRun(criterion, states, events, n - 1);
      assert ClosesWith(states[n - 1], events[n - 1], criterion);
      var done := AttemptAt(states, events, n - 1);
      ClosingStep(states[0].body, states[0].body.open.value, criterion, states[n - 1], events[n - 1], done, states[n]);
    }
  }

  /** Closing a question answered in the body: however many attempts failed, one that gets through leaves the question decided once. */
  lemma ClosingConverges(states: seq<Issue<Board>>, events: seq<Event>, criterion: string, e: Event, s': Issue<Board>)
    requires Run(states, events) && Inv(states[0]) && AllClosing(states, events, criterion) && states[0].body.open.Some?
    requires ClosesWith(states[|events|], e, criterion) && Completed(states[|events|], e, s')
    ensures s'.body.journal == states[0].body.journal + [DecisionOn(states[0].body.open.value, criterion)]
    ensures JournalSound(s'.body.journal) && s'.body.open == None && s'.body.draft == None && WAITING !in s'.labels
  {
    var s, b := states[|events|], states[0].body;
    ClosingRun(criterion, states, events, |events|);
    var effects := ScriptOf(s, e).effects;
    assert effects[..|effects|] == effects;
    SoundAdd(b.journal, DecisionOn(b.open.value, criterion));
    ClosingStep(b, b.open.value, criterion, s, e, |effects|, s');
  }

  // ---------------------------------------------------------------------------------------------
  // Asking

  function AskCount(comments: seq<Comment>, id: string): nat {
    if comments == [] then 0
    else
      var before, c := AskCount(comments[..|comments| - 1], id), comments[|comments| - 1];
      if c.AskComment? && c.questionId == id then before + 1 else before
  }

  lemma AskCountAdd(comments: seq<Comment>, c: Comment, id: string)
    ensures AskCount(comments + [c], id) ==
      if c.AskComment? && c.questionId == id then AskCount(comments, id) + 1 else AskCount(comments, id)
  {
    assert (comments + [c])[..|comments|] == comments;
  }

  predicate IsAnnounced(s: Issue<Board>) {
    s.body.open.Some? && s.body.open.value.announced
  }

  /** Nothing of the question is in the body, or the question, or the question with its flag. */
  predicate PartlyAsked(b: Board, q: Question, t: Board) {
    t == b || t == b.(open := Some(q)) || t == Announced(b, q)
  }

  /** One attempt posts nothing and sets no flag, or posts the question once, which was not announced before. */
  ghost predicate PostsOnce(s: Issue<Board>, s': Issue<Board>, id: string) {
    || (AskCount(s'.comments, id) == AskCount(s.comments, id) && IsAnnounced(s') == IsAnnounced(s))
    || (AskCount(s'.comments, id) == AskCount(s.comments, id) + 1 && !IsAnnounced(s))
  }

  lemma ApplyFirst(s: Issue<Board>, x: Effect<Board>, more: seq<Effect<Board>>)
    ensures Apply(s, [x] + more) == Apply(Do(s, x), more)
  {
    ApplyJoin(s, [x], more);
    ApplyOne(s, x);
  }

  lemma LabelPart(s: Issue<Board>, id: string, more: seq<Effect<Board>>)
    requires more == [] || more == [AddLabel(WAITING)]
    ensures Apply(s, more).body == s.body && Apply(s, more).comments == s.comments
    ensures more != [] ==> WAITING in Apply(s, more).labels
  {
    ApplyOne(s, AddLabel(WAITING));
  }

  /** The part of the announcement and the label that an attempt made. */
  lemma AnnouncementPart(b: Board, q: Question, s: Issue<Board>, made: seq<Effect<Board>>, all: seq<Effect<Board>>)
    requires s.body == b.(open := Some(q)) && !q.announced && made <= all
    requires all == AnnounceQuestion(s.body, q).effects + LabelScript(s.labels)
    ensures var s' := Apply(s, made); PartlyAsked(b, q, s'.body) && PostsOnce(s, s', q.id)
    ensures made == all ==> IsAnnounced(Apply(s, made)) && WAITING in Apply(s, made).labels
  {
    var post, flag := Post(AskComment(q.id, q.text, q.options)), SetBody(Announced(s.body, q));
    AskCountAdd(s.comments, post.comment, q.id);
    if |made| == 0 {
      assert made == [];
    } else if |made| == 1 {
      assert made == [post];
      ApplyOne(s, post);
    } else {
      assert made == [post] + ([flag] + made[2..]);
      ApplyFirst(s, post, [flag] + made[2..]);
      ApplyFirst(Do(s, post), flag, made[2..]);
      assert made[2..] == LabelScript(s.labels) || made[2..] == [];
      LabelPart(Do(Do(s, post), flag), q.id, made[2..]);
    }
  }

  lemma AskingStep(b: Board, q: Question, s: Issue<Board>, done: nat, s': Issue<Board>)
    requires b.open == None && q == NewQuestion(b, q.kind, q.text, q.options) && PartlyAsked(b, q, s.body)
    requires Attempt(s, Asking(q.kind, q.text, q.options), done, s')
    ensures PartlyAsked(b, q, s'.body) && PostsOnce(s, s', q.id)
    ensures done == |Ask(s, q.kind, q.text, q.options).effects| ==> IsAnnounced(s') && WAITING in s'.labels
    ensures Ask(s, q.kind, q.text, q.options).end == Returns(Open(q.id))
  {
    var effects := Ask(s, q.kind, q.text, q.options).effects;
    if s.body == b {
      var t := Do(s, SetBody(b.(open := Some(q))));
      var announce := AnnounceQuestion(t.body, q).effects;
      FirstWrite(b, q, s, announce);
      if done > 0 {
        var made := effects[1..done];
        assert effects[..done] == [SetBody(t.body)] + made;
        ApplyFirst(s, SetBody(t.body), made);
        AnnouncementPart(b, q, t, made, announce + LabelScript(t.labels));
      }
    } else if s.body == b.(open := Some(q)) {
      SameLabelsAfter(s, q);
      AnnouncementPart(b, q, s, effects[..done], effects);
    } else {
      assert Asked(s.body, q.kind, q.text, q.options).effects == [];
      LabelPart(s, q.id, effects[..done]);
    }
  }

  /** Announcing a question leaves the labels alone. */
  lemma SameLabelsAfter(s: Issue<Board>, q: Question)
    ensures Apply(s, AnnounceQuestion(s.body, q).effects).labels == s.labels
  {
    ApplyTwo(s, Post(AskComment(q.id, q.text, q.options)), SetBody(Announced(s.body, q)));
  }

  /** The script of a first attempt: the question goes into the body before anything else. */
  lemma FirstWrite(b: Board, q: Question, s: Issue<Board>, announce: seq<Effect<Board>>)
    requires b.open == None && q == NewQuestion(b, q.kind, q.text, q.options) && s.body == b
    requires announce == AnnounceQuestion(b.(open := Some(q)), q).effects
    ensures Ask(s, q.kind, q.text, q.options).effects ==
      [SetBody(b.(open := Some(q)))] + (announce + LabelScript(s.labels))
    ensures Ask(s, q.kind, q.text, q.options).end == Returns(Open(q.id))
  {
    var t := Do(s, SetBody(b.(open := Some(q))));
    ApplyFirst(s, SetBody(b.(open := Some(q))), announce);
    SameLabelsAfter(t, q);
  }

  ghost predicate AllAsking(events: seq<Event>, q: Question) {
    forall i :: 0 <= i < |events| ==> events[i] == Asking(q.kind, q.text, q.options)
  }

  /** How many of the first `n` attempts posted the question without recording that they did. */
  ghost function Missed(states: seq<Issue<Board>>, id: string, n: nat): nat
    requires n < |states|
  {
    if n == 0 then 0
    else
      var posted := AskCount(states[n].comments, id) > AskCount(states[n - 1].comments, id);
      Missed(states, id, n - 1) + if posted && !IsAnnounced(states[n]) then 1 else 0
  }

  lemma AskingAt(q: Question, states: seq<Issue<Board>>, events: seq<Event>, i: nat)
    requires Run(states, events) && AllAsking(events, q) && i < |events|
    requires states[0].body.open == None && q == NewQuestion(states[0].body, q.kind, q.text, q.options)
    requires PartlyAsked(states[0].body, q, states[i].body)
    ensures PartlyAsked(states[0].body, q, states[i + 1].body) && PostsOnce(states[i], states[i + 1], q.id)
  {
    var done := AttemptAt(states, events, i);
    AskingStep(states[0].body, q, states[i], done, states[i + 1]);
  }

  /**
   * Asking again and again, from no open question: whatever the failures, the question that opens is always the same
   * one; and its comments are those of the attempts that posted it and did not record that, plus one once the flag is set.
   */
  lemma {:induction false} AskingRun(q: Question, states: seq<Issue<Board>>, events: seq<Event>, n: nat)
    requires Run(states, events) && AllAsking(events, q) && n < |states|
    requires states[0].body.open == None && q == NewQuestion(states[0].body, q.kind, q.text, q.options)
    ensures PartlyAsked(states[0].body, q, states[n].body)
    ensures AskCount(states[n].comments, q.id) ==
      AskCount(states[0].comments, q.id) + Missed(states, q.id, n) + if IsAnnounced(states[n]) then 1 else 0
    decreases n
  {
    if n > 0 {
      AskingRun(q, states, events, n - 1);
      AskingAt(q, states, events, n - 1);
    }
  }

  /** An attempt to ask that gets through leaves that question open and announced, and the waiting label on. */
  lemma AskingConverges(q: Question, states: seq<Issue<Board>>, events: seq<Event>, s': Issue<Board>)
    requires Run(states, events) && AllAsking(events, q)
    requires states[0].body.open == None && q == NewQuestion(states[0].body, q.kind, q.text, q.options)
    requires Completed(states[|events|], Asking(q.kind, q.text, q.options), s')
    ensures s'.body == Announced(states[0].body, q) && WAITING in s'.labels
    ensures ScriptOf(states[|events|], Asking(q.kind, q.text, q.options)).end == Returns(Open(q.id))
  {
    var s := states[|events|];
    AskingRun(q, states, events, |events|);
    var effects := ScriptOf(s, Asking(q.kind, q.text, q.options)).effects;
    assert effects[..|effects|] == effects;
    AskingStep(states[0].body, q, s, |effects|, s');
  }

  // ---------------------------------------------------------------------------------------------
  // Where retries do not converge

  /**
   * A question asked in place of a lost one: a retry asks again if and only if the first attempt wrote nothing; once
   * the body was written, the retry reports the command as late, and writes nothing else. So when the first attempt
   * was cut short right after the body, before its comment, the call never puts the new question to people.
   */
  lemma ReaskRetry(s: Issue<Board>, e: Event, done: nat, s': Issue<Board>)
    requires Inv(s) && s.body.open == None && e.Answering? && e.questionId != "" && !Known(s.body.journal, e.questionId)
    requires Attempt(s, e, done, s')
    ensures ScriptOf(s', e).end == Returns(Reasked) <==> done == 0
    ensures done != 0 ==> ScriptOf(s', e) == Script([Post(Outdated)], Returns(NoQuestion))
    ensures done != 0 ==> s'.body.open.Some? && s'.body.open.value.id != e.questionId
    ensures done == 1 ==> s'.comments == s.comments
  {
    var effects, q := ScriptOf(s, e).effects, Revived(s.body.journal, e.questionId);
    var b := s.body.(open := Some(q));
    RevivedFresh(s.body.journal, e.questionId);
    var t := Do(s, SetBody(b));
    assert effects == [SetBody(b)] + AnnounceAgain(b, q).effects;
    if done == 0 {
      assert effects[..done] == [];
    } else {
      var made := effects[1..done];
      assert effects[..done] == [SetBody(b)] + made;
      ApplyFirst(s, SetBody(b), made);
      AgainPart(t, q, made, AnnounceAgain(b, q).effects);
    }
  }

  /** All of it leaves the question open, announced, and the waiting label on. */
  lemma AgainAll(t: Issue<Board>, q: Question)
    requires t.body.open == Some(q)
    ensures var t' := Apply(t, AnnounceAgain(t.body, q).effects);
      t'.body == Announced(t.body, q) && WAITING in t'.labels
  {
    var x, y, z := Post(AskedAgain), SetBody(Announced(t.body, q)), AddLabel(WAITING);
    assert AnnounceAgain(t.body, q).effects == [x] + [y, z];
    ApplyFirst(t, x, [y, z]);
    ApplyTwo(Do(t, x), y, z);
  }

  /** A question asked in place of a lost one is new: its identifier is not the lost one and not in the journal. */
  lemma ReaskedIsNew(s: Issue<Board>, e: Event, s': Issue<Board>)
    requires Inv(s) && e.Answering? && ScriptOf(s, e).end == Returns(Reasked) && Completed(s, e, s')
    ensures s'.body.journal == s.body.journal && WAITING in s'.labels && s'.body.open.Some?
    ensures s'.body.open == Some(Revived(s.body.journal, e.questionId).(announced := true))
    ensures var q := s'.body.open.value; q.announced && q.id != e.questionId && Fresh(s'.body.journal, q.id)
  {
    var q := Revived(s.body.journal, e.questionId);
    var b := s.body.(open := Some(q));
    RevivedFresh(s.body.journal, e.questionId);
    assert ScriptOf(s, e).effects == [SetBody(b)] + AnnounceAgain(b, q).effects;
    ApplyFirst(s, SetBody(b), AnnounceAgain(b, q).effects);
    AgainAll(Do(s, SetBody(b)), q);
  }

  /** No part of announcing a question again changes which question is open. */
  lemma AgainPart(t: Issue<Board>, q: Question, made: seq<Effect<Board>>, all: seq<Effect<Board>>)
    requires t.body.open == Some(q) && made <= all && all == AnnounceAgain(t.body, q).effects
    ensures Apply(t, made).body.open.Some? && Apply(t, made).body.open.value.id == q.id
  {
    if made == [] {
    } else if |made| == 1 {
      assert made == [Post(AskedAgain)];
      ApplyOne(t, Post(AskedAgain));
    } else {
      assert made == [Post(AskedAgain)] + ([SetBody(Announced(t.body, q))] + made[2..]);
      ApplyFirst(t, Post(AskedAgain), [SetBody(Announced(t.body, q))] + made[2..]);
      ApplyFirst(Do(t, Post(AskedAgain)), SetBody(Announced(t.body, q)), made[2..]);
      assert made[2..] == [] || made[2..] == [AddLabel(WAITING)];
      LabelPart(Do(Do(t, Post(AskedAgain)), SetBody(Announced(t.body, q))), q.id, made[2..]);
    }
  }

  // ---------------------------------------------------------------------------------------------
  // Who confirms a draft

  /** No write touches the journal or the open question. */
  ghost predicate LeavesAlone(b: Board, effects: seq<Effect<Board>>) {
    forall k :: 0 <= k < |effects| && effects[k].SetBody? ==>
      effects[k].body.journal == b.journal && effects[k].body.open == b.open
  }

  lemma {:induction false} LeftAlone(b: Board, s: Issue<Board>, effects: seq<Effect<Board>>)
    requires LeavesAlone(b, effects) && s.body.journal == b.journal && s.body.open == b.open
    ensures Apply(s, effects).body.journal == b.journal && Apply(s, effects).body.open == b.open
    decreases |effects|
  {
    if effects != [] { LeftAlone(b, s, effects[..|effects| - 1]); }
  }

  /** The draft in the body was shown for the question under this identifier. */
  predicate HasShown(b: Board, id: string) {
    b.draft.Some? && b.draft.value.questionId == id && b.draft.value.announced
  }

  /** The body holds a draft for the question under this identifier, shown or not. */
  predicate HasDraft(b: Board, id: string) {
    b.draft.Some? && b.draft.value.questionId == id
  }

  lemma DraftingLeavesAlone(s: Issue<Board>, e: Event, q: Question)
    requires s.body.open == Some(q) && e.Answering? && e.questionId == q.id
    requires !IsChoice(Trim(e.text), |q.options|) && !(HasShown(s.body, q.id) && IsConfirmation(Trim(e.text)))
    ensures LeavesAlone(s.body, ScriptOf(s, e).effects)
  {
  }

  /**
   * An answer that neither chooses by number nor confirms decides nothing, however often it is retried and whatever
   * the model makes of it each time: a draft is never applied by retries of the call that made it.
   */
  lemma {:induction false} DraftingNeverDecides(states: seq<Issue<Board>>, events: seq<Event>, q: Question, text: string, n: nat)
    requires Run(states, events) && AllSameAnswer(events, q.id, text) && n < |states| && states[0].body.open == Some(q)
    requires !IsChoice(Trim(text), |q.options|) && !IsConfirmation(Trim(text))
    ensures states[n].body.journal == states[0].body.journal && states[n].body.open == Some(q)
    decreases n
  {
    if n > 0 {
      DraftingNeverDecides(states, events, q, text, n - 1);
      DraftingAt(states, events, q, text, n - 1);
    }
  }

  lemma DraftingAt(states: seq<Issue<Board>>, events: seq<Event>, q: Question, text: string, i: nat)
    requires Run(states, events) && AllSameAnswer(events, q.id, text) && i < |events| && states[i].body.open == Some(q)
    requires !IsChoice(Trim(text), |q.options|) && !IsConfirmation(Trim(text))
    ensures states[i + 1].body.journal == states[i].body.journal && states[i + 1].body.open == Some(q)
  {
    assert SameAnswer(events[i], q.id, text);
    var done := AttemptAt(states, events, i);
    DraftingStep(states[i], events[i], q, done, states[i + 1]);
  }

  lemma DraftingStep(s: Issue<Board>, e: Event, q: Question, done: nat, s': Issue<Board>)
    requires s.body.open == Some(q) && e.Answering? && e.questionId == q.id && Attempt(s, e, done, s')
    requires !IsChoice(Trim(e.text), |q.options|) && !IsConfirmation(Trim(e.text))
    ensures s'.body.journal == s.body.journal && s'.body.open == Some(q)
  {
    DraftingLeavesAlone(s, e, q);
    LeftAlone(s.body, s, ScriptOf(s, e).effects[..done]);
  }

  /** A first free answer that gets through leaves its draft, announced. */
  lemma DraftingCompleted(s: Issue<Board>, e: Event, q: Question, s': Issue<Board>)
    requires s.body.open == Some(q) && e.Answering? && e.questionId == q.id && Trim(e.text) != ""
    requires !IsChoice(Trim(e.text), |q.options|) && (s.body.draft.Some? ==> s.body.draft.value.questionId != q.id)
    requires e.reply.Understood? && Sound(e.reply.interpretation, s.body.journal) && Completed(s, e, s')
    ensures s'.body == s.body.(draft := Some(Pending(q.id, e.reply.interpretation, true)))
  {
    var p := Pending(q.id, e.reply.interpretation, false);
    var b := s.body.(draft := Some(p));
    var post, flag := AnnounceDraft(b, p).effects[0], AnnounceDraft(b, p).effects[1];
    assert ScriptOf(s, e).effects == [SetBody(b)] + [post, flag];
    ApplyFirst(s, SetBody(b), [post, flag]);
    ApplyTwo(Do(s, SetBody(b)), post, flag);
  }

  /** Whatever a free answer says and whatever the model would make of it, a draft not shown yet is shown in its place. */
  lemma HiddenDraftIntercepts(s: Issue<Board>, e: Event, q: Question)
    requires s.body.open == Some(q) && e.Answering? && e.questionId == q.id
    requires Trim(e.text) != "" && !IsChoice(Trim(e.text), |q.options|)
    requires HasDraft(s.body, q.id) && !s.body.draft.value.announced
    ensures ScriptOf(s, e) == AnnounceDraft(s.body, s.body.draft.value)
  {
  }

  lemma HiddenShown(s: Issue<Board>, e: Event, q: Question, s': Issue<Board>)
    requires s.body.open == Some(q) && e.Answering? && e.questionId == q.id
    requires Trim(e.text) != "" && !IsChoice(Trim(e.text), |q.options|)
    requires HasDraft(s.body, q.id) && !s.body.draft.value.announced && Completed(s, e, s')
    ensures s'.body == s.body.(draft := Some(s.body.draft.value.(announced := true)))
  {
    HiddenDraftIntercepts(s, e, q);
    var script := AnnounceDraft(s.body, s.body.draft.value);
    ApplyTwo(s, script.effects[0], script.effects[1]);
  }

  /** A confirmation leaves no question open, and the one it decided in the journal. */
  lemma ConfirmedLeaves(s: Issue<Board>, e: Event, q: Question, s': Issue<Board>, added: seq<Decision>)
    requires s.body.open == Some(q) && HasShown(s.body, q.id) && e.Answering? && e.questionId == q.id
    requires IsConfirmation(Trim(e.text)) && !IsChoice(Trim(e.text), |q.options|) && Completed(s, e, s')
    requires s'.body.journal == s.body.journal + added && OnList(s.body.journal, added, q, s.body.draft.value.interpretation)
    ensures s'.body.open == None && Known(s'.body.journal, q.id)
  {
    EmptyIsNoConfirmation();
    var applied := Applied(s.body, q, s.body.draft.value.interpretation);
    assert ScriptOf(s, e).effects == [SetBody(applied), DropLabel(WAITING)];
    ApplyTwo(s, SetBody(applied), DropLabel(WAITING));
    assert s'.body.journal[|s.body.journal|] == added[0];
  }

  /** An answer to a question that is decided changes nothing but the label. */
  lemma DecidedStays(s: Issue<Board>, e: Event, q: Question, s': Issue<Board>)
    requires s.body.open == None && Known(s.body.journal, q.id) && q.id != "" && e.Answering? && e.questionId == q.id
    requires Completed(s, e, s')
    ensures s'.body == s.body
  {
    ApplyOne(s, DropLabel(WAITING));
  }

  /** A word of confirmation that got through, and then again. */
  lemma ConfirmedTwice(s: Issue<Board>, e: Event, q: Question, s': Issue<Board>, again: Event, s'': Issue<Board>)
    requires Inv(s) && s.body.open == Some(q) && e.Answering? && e.questionId == q.id
    requires !IsChoice(Trim(e.text), |q.options|) && IsConfirmation(Trim(e.text)) && HasShown(s.body, q.id)
    requires Completed(s, e, s') && SameAnswer(again, q.id, e.text) && Completed(s', again, s'')
    ensures |s''.body.journal| > |s.body.journal|
  {
    var added := OwnDraftApplied(s, e, q, s.body.draft.value.interpretation, s');
    ConfirmedLeaves(s, e, q, s', added);
    NamedId(q.id, q.kind);
    DecidedStays(s', again, q, s'');
  }

  /** An answer that is no confirmation, twice. */
  lemma DraftedTwice(s: Issue<Board>, e: Event, q: Question, s': Issue<Board>, again: Event, s'': Issue<Board>)
    requires s.body.open == Some(q) && e.Answering? && e.questionId == q.id
    requires !IsChoice(Trim(e.text), |q.options|) && !IsConfirmation(Trim(e.text))
    requires Completed(s, e, s') && SameAnswer(again, q.id, e.text) && Completed(s', again, s'')
    ensures s''.body.journal == s.body.journal
  {
    DraftingLeavesAlone(s, e, q);
    LeftAlone(s.body, s, ScriptOf(s, e).effects);
    DraftingLeavesAlone(s', again, q);
    LeftAlone(s'.body, s', ScriptOf(s', again).effects);
  }

  /** The draft of the question after a word of confirmation that met none that was shown: the hidden one, or the new one. */
  lemma ShownNow(s: Issue<Board>, e: Event, q: Question, s': Issue<Board>) returns (i: Interpretation)
    requires Inv(s) && s.body.open == Some(q) && e.Answering? && e.questionId == q.id && Trim(e.text) != ""
    requires !IsChoice(Trim(e.text), |q.options|) && !HasShown(s.body, q.id) && Completed(s, e, s')
    requires HasDraft(s.body, q.id) || (e.reply.Understood? && Sound(e.reply.interpretation, s.body.journal))
    ensures s'.body == s.body.(draft := Some(Pending(q.id, i, true))) && Sound(i, s.body.journal)
  {
    if HasDraft(s.body, q.id) {
      i := s.body.draft.value.interpretation;
      HiddenShown(s, e, q, s');
    } else {
      i := e.reply.interpretation;
      DraftingCompleted(s, e, q, s');
    }
  }

  /**
   * The exact condition: when a free answer that meets a draft of its question, shown or not, or leads to one, got
   * through (only its report was lost, say), and a retry of the same call too, the question is decided if and only if
   * the text is a word of confirmation. Unless a draft was shown before, the call then confirms what it showed itself.
   */
  lemma RetryConfirmsItselfIff(s: Issue<Board>, e: Event, q: Question, s': Issue<Board>, again: Event, s'': Issue<Board>)
    requires Inv(s) && s.body.open == Some(q) && e.Answering? && e.questionId == q.id && Trim(e.text) != ""
    requires !IsChoice(Trim(e.text), |q.options|) && Completed(s, e, s')
    requires HasDraft(s.body, q.id) || (e.reply.Understood? && Sound(e.reply.interpretation, s.body.journal))
    requires SameAnswer(again, q.id, e.text) && Completed(s', again, s'')
    ensures s''.body.journal != s.body.journal <==> IsConfirmation(Trim(e.text))
  {
    if !IsConfirmation(Trim(e.text)) {
      DraftedTwice(s, e, q, s', again, s'');
    } else if HasShown(s.body, q.id) {
      ConfirmedTwice(s, e, q, s', again, s'');
    } else {
      var i := ShownNow(s, e, q, s');
      var added := OwnDraftApplied(s', again, q, i, s'');
      assert |s''.body.journal| == |s.body.journal| + |added|;
    }
  }

  /** A shown draft, confirmed. */
  lemma OwnDraftApplied(s: Issue<Board>, e: Event, q: Question, i: Interpretation, s': Issue<Board>) returns (added: seq<Decision>)
    requires JournalSound(s.body.journal) && IdOf(q.id, q.kind) && Fresh(s.body.journal, q.id)
    requires s.body.open == Some(q) && s.body.draft == Some(Pending(q.id, i, true))
    requires e.Answering? && e.questionId == q.id && IsConfirmation(Trim(e.text)) && !IsChoice(Trim(e.text), |q.options|)
    requires Sound(i, s.body.journal) && Completed(s, e, s')
    ensures s'.body.journal == s.body.journal + added && OnList(s.body.journal, added, q, i)
  {
    EmptyIsNoConfirmation();
    var applied := Applied(s.body, q, i);
    assert ScriptOf(s, e).effects == [SetBody(applied), DropLabel(WAITING)];
    ApplyTwo(s, SetBody(applied), DropLabel(WAITING));
    added := AppliedAdds(s.body, q, i);
  }

  /** Such a word: a first answer of one affirmative word is one that its own retry confirms. */
  lemma YesConfirms()
    ensures IsConfirmation(Trim("yes")) && !IsChoice(Trim("yes"), 9999)
  {
    assert TrimLeft("yes", IsSpace) == "yes" && TrimRight("yes", IsSpace) == "yes";
    assert Lower("yes") == "yes" by {
      assert Lower("s") == "s" && Lower("es") == "es";
    }
    assert TrimLeft("yes", IsTailMark) == "yes" && TrimRight("yes", IsTailMark) == "yes";
    assert !IsDigit("yes"[0]);
  }
}
