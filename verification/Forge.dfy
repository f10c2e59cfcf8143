/**
 * The host of an issue and the activities that work on it, one remote call after another. Any call may fail,
 * before it took effect or after. Each activity is tied to its script: an attempt makes some first part of the
 * script's writes, and all of them when it ends by itself.
 */
module Forge {
  import opened Bodies
  import opened Chars
  import opened Criterion
  import opened Journal
  import opened Protocol
  import opened Records
  import opened Scripts
  import opened Texts

  /** What becomes of one remote call. */
  datatype Fault = Works | FailsBefore | FailsAfter

  /** How an attempt ends: by itself, or lost to a failed call. */
  datatype Outcome = Ended(end: End) | Lost

  ghost predicate Quiet(faults: seq<Fault>) {
    forall i :: 0 <= i < |faults| ==> faults[i] == Works
  }

  /** A call that was to have effect `e` took it, or failed without it. */
  ghost predicate Took(s: Issue<string>, e: Effect<string>, s': Issue<string>, ok: bool) {
    s' == Do(s, e) || (!ok && s' == s)
  }

  /** The first `done` writes of the script were made; if the attempt ended by itself, all were. */
  ghost predicate Attempted(s: Issue<string>, script: Script<string>, s': Issue<string>, r: Outcome, done: nat) {
    && done <= |script.effects|
    && s' == Apply(s, script.effects[..done])
    && (r.Ended? ==> done == |script.effects| && r.end == script.end)
  }

  lemma Progress(s: Issue<string>, effects: seq<Effect<string>>, k: nat, s1: Issue<string>, e: Effect<string>, s2: Issue<string>, ok: bool) returns (k': nat)
    requires k < |effects| && effects[k] == e && s1 == Apply(s, effects[..k]) && Took(s1, e, s2, ok)
    ensures k <= k' <= k + 1 && s2 == Apply(s, effects[..k']) && (ok ==> k' == k + 1)
  {
    assert effects[..k + 1][..k] == effects[..k];
    k' := if s2 == Do(s1, e) then k + 1 else k;
  }

  /** An attempt that goes on after some writes already made. */
  lemma Continued(s: Issue<string>, first: seq<Effect<string>>, s1: Issue<string>, next: Script<string>, s2: Issue<string>, r: Outcome, done: nat)
    requires s1 == Apply(s, first) && Attempted(s1, next, s2, r, done)
    ensures Attempted(s, After(first, next), s2, r, |first| + done)
  {
    ApplyJoin(s, first, next.effects[..done]);
    assert (first + next.effects)[..|first| + done] == first + next.effects[..done];
  }

  /** An attempt cut short after some of its first writes. */
  lemma CutShort(s: Issue<string>, first: seq<Effect<string>>, next: Script<string>, s': Issue<string>, done: nat)
    requires done <= |first| && s' == Apply(s, first[..done])
    ensures Attempted(s, After(first, next), s', Lost, done)
  {
    assert (first + next.effects)[..done] == first[..done];
  }

  /** One write, made or not. */
  lemma OneWrite(s: Issue<string>, e: Effect<string>, s': Issue<string>, ok: bool) returns (done: nat)
    requires Took(s, e, s', ok)
    ensures done <= 1 && s' == Apply(s, [e][..done]) && (ok ==> done == 1)
  {
    done := Progress(s, [e], 0, s, e, s', ok);
  }

  class Forge {
    var body: string
    var comments: seq<Comment>
    var labels: set<string>
    var reactions: seq<(int, string)>
    var faults: seq<Fault>  // what becomes of the calls to come; past its end they work
    ghost var seen: seq<set<string>>  // the labels after each call that may change them

    constructor (body: string, comments: seq<Comment>, labels: set<string>, faults: seq<Fault>)
      ensures Snapshot() == Issue(body, comments, labels, []) && this.faults == faults
    {
      this.body, this.comments, this.labels, this.reactions, this.faults := body, comments, labels, [], faults;
      this.seen := [];
    }

    ghost function Snapshot(): Issue<string>
      reads this
    {
      Issue(body, comments, labels, reactions)
    }

    method NextFault() returns (f: Fault)
      modifies `faults
      ensures Quiet(old(faults)) ==> f == Works && Quiet(faults)
    {
      if faults == [] {
        f := Works;
      } else {
        f := faults[0];
        faults := faults[1..];
      }
    }

    method GetIssueBody() returns (r: Option<string>)
      modifies `faults
      ensures r.Some? ==> r.value == body
      ensures Quiet(old(faults)) ==> r.Some? && Quiet(faults)
    {
      var f := NextFault();
      r := if f == Works then Some(body) else None;
    }

    method GetLabels() returns (r: Option<set<string>>)
      modifies `faults
      ensures r.Some? ==> r.value == labels
      ensures Quiet(old(faults)) ==> r.Some? && Quiet(faults)
    {
      var f := NextFault();
      r := if f == Works then Some(labels) else None;
    }

    method UpdateIssueBody(b: string) returns (ok: bool)
      modifies this
      ensures Took(old(Snapshot()), SetBody(b), Snapshot(), ok)
      ensures Quiet(old(faults)) ==> ok && Quiet(faults)
    {
      var f := NextFault();
      if f != FailsBefore { body := b; }
      ok := f == Works;
    }

    method PostComment(c: Comment) returns (ok: bool)
      modifies this
      ensures Took(old(Snapshot()), Post(c), Snapshot(), ok)
      ensures Quiet(old(faults)) ==> ok && Quiet(faults)
    {
      var f := NextFault();
      if f != FailsBefore { comments := comments + [c]; }
      ok := f == Works;
    }

    method PutLabel(name: string) returns (ok: bool)
      modifies this
      ensures Took(old(Snapshot()), AddLabel(name), Snapshot(), ok) && seen == old(seen) + [labels]
      ensures Quiet(old(faults)) ==> ok && Quiet(faults)
    {
      var f := NextFault();
      if f != FailsBefore { labels := labels + {name}; }
      seen := seen + [labels];
      ok := f == Works;
    }

    method PostLabels(names: set<string>) returns (ok: bool, ghost posted: bool)
      modifies this
      ensures Snapshot() == old(Snapshot()).(labels := if posted then old(labels) + names else old(labels))
      ensures ok ==> posted
      ensures seen == old(seen) + [labels]
      ensures Quiet(old(faults)) ==> ok && Quiet(faults)
    {
      var f := NextFault();
      posted := f != FailsBefore;
      if f != FailsBefore { labels := labels + names; }
      seen := seen + [labels];
      ok := f == Works;
    }

    method RemoveLabel(name: string) returns (ok: bool)
      modifies this
      ensures Took(old(Snapshot()), DropLabel(name), Snapshot(), ok) && seen == old(seen) + [labels]
      ensures Quiet(old(faults)) ==> ok && Quiet(faults)
    {
      var f := NextFault();
      if f != FailsBefore { labels := labels - {name}; }
      seen := seen + [labels];
      ok := f == Works;
    }

    method AddReaction(commentId: int, reaction: string) returns (ok: bool)
      modifies this
      ensures Took(old(Snapshot()), React(commentId, reaction), Snapshot(), ok)
      ensures Quiet(old(faults)) ==> ok && Quiet(faults)
    {
      var f := NextFault();
      if f != FailsBefore { reactions := reactions + [(commentId, reaction)]; }
      ok := f == Works;
    }

    /** Posts the comment with the question, then notes in the body that it was posted. */
    method PostQuestion(body: string, q: Question) returns (r: Outcome, ghost done: nat)
      modifies this
      ensures Attempted(old(Snapshot()), AnnounceQuestionScript(body, q), Snapshot(), r, done)
      ensures Quiet(old(faults)) ==> r.Ended? && Quiet(faults)
    {
      ghost var s, script := Snapshot(), AnnounceQuestionScript(body, q);
      var comment := AskComment(q.id, q.text, q.options);
      var ok := PostComment(comment);
      done := Progress(s, script.effects, 0, s, Post(comment), Snapshot(), ok);
      if !ok { return Lost, done; }
      var marked := MarkAnnounced(body, q);
      if marked.Err? { return Ended(Raises(marked.error)), done; }
      ghost var before := Snapshot();
      ok := UpdateIssueBody(marked.value);
      done := Progress(s, script.effects, done, before, SetBody(marked.value), Snapshot(), ok);
      r := if ok then Ended(Returns(Open(q.id))) else Lost;
    }

    method WriteQuestion(body: string, q: Question) returns (r: Outcome, ghost done: nat)
      modifies this
      ensures Attempted(old(Snapshot()), CreateScript(body, q), Snapshot(), r, done)
      ensures Quiet(old(faults)) ==> r.Ended? && Quiet(faults)
    {
      var written := WriteOpen(body, q);
      if written.Err? { return Ended(Raises(written.error)), 0; }
      ghost var s, next, first := Snapshot(), AnnounceQuestionScript(written.value, q), [SetBody(written.value)];
      assert first[..1] == first;
      var ok := UpdateIssueBody(written.value);
      done := OneWrite(s, first[0], Snapshot(), ok);
      if !ok {
        CutShort(s, first, next, Snapshot(), done);
        return Lost, done;
      }
      ghost var s1 := Snapshot();
      r, done := PostQuestion(written.value, q);
      Continued(s, first, s1, next, Snapshot(), r, done);
      done := done + 1;
    }

    /** Finds the question in the body, or creates it there, and announces it unless that was done. */
    method PlaceQuestion(kind: string, text: string, options: seq<string>) returns (r: Outcome, ghost done: nat)
      modifies this
      ensures Attempted(old(Snapshot()), AskedScript(old(Snapshot()).body, kind, text, options), Snapshot(), r, done)
      ensures Quiet(old(faults)) ==> r.Ended? && Quiet(faults)
    {
      var got := GetIssueBody();
      if got.None? { return Lost, 0; }
      var body := got.value;
      var open := ReadOpen(body);
      if open.None? {
        var id := NextQuestionId(ReadJournal(body), kind);
        r, done := WriteQuestion(body, Question(id, kind, text, options, false));
      } else if open.value.kind != kind {
        return Ended(Raises(ConflictingQuestion)), 0;
      } else if open.value.announced {
        return Ended(Returns(Open(open.value.id))), 0;
      } else {
        r, done := PostQuestion(body, open.value);
      }
    }

    method AskQuestion(kind: string, text: string, options: seq<string>) returns (r: Outcome, ghost done: nat)
      modifies this
      ensures Attempted(old(Snapshot()), AskScript(old(Snapshot()), kind, text, options), Snapshot(), r, done)
      ensures Quiet(old(faults)) ==> r.Ended?
    {
      ghost var s, asked := Snapshot(), AskedScript(body, kind, text, options);
      r, done := PlaceQuestion(kind, text, options);
      if r.Ended? && r.end.Raises? { return; }
      ghost var s1 := Snapshot();
      ghost var script := AskScript(s, kind, text, options);
      assert script.effects[..done] == asked.effects[..done] || asked.end.Raises?;
      if r.Lost? { return; }
      var current := GetLabels();
      if current.None? { return Lost, done; }
      if WAITING !in current.value {
        var ok := PutLabel(WAITING);
        assert asked.effects[..done] == asked.effects;
        done := Progress(s, script.effects, done, s1, AddLabel(WAITING), Snapshot(), ok);
        if !ok { return Lost, done; }
      }
    }

    /** Writes the body in one call, then takes the waiting label off. */
    method SettleBody(b: string, verdict: Verdict) returns (r: Outcome, ghost done: nat)
      modifies this
      ensures Attempted(old(Snapshot()), SettleScript(Ok(b), verdict), Snapshot(), r, done)
      ensures Quiet(old(faults)) ==> r.Ended?
    {
      ghost var s, script := Snapshot(), SettleScript(Ok(b), verdict);
      var ok := UpdateIssueBody(b);
      done := Progress(s, script.effects, 0, s, SetBody(b), Snapshot(), ok);
      if !ok { return Lost, done; }
      ghost var before := Snapshot();
      ok := RemoveLabel(WAITING);
      done := Progress(s, script.effects, done, before, DropLabel(WAITING), Snapshot(), ok);
      r := if ok then Ended(Returns(verdict)) else Lost;
    }

    method RecordDecision(body: string, q: Question, answer: string, place: bool, verdict: Verdict)
      returns (r: Outcome, ghost done: nat)
      modifies this
      ensures Attempted(old(Snapshot()), SettleScript(RecordedBody(body, q, answer, place), verdict), Snapshot(), r, done)
      ensures Quiet(old(faults)) ==> r.Ended?
    {
      r, done := Lost, 0;
      var b := AppendDecision(body, DecisionOn(q, answer));
      if b.Ok? && place { b := PlaceBody(b.value, q.kind, answer); }
      if b.Ok? { b := ClearOpen(b.value); }
      if b.Err? { return Ended(Raises(b.error)), 0; }
      r, done := SettleBody(ClearDraft(b.value), verdict);
    }

    method PostDraft(body: string, draft: Draft, i: Interpretation) returns (r: Outcome, ghost done: nat)
      modifies this
      ensures Attempted(old(Snapshot()), AnnounceDraftScript(body, draft, i), Snapshot(), r, done)
      ensures Quiet(old(faults)) ==> r.Ended?
    {
      ghost var s, script := Snapshot(), AnnounceDraftScript(body, draft, i);
      var comment := Shown(draft.questionId, i, ReadJournal(body));
      var ok := PostComment(comment);
      done := Progress(s, script.effects, 0, s, Post(comment), Snapshot(), ok);
      if !ok { return Lost, done; }
      var marked := MarkDraftAnnounced(body, draft);
      if marked.Err? { return Ended(Raises(marked.error)), done; }
      ghost var before := Snapshot();
      ok := UpdateIssueBody(marked.value);
      done := Progress(s, script.effects, done, before, SetBody(marked.value), Snapshot(), ok);
      r := if ok then Ended(Returns(Confirm)) else Lost;
    }

    /** Writes the body with the draft, then posts the draft. */
    method KeepDraft(b: string, draft: Draft, i: Interpretation) returns (r: Outcome, ghost done: nat)
      modifies this
      ensures Attempted(old(Snapshot()), After([SetBody(b)], AnnounceDraftScript(b, draft, i)), Snapshot(), r, done)
      ensures Quiet(old(faults)) ==> r.Ended?
    {
      ghost var s, next, first := Snapshot(), AnnounceDraftScript(b, draft, i), [SetBody(b)];
      assert first[..1] == first;
      var ok := UpdateIssueBody(b);
      done := OneWrite(s, first[0], Snapshot(), ok);
      if !ok {
        CutShort(s, first, next, Snapshot(), done);
        return Lost, done;
      }
      ghost var s1 := Snapshot();
      r, done := PostDraft(b, draft, i);
      Continued(s, first, s1, next, Snapshot(), r, done);
      done := done + 1;
    }

    method NewDraft(body: string, q: Question, i: Interpretation) returns (r: Outcome, ghost done: nat)
      requires Sound(i, ReadJournal(body))
      modifies this
      ensures Attempted(old(Snapshot()), DraftScript(body, q, Understood(i)), Snapshot(), r, done)
      ensures Quiet(old(faults)) ==> r.Ended?
    {
      var draft := Draft(q.id, Dump(i), false);
      var written := WriteDraft(body, draft);
      if written.Err? { return Ended(Raises(written.error)), 0; }
      r, done := KeepDraft(written.value, draft, i);
    }

    method ApplyInterpretation(body: string, q: Question, i: Interpretation) returns (r: Outcome, ghost done: nat)
      modifies this
      ensures Attempted(old(Snapshot()), SettleScript(AppliedBody(body, q, i), Accepted), Snapshot(), r, done)
      ensures Quiet(old(faults)) ==> r.Ended?
    {
      r, done := Lost, 0;
      var b := AppendDecision(ClearDraft(body), DecisionOn(q, i.answer));
      if b.Ok? { b := PlaceBody(b.value, q.kind, i.answer); }
      if b.Ok? { b := Amended(b.value, i.amendments); }
      if b.Ok? { b := ClearOpen(b.value); }
      if b.Err? { return Ended(Raises(b.error)), 0; }
      r, done := SettleBody(b.value, Accepted);
    }

    method ConfirmFreeText(body: string, q: Question, answer: string, reply: Reply) returns (r: Outcome, ghost done: nat)
      modifies this
      ensures Attempted(old(Snapshot()), ConfirmScript(body, q, answer, reply), Snapshot(), r, done)
      ensures Quiet(old(faults)) ==> r.Ended?
    {
      var pending := ReadDraft(body);
      if pending.Some? && pending.value.questionId == q.id {
        if !pending.value.announced || IsConfirmation(answer) {
          var i := Load(pending.value.interpretation);
          if i.None? { return Ended(Raises(InvalidInterpretation)), 0; }
          if pending.value.announced {
            r, done := ApplyInterpretation(body, q, i.value);
          } else {
            r, done := PostDraft(body, pending.value, i.value);
          }
          return;
        }
      }
      if reply.Understood? && Sound(reply.interpretation, ReadJournal(body)) {
        r, done := NewDraft(body, q, reply.interpretation);
      } else {
        ghost var s := Snapshot();
        var ok := PostComment(NotUnderstood);
        done := OneWrite(s, Post(NotUnderstood), Snapshot(), ok);
        r := if ok then Ended(Returns(Confirm)) else Lost;
      }
    }

    method PostAgain(body: string, q: Question) returns (r: Outcome, ghost done: nat)
      modifies this
      ensures Attempted(old(Snapshot()), AnnounceAgainScript(body, q), Snapshot(), r, done)
      ensures Quiet(old(faults)) ==> r.Ended?
    {
      ghost var s, script := Snapshot(), AnnounceAgainScript(body, q);
      var ok := PostComment(AskedAgain);
      done := Progress(s, script.effects, 0, s, Post(AskedAgain), Snapshot(), ok);
      if !ok { return Lost, done; }
      var marked := MarkAnnounced(body, q);
      if marked.Err? { return Ended(Raises(marked.error)), done; }
      ghost var before := Snapshot();
      ok := UpdateIssueBody(marked.value);
      done := Progress(s, script.effects, done, before, SetBody(marked.value), Snapshot(), ok);
      if !ok { return Lost, done; }
      before := Snapshot();
      ok := PutLabel(WAITING);
      done := Progress(s, script.effects, done, before, AddLabel(WAITING), Snapshot(), ok);
      r := if ok then Ended(Returns(Reasked)) else Lost;
    }

    method ReplaceQuestion(body: string, questionId: string) returns (r: Outcome, ghost done: nat)
      modifies this
      ensures Attempted(old(Snapshot()), ReaskScript(body, questionId), Snapshot(), r, done)
      ensures Quiet(old(faults)) ==> r.Ended?
    {
      var q := Revived(ReadJournal(body), questionId);
      var written := WriteOpen(body, q);
      if written.Err? { return Ended(Raises(written.error)), 0; }
      ghost var s, next, first := Snapshot(), AnnounceAgainScript(written.value, q), [SetBody(written.value)];
      assert first[..1] == first;
      var ok := UpdateIssueBody(written.value);
      done := OneWrite(s, first[0], Snapshot(), ok);
      if !ok {
        CutShort(s, first, next, Snapshot(), done);
        return Lost, done;
      }
      ghost var s1 := Snapshot();
      r, done := PostAgain(written.value, q);
      Continued(s, first, s1, next, Snapshot(), r, done);
      done := done + 1;
    }

    method Tell(c: Comment, verdict: Verdict) returns (r: Outcome, ghost done: nat)
      modifies this
      ensures Attempted(old(Snapshot()), Script([Post(c)], Returns(verdict)), Snapshot(), r, done)
      ensures Quiet(old(faults)) ==> r.Ended?
    {
      ghost var s := Snapshot();
      var ok := PostComment(c);
      done := OneWrite(s, Post(c), Snapshot(), ok);
      r := if ok then Ended(Returns(verdict)) else Lost;
    }

    method Unlabel(verdict: Verdict) returns (r: Outcome, ghost done: nat)
      modifies this
      ensures Attempted(old(Snapshot()), Script([DropLabel(WAITING)], Returns(verdict)), Snapshot(), r, done)
      ensures Quiet(old(faults)) ==> r.Ended?
    {
      ghost var s := Snapshot();
      var ok := RemoveLabel(WAITING);
      done := OneWrite(s, DropLabel(WAITING), Snapshot(), ok);
      r := if ok then Ended(Returns(verdict)) else Lost;
    }

    method Shrug(commentId: Option<int>) returns (r: Outcome, ghost done: nat)
      modifies this
      ensures Attempted(old(Snapshot()), EmptyScript(commentId), Snapshot(), r, done)
      ensures Quiet(old(faults)) ==> r.Ended?
    {
      r, done := Ended(Returns(Empty)), 0;
      if commentId.Some? {
        ghost var s, script := Snapshot(), EmptyScript(commentId);
        var ok := AddReaction(commentId.value, "confused");
        done := Progress(s, script.effects, 0, s, React(commentId.value, "confused"), Snapshot(), ok);
        if !ok { return Lost, done; }
        ghost var before := Snapshot();
        ok := AddReaction(commentId.value, "-1");
        done := Progress(s, script.effects, done, before, React(commentId.value, "-1"), Snapshot(), ok);
        if !ok { return Lost, done; }
      }
    }

    method AnswerWhenNone(body: string, questionId: string) returns (r: Outcome, ghost done: nat)
      modifies this
      ensures Attempted(old(Snapshot()), UnaskedScript(body, questionId), Snapshot(), r, done)
      ensures Quiet(old(faults)) ==> r.Ended?
    {
      if questionId == "" {
        r, done := Tell(NothingAsked, NoQuestion);
      } else if Known(ReadJournal(body), questionId) {
        r, done := Unlabel(Accepted);
      } else {
        r, done := ReplaceQuestion(body, questionId);
      }
    }

    method AnswerToOpen(body: string, q: Question, answer: string, commentId: Option<int>, reply: Reply)
      returns (r: Outcome, ghost done: nat)
      modifies this
      ensures Attempted(old(Snapshot()), OpenScript(body, q, answer, commentId, reply), Snapshot(), r, done)
      ensures Quiet(old(faults)) ==> r.Ended?
    {
      if answer == "" {
        r, done := Shrug(commentId);
      } else if IsChoice(answer, |q.options|) {
        r, done := RecordDecision(body, q, q.options[Number(answer) - 1], true, Accepted);
      } else {
        r, done := ConfirmFreeText(body, q, answer, reply);
      }
    }

    /** `reply` is what the language model would make of the answer, should it be asked. */
    method AnswerQuestion(questionId: string, text: string, commentId: Option<int>, reply: Reply)
      returns (r: Outcome, ghost done: nat)
      modifies this
      ensures Attempted(old(Snapshot()), AnswerScript(old(Snapshot()), questionId, text, commentId, reply), Snapshot(), r, done)
      ensures Quiet(old(faults)) ==> r.Ended?
    {
      var got := GetIssueBody();
      if got.None? { return Lost, 0; }
      var open := ReadOpen(got.value);
      if open.None? {
        r, done := AnswerWhenNone(got.value, questionId);
      } else if open.value.id != questionId {
        r, done := Tell(Outdated, NoQuestion);
      } else {
        r, done := AnswerToOpen(got.value, open.value, Trim(text), commentId, reply);
      }
    }

    /** The identifier of the question open now, or the empty text. */
    method ReadOpenQuestionId() returns (r: Option<string>)
      modifies `faults
      ensures r.Some? ==> r.value == if ReadOpen(body).Some? then ReadOpen(body).value.id else ""
      ensures Quiet(old(faults)) ==> r.Some? && Quiet(faults)
    {
      var got := GetIssueBody();
      if got.None? { return None; }
      var open := ReadOpen(got.value);
      r := Some(if open.Some? then open.value.id else "");
    }

    /** `section` is the search for a criterion under a heading. */
    method CloseAnsweredByBodyEdit(section: string -> string) returns (r: Outcome, ghost done: nat)
      modifies this
      ensures Attempted(old(Snapshot()), CloseScript(old(Snapshot()), section), Snapshot(), r, done)
      ensures Quiet(old(faults)) ==> r.Ended?
    {
      var got := GetIssueBody();
      if got.None? { return Lost, 0; }
      var body := got.value;
      var open := ReadOpen(body);
      if open.Some? {
        r, done := RecordDecision(body, open.value, ReadCriterion(body, section), false, Closed);
        return;
      }
      var current := GetLabels();
      if current.None? { return Lost, 0; }
      if WAITING in current.value {
        r, done := Unlabel(Closed);
      } else {
        return Ended(Returns(Closed)), 0;
      }
    }
  }

  /** Adds the amendments to the body in turn; one that names no decision is passed over. */
  method Amended(body: string, list: seq<Amendment>) returns (r: Result<string>)
    ensures r == AmendAllBody(body, list)
  {
    r := Ok(body);
    for i := 0 to |list|
      invariant r == AmendAllBody(body, list[..i])
    {
      assert list[..i + 1][..i] == list[..i];
      if r.Ok? { r := AmendStep(r.value, list[i]); }
    }
    assert list[..|list|] == list;
  }

  method AmendStep(body: string, a: Amendment) returns (r: Result<string>)
    ensures r == AmendBody(body, a)
  {
    var journal := ReadJournal(body);
    var previous := FirstUnder(journal, a.questionId);
    if previous.None? { return Ok(body); }
    var id := NextQuestionId(journal, previous.value.kind);
    r := AppendDecision(body, Decision(id, previous.value.kind, previous.value.question, a.answer, a.questionId));
    if r.Ok? { r := PlaceBody(r.value, previous.value.kind, a.answer); }
  }
}
