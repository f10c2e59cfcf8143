/** What a retry of a call meets when the call raised: the same body, and so, with the same reply, the same exception. */
module Retries {
  import opened Progress
  import opened Protocol
  import opened TextRuns

  lemma ScriptClean(s: Issue<string>, e: TextEvent)
    requires !e.Edits?
    ensures RaisesClean(TextScript(s, e))
  {
    match e
    case Asks(kind, text, options) => AskClean(s, kind, text, options);
    case Answers(questionId, text, commentId, reply) => AnswerClean(s, questionId, text, commentId, reply);
    case Closes(section) => CloseClean(s, section);
  }

  /**
   * On any body: a call that raises leaves the body as it was, however far it got, so that a retry with the same
   * arguments, of which the model makes the same, raises the same.
   */
  lemma RaisesAgain(s: Issue<string>, e: TextEvent, done: nat, s': Issue<string>)
    requires TextAttempt(s, e, done, s') && TextScript(s, e).end.Raises?
    ensures s'.body == s.body && TextScript(s', e).end == TextScript(s, e).end
  {
    ScriptClean(s, e);
    NoBodyApplied(s, TextScript(s, e).effects[..done]);
    SameEnd(s, s', e);
  }

  /** How a call ends depends on the body alone. */
  lemma SameEnd(s: Issue<string>, s': Issue<string>, e: TextEvent)
    requires !e.Edits? && s'.body == s.body
    ensures TextScript(s', e).end == TextScript(s, e).end
  {
  }
}
