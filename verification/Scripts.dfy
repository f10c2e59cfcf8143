/** What each activity writes, in order, and how it ends, with the records kept in the text of the body. */
module Scripts {
  import opened Blocks
  import opened Bodies
  import opened Chars
  import opened Criterion
  import opened Journal
  import opened Protocol
  import opened Records
  import opened Texts

  // ---------------------------------------------------------------------------------------------
  // Asking

  function AnnounceQuestionScript(body: string, q: Question): Script<string> {
    var post := Post(AskComment(q.id, q.text, q.options));
    match MarkAnnounced(body, q)
    case Err(e) => Script([post], Raises(e))
    case Ok(b) => Script([post, SetBody(b)], Returns(Open(q.id)))
  }

  function CreateScript(body: string, q: Question): Script<string> {
    match WriteOpen(body, q)
    case Err(e) => Script([], Raises(e))
    case Ok(b) => After([SetBody(b)], AnnounceQuestionScript(b, q))
  }

  /** The question put into the body, unless it is there, and announced, unless it was. */
  function AskedScript(body: string, kind: string, text: string, options: seq<string>): Script<string> {
    match ReadOpen(body)
    case Some(q) =>
      if q.kind != kind then Script([], Raises(ConflictingQuestion))
      else if q.announced then Script([], Returns(Open(q.id)))
      else AnnounceQuestionScript(body, q)
    case None =>
      CreateScript(body, Question(NextId(ReadJournal(body), kind), kind, text, options, false))
  }

  function AskScript(s: Issue<string>, kind: string, text: string, options: seq<string>): Script<string> {
    var asked := AskedScript(s.body, kind, text, options);
    if asked.end.Raises? then asked
    else Script(asked.effects + LabelScript(Apply(s, asked.effects).labels), asked.end)
  }

  // ---------------------------------------------------------------------------------------------
  // Recording a decision

  function PlaceBody(body: string, kind: string, answer: string): Result<string> {
    if kind == "howtodemo" then Write(body, HowToDemo, answer) else Ok(body)
  }

  function RecordedBody(body: string, q: Question, answer: string, place: bool): Result<string> {
    var appended :- AppendDecision(body, DecisionOn(q, answer));
    var placed :- if place then PlaceBody(appended, q.kind, answer) else Ok(appended);
    var closed :- ClearOpen(placed);
    Ok(ClearDraft(closed))
  }

  /** One write of the body, then the label goes. */
  function SettleScript(body: Result<string>, verdict: Verdict): Script<string> {
    match body
    case Err(e) => Script([], Raises(e))
    case Ok(b) => Script([SetBody(b), DropLabel(WAITING)], Returns(verdict))
  }

  // ---------------------------------------------------------------------------------------------
  // Answering in free text

  function AnnounceDraftScript(body: string, draft: Draft, i: Interpretation): Script<string> {
    var post := Post(Shown(draft.questionId, i, ReadJournal(body)));
    match MarkDraftAnnounced(body, draft)
    case Err(e) => Script([post], Raises(e))
    case Ok(b) => Script([post, SetBody(b)], Returns(Confirm))
  }

  function DraftScript(body: string, q: Question, reply: Reply): Script<string> {
    if reply.Understood? && Sound(reply.interpretation, ReadJournal(body)) then
      var draft := Draft(q.id, Dump(reply.interpretation), false);
      match WriteDraft(body, draft)
      case Err(e) => Script([], Raises(e))
      case Ok(b) => After([SetBody(b)], AnnounceDraftScript(b, draft, reply.interpretation))
    else Script([Post(NotUnderstood)], Returns(Confirm))
  }

  function AmendBody(body: string, a: Amendment): Result<string> {
    match FirstUnder(ReadJournal(body), a.questionId)
    case None => Ok(body)
    case Some(previous) =>
      var appended :- AppendDecision(body, AmendedDecision(ReadJournal(body), previous, a));
      PlaceBody(appended, previous.kind, a.answer)
  }

  function AmendAllBody(body: string, list: seq<Amendment>): Result<string> {
    if list == [] then Ok(body)
    else
      var before :- AmendAllBody(body, list[..|list| - 1]);
      AmendBody(before, list[|list| - 1])
  }

  function AppliedBody(body: string, q: Question, i: Interpretation): Result<string> {
    var appended :- AppendDecision(ClearDraft(body), DecisionOn(q, i.answer));
    var placed :- PlaceBody(appended, q.kind, i.answer);
    var amended :- AmendAllBody(placed, i.amendments);
    ClearOpen(amended)
  }

  function ConfirmScript(body: string, q: Question, answer: string, reply: Reply): Script<string> {
    match ReadDraft(body)
    case Some(pending) =>
      if pending.questionId == q.id && pending.announced && IsConfirmation(answer) then
        match Load(pending.interpretation)
        case None => Script([], Raises(InvalidInterpretation))
        case Some(i) => SettleScript(AppliedBody(body, q, i), Accepted)
      else if pending.questionId == q.id && !pending.announced then
        match Load(pending.interpretation)
        case None => Script([], Raises(InvalidInterpretation))
        case Some(i) => AnnounceDraftScript(body, pending, i)
      else DraftScript(body, q, reply)
    case None => DraftScript(body, q, reply)
  }

  // ---------------------------------------------------------------------------------------------
  // Answering

  function AnnounceAgainScript(body: string, q: Question): Script<string> {
    match MarkAnnounced(body, q)
    case Err(e) => Script([Post(AskedAgain)], Raises(e))
    case Ok(b) => Script([Post(AskedAgain), SetBody(b), AddLabel(WAITING)], Returns(Reasked))
  }

  function ReaskScript(body: string, questionId: string): Script<string> {
    var q := Revived(ReadJournal(body), questionId);
    match WriteOpen(body, q)
    case Err(e) => Script([], Raises(e))
    case Ok(b) => After([SetBody(b)], AnnounceAgainScript(b, q))
  }

  /** An answer when no question is open. */
  function UnaskedScript(body: string, questionId: string): Script<string> {
    if questionId == "" then Script([Post(NothingAsked)], Returns(NoQuestion))
    else if Known(ReadJournal(body), questionId) then Script([DropLabel(WAITING)], Returns(Accepted))
    else ReaskScript(body, questionId)
  }

  /** An answer to the question that is open. */
  function OpenScript(body: string, q: Question, answer: string, commentId: Option<int>, reply: Reply): Script<string> {
    if answer == "" then EmptyScript(commentId)
    else if IsChoice(answer, |q.options|) then
      SettleScript(RecordedBody(body, q, q.options[Number(answer) - 1], true), Accepted)
    else ConfirmScript(body, q, answer, reply)
  }

  function AnswerScript(s: Issue<string>, questionId: string, text: string, commentId: Option<int>, reply: Reply): Script<string> {
    match ReadOpen(s.body)
    case None => UnaskedScript(s.body, questionId)
    case Some(q) =>
      if q.id != questionId then Script([Post(Outdated)], Returns(NoQuestion))
      else OpenScript(s.body, q, Trim(text), commentId, reply)
  }

  // ---------------------------------------------------------------------------------------------
  // Closing a question answered by an edit of the body

  function CloseScript(s: Issue<string>, section: string -> string): Script<string> {
    match ReadOpen(s.body)
    case None => Script(if WAITING in s.labels then [DropLabel(WAITING)] else [], Returns(Closed))
    case Some(q) => SettleScript(RecordedBody(s.body, q, ReadCriterion(s.body, section), false), Closed)
  }
}
