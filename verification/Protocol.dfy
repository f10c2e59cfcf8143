/**
 * The question/answer protocol of an issue: what each activity writes, in order, and how it ends.
 * Here the body is a board of records, so that nothing depends on how they are kept in text;
 * module Scripts says the same of the text, and module Refinement joins the two.
 */
module Protocol {
  import opened Chars
  import opened Journal
  import opened Records
  import opened Texts

  /** A comment, by what it shows; `was` are the answers an interpretation replaces. */
  datatype Comment =
    | AskComment(questionId: string, text: string, options: seq<string>)
    | ShownComment(questionId: string, interpretation: Interpretation, was: seq<string>)
    | NothingAsked
    | Outdated
    | AskedAgain
    | NotUnderstood
    | Other(text: string)

  /** What the host keeps of an issue. Labels are compared without case, so they stand here in small letters. */
  datatype Issue<B> = Issue(body: B, comments: seq<Comment>, labels: set<string>, reactions: seq<(int, string)>)

  /** One remote write. */
  datatype Effect<B> =
    | SetBody(body: B)
    | Post(comment: Comment)
    | AddLabel(name: string)
    | DropLabel(name: string)
    | React(commentId: int, reaction: string)

  function Do<B>(s: Issue<B>, e: Effect<B>): Issue<B> {
    match e
    case SetBody(body) => s.(body := body)
    case Post(comment) => s.(comments := s.comments + [comment])
    case AddLabel(name) => s.(labels := s.labels + {name})
    case DropLabel(name) => s.(labels := s.labels - {name})
    case React(commentId, reaction) => s.(reactions := s.reactions + [(commentId, reaction)])
  }

  function Apply<B>(s: Issue<B>, effects: seq<Effect<B>>): Issue<B> {
    if effects == [] then s else Do(Apply(s, effects[..|effects| - 1]), effects[|effects| - 1])
  }

  lemma {:induction false} ApplyJoin<B>(s: Issue<B>, a: seq<Effect<B>>, b: seq<Effect<B>>)
    ensures Apply(s, a + b) == Apply(Apply(s, a), b)
    decreases |b|
  {
    if b == [] {
      assert a + b == a;
    } else {
      var n := |b| - 1;
      ApplyJoin(s, a, b[..n]);
      assert (a + b)[..|a| + n] == a + b[..n];
    }
  }

  datatype Verdict = Open(questionId: string) | Accepted | Confirm | Empty | NoQuestion | Reasked | Closed

  datatype End = Returns(verdict: Verdict) | Raises(error: Failure)

  /** The writes of an activity that no call fails, and its end. A failed attempt has made some first part of them. */
  datatype Script<B> = Script(effects: seq<Effect<B>>, end: End)

  /** Some writes, then another script. */
  function After<B>(effects: seq<Effect<B>>, next: Script<B>): Script<B> {
    Script(effects + next.effects, next.end)
  }

  const WAITING := "needs-human:answer"

  function LabelScript<B>(labels: set<string>): seq<Effect<B>> {
    if WAITING in labels then [] else [AddLabel(WAITING)]
  }

  // ---------------------------------------------------------------------------------------------
  // What is decided from records alone

  function DecisionOn(q: Question, answer: string): Decision {
    Decision(q.id, q.kind, q.text, answer, "")
  }

  /** What the language model made of an answer. */
  datatype Reply = Refused | Understood(interpretation: Interpretation)

  /** An interpretation that decides the question and amends only decisions that exist. */
  predicate Sound(i: Interpretation, journal: seq<Decision>) {
    Trim(i.answer) != "" && forall k :: 0 <= k < |i.amendments| ==> Known(journal, i.amendments[k].questionId)
  }

  predicate Known(journal: seq<Decision>, id: string) {
    exists k :: 0 <= k < |journal| && journal[k].questionId == id
  }

  /** The answer on record under an identifier, as the comment with an interpretation shows it. */
  function WasAnswer(journal: seq<Decision>, id: string): string {
    var k := LastIndex(journal, id);
    if k < 0 then "—" else journal[k].answer
  }

  function Shown(q: string, i: Interpretation, journal: seq<Decision>): Comment {
    ShownComment(q, i, seq(|i.amendments|, k requires 0 <= k < |i.amendments| =>
      WasAnswer(journal, i.amendments[k].questionId)))
  }

  const CONFIRMATIONS: set<string> :=
    {"да", "ага", "угу", "yes", "y", "ок", "окей", "ok", "okay", "подтверждаю", "верно", "точно", "согласен", "согласна", "+"}

  predicate IsTailMark(c: char) {
    c == ' ' || c == '\t' || c == '.' || c == '!' || c == '?' || c == ',' || c == ';' || c == ':'
  }

  predicate IsConfirmation(answer: string) {
    TrimRight(TrimLeft(Lower(Trim(answer)), IsTailMark), IsTailMark) in CONFIRMATIONS
  }

  /** The first entry of the journal under an identifier. */
  function FirstUnder(journal: seq<Decision>, id: string): Option<Decision> {
    if journal == [] then None
    else if journal[0].questionId == id then Some(journal[0])
    else FirstUnder(journal[1..], id)
  }

  /** The decision an amendment adds to the journal. */
  function AmendedDecision(journal: seq<Decision>, previous: Decision, a: Amendment): Decision {
    Decision(NextId(journal, previous.kind), previous.kind, previous.question, a.answer, a.questionId)
  }

  /** The answer is the number of one of `n` options. */
  predicate IsChoice(answer: string, n: nat) {
    answer != "" && AllDigits(answer) && |answer| <= 4 && 1 <= Number(answer) <= n
  }

  function LastHyphen(s: string): (k: int)
    ensures -1 <= k < |s|
  {
    if s == "" then -1 else if s[|s| - 1] == '-' then |s| - 1 else LastHyphen(s[..|s| - 1])
  }

  /** The kind of question an identifier speaks of: all before its last hyphen. */
  function KindOf(id: string): string {
    var k := LastHyphen(id);
    var kind := if k < 0 then id else id[..k];
    if kind == "" then "answer" else kind
  }

  const LOST_QUESTION := "Вопрос пропал из тела задачи — прежние варианты недействительны."

  /** The question asked in place of one whose block is gone. */
  function Revived(journal: seq<Decision>, questionId: string): Question {
    var kind := KindOf(questionId);
    Question(NextId(journal + [Decision(questionId, kind, "", "", "")], kind), kind,
             LOST_QUESTION, [], false)
  }

  /** A command without an answer gets two reactions, not a comment. */
  function EmptyScript<B>(commentId: Option<int>): Script<B> {
    Script(if commentId.Some? then [React(commentId.value, "confused"), React(commentId.value, "-1")] else [],
           Returns(Empty))
  }

  // ---------------------------------------------------------------------------------------------
  // The board

  datatype Pending = Pending(questionId: string, interpretation: Interpretation, announced: bool)

  /** The records of a body; `criterion` is the content of the criterion block. */
  datatype Board = Board(journal: seq<Decision>, open: Option<Question>, draft: Option<Pending>, criterion: Option<string>)

  function Announced(b: Board, q: Question): Board {
    b.(open := Some(q.(announced := true)))
  }

  function AnnounceQuestion(b: Board, q: Question): Script<Board> {
    Script([Post(AskComment(q.id, q.text, q.options)), SetBody(Announced(b, q))], Returns(Open(q.id)))
  }

  function NewQuestion(b: Board, kind: string, text: string, options: seq<string>): Question {
    Question(NextId(b.journal, kind), kind, text, options, false)
  }

  function Asked(b: Board, kind: string, text: string, options: seq<string>): Script<Board> {
    match b.open
    case Some(q) =>
      if q.kind != kind then Script([], Raises(ConflictingQuestion))
      else if q.announced then Script([], Returns(Open(q.id)))
      else AnnounceQuestion(b, q)
    case None =>
      var q := NewQuestion(b, kind, text, options);
      After([SetBody(b.(open := Some(q)))], AnnounceQuestion(b.(open := Some(q)), q))
  }

  function Ask(s: Issue<Board>, kind: string, text: string, options: seq<string>): Script<Board> {
    var asked := Asked(s.body, kind, text, options);
    if asked.end.Raises? then asked
    else Script(asked.effects + LabelScript(Apply(s, asked.effects).labels), asked.end)
  }

  /** A decision added, without a place in a block of its own. */
  function Append(b: Board, d: Decision): Board {
    b.(journal := b.journal + [d])
  }

  function Place(b: Board, kind: string, answer: string): Board {
    if kind == "howtodemo" then b.(criterion := Some(answer)) else b
  }

  function Recorded(b: Board, q: Question, answer: string, place: bool): Board {
    var appended := Append(b, DecisionOn(q, answer));
    (if place then Place(appended, q.kind, answer) else appended).(open := None, draft := None)
  }

  /** One write of the body, then the label goes. */
  function Settle(b: Board, verdict: Verdict): Script<Board> {
    Script([SetBody(b), DropLabel(WAITING)], Returns(verdict))
  }

  function AnnounceDraft(b: Board, p: Pending): Script<Board> {
    Script([Post(Shown(p.questionId, p.interpretation, b.journal)), SetBody(b.(draft := Some(p.(announced := true))))],
           Returns(Confirm))
  }

  function Drafted(b: Board, q: Question, reply: Reply): Script<Board> {
    if reply.Understood? && Sound(reply.interpretation, b.journal) then
      var p := Pending(q.id, reply.interpretation, false);
      After([SetBody(b.(draft := Some(p)))], AnnounceDraft(b.(draft := Some(p)), p))
    else Script([Post(NotUnderstood)], Returns(Confirm))
  }

  function Amend(b: Board, a: Amendment): Board {
    match FirstUnder(b.journal, a.questionId)
    case None => b
    case Some(previous) => Place(Append(b, AmendedDecision(b.journal, previous, a)), previous.kind, a.answer)
  }

  function AmendAll(b: Board, list: seq<Amendment>): Board {
    if list == [] then b else Amend(AmendAll(b, list[..|list| - 1]), list[|list| - 1])
  }

  function Applied(b: Board, q: Question, i: Interpretation): Board {
    AmendAll(Place(Append(b.(draft := None), DecisionOn(q, i.answer)), q.kind, i.answer), i.amendments).(open := None)
  }

  function ConfirmText(b: Board, q: Question, answer: string, reply: Reply): Script<Board> {
    match b.draft
    case Some(p) =>
      if p.questionId == q.id && p.announced && IsConfirmation(answer) then
        Settle(Applied(b, q, p.interpretation), Accepted)
      else if p.questionId == q.id && !p.announced then AnnounceDraft(b, p)
      else Drafted(b, q, reply)
    case None => Drafted(b, q, reply)
  }

  function AnnounceAgain(b: Board, q: Question): Script<Board> {
    Script([Post(AskedAgain), SetBody(Announced(b, q)), AddLabel(WAITING)], Returns(Reasked))
  }

  function Reask(b: Board, questionId: string): Script<Board> {
    var q := Revived(b.journal, questionId);
    After([SetBody(b.(open := Some(q)))], AnnounceAgain(b.(open := Some(q)), q))
  }

  function AnswerUnasked(b: Board, questionId: string): Script<Board> {
    if questionId == "" then Script([Post(NothingAsked)], Returns(NoQuestion))
    else if Known(b.journal, questionId) then Script([DropLabel(WAITING)], Returns(Accepted))
    else Reask(b, questionId)
  }

  function AnswerOpen(b: Board, q: Question, answer: string, commentId: Option<int>, reply: Reply): Script<Board> {
    if answer == "" then EmptyScript(commentId)
    else if IsChoice(answer, |q.options|) then
      Settle(Recorded(b, q, q.options[Number(answer) - 1], true), Accepted)
    else ConfirmText(b, q, answer, reply)
  }

  function Answer(s: Issue<Board>, questionId: string, text: string, commentId: Option<int>, reply: Reply): Script<Board> {
    match s.body.open
    case None => AnswerUnasked(s.body, questionId)
    case Some(q) =>
      if q.id != questionId then Script([Post(Outdated)], Returns(NoQuestion))
      else AnswerOpen(s.body, q, Trim(text), commentId, reply)
  }

  /** `criterion` is what the gate read in the body. */
  function Close(s: Issue<Board>, criterion: string): Script<Board> {
    match s.body.open
    case None => Script(if WAITING in s.labels then [DropLabel(WAITING)] else [], Returns(Closed))
    case Some(q) => Settle(Recorded(s.body, q, criterion, false), Closed)
  }
}
