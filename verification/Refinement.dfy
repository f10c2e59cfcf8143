/** The scripts over text do to the records what the scripts over the board say, as far as they get. */
module Refinement {
  import opened Blocks
  import opened Bodies
  import opened Chars
  import opened Criterion
  import opened Records
  import opened Texts

  import P = Protocol
  import opened Scripts
  import opened Protocol

  /** The draft is one the code wrote: an interpretation that decides the question, kept as it is dumped. */
  predicate DraftFits(d: Option<Draft>) {
    d.Some? ==> Load(d.value.interpretation).Some? && d.value.interpretation == Dump(Load(d.value.interpretation).value)
  }

  /** A good body whose draft, if any, is one the code wrote. */
  ghost predicate Fit(body: string) {
    Good(body) && DraftFits(ReadDraft(body))
  }

  function PendingOf(d: Option<Draft>): Option<Pending>
    requires DraftFits(d)
  {
    match d
    case None => None
    case Some(draft) => Some(Pending(draft.questionId, Load(draft.interpretation).value, draft.announced))
  }

  /** The records of a fit body. */
  ghost function View(body: string): Board
    requires Fit(body)
  {
    Board(ReadJournal(body), ReadOpen(body), PendingOf(ReadDraft(body)), Slot(body, HowToDemo))
  }

  /** The body is fit and holds these records. */
  ghost predicate Shows(body: string, b: Board) {
    Fit(body) && View(body) == b
  }

  lemma ShowsOpen(body: string, b: Board, q: Question)
    requires Shows(body, b) && WriteOpen(body, q).Ok?
    ensures Shows(WriteOpen(body, q).value, b.(open := Some(q)))
  {
    WriteOpenGood(body, q);
  }

  lemma ShowsNone(body: string, b: Board)
    requires Shows(body, b)
    ensures ClearOpen(body).Ok? && Shows(ClearOpen(body).value, b.(open := None))
  {
    ClearOpenGood(body);
  }

  lemma ShowsNoDraft(body: string, b: Board)
    requires Shows(body, b)
    ensures Shows(ClearDraft(body), b.(draft := None))
  {
    ClearDraftGood(body);
  }

  lemma ShowsAppended(body: string, b: Board, d: Decision)
    requires Shows(body, b) && AppendDecision(body, d).Ok?
    ensures Shows(AppendDecision(body, d).value, Append(b, d))
  {
    AppendDecisionGood(body, d);
  }

  lemma ShowsPlaced(body: string, b: Board, kind: string, answer: string)
    requires Shows(body, b) && PlaceBody(body, kind, answer).Ok?
    ensures Shows(PlaceBody(body, kind, answer).value, Place(b, kind, answer))
  {
    if kind == "howtodemo" { PlaceGood(body, answer); }
  }

  lemma ShowsDraft(body: string, b: Board, id: string, i: Interpretation, announced: bool)
    requires Shows(body, b) && Trim(i.answer) != "" && WriteDraft(body, Draft(id, Dump(i), announced)).Ok?
    ensures Shows(WriteDraft(body, Draft(id, Dump(i), announced)).value, b.(draft := Some(Pending(id, i, announced))))
  {
    DumpLoad(i);
    WriteDraftGood(body, Draft(id, Dump(i), announced));
  }

  // ---------------------------------------------------------------------------------------------
  // Scripts

  ghost predicate Mirrors(e: Effect<string>, f: Effect<Board>) {
    match e
    case SetBody(body) => f.SetBody? && Shows(body, f.body)
    case Post(comment) => f == Post(comment)
    case AddLabel(name) => f == AddLabel(name)
    case DropLabel(name) => f == DropLabel(name)
    case React(commentId, reaction) => f == React(commentId, reaction)
  }

  /** The writes mirror the first writes of the other script, and all of them unless an exception is raised. */
  ghost predicate Refines(script: Script<string>, abs: Script<Board>) {
    && |script.effects| <= |abs.effects|
    && (forall k :: 0 <= k < |script.effects| ==> Mirrors(script.effects[k], abs.effects[k]))
    && (script.end.Returns? ==> |script.effects| == |abs.effects| && script.end == abs.end)
  }

  lemma RefinesAfter(body: string, b: Board, next: Script<string>, abs: Script<Board>)
    requires Shows(body, b) && Refines(next, abs)
    ensures Refines(After([SetBody(body)], next), After([SetBody(b)], abs))
  {
  }

  /** A comment posted, then the body written or refused. */
  lemma PostedRefines(c: Comment, body: Result<string>, b: Board, verdict: Verdict)
    requires body.Ok? ==> Shows(body.value, b)
    ensures Refines(match body case Err(e) => Script([Post(c)], Raises(e)) case Ok(x) => Script([Post(c), SetBody(x)], Returns(verdict)),
                    Script([Post(c), SetBody(b)], Returns(verdict)))
  {
  }

  lemma AnnounceQuestionRefines(body: string, b: Board, q: Question)
    requires Shows(body, b)
    ensures Refines(AnnounceQuestionScript(body, q), P.AnnounceQuestion(b, q))
  {
    if MarkAnnounced(body, q).Ok? { ShowsOpen(body, b, q.(announced := true)); }
    PostedRefines(AskComment(q.id, q.text, q.options), MarkAnnounced(body, q), Announced(b, q), Open(q.id));
  }

  lemma CreateRefines(body: string, b: Board, q: Question)
    requires Shows(body, b)
    ensures Refines(CreateScript(body, q), After([SetBody(b.(open := Some(q)))], P.AnnounceQuestion(b.(open := Some(q)), q)))
  {
    if WriteOpen(body, q).Ok? {
      ShowsOpen(body, b, q);
      AnnounceQuestionRefines(WriteOpen(body, q).value, b.(open := Some(q)), q);
      RefinesAfter(WriteOpen(body, q).value, b.(open := Some(q)),
        AnnounceQuestionScript(WriteOpen(body, q).value, q), P.AnnounceQuestion(b.(open := Some(q)), q));
    }
  }

  lemma AskedRefines(body: string, b: Board, kind: string, text: string, options: seq<string>)
    requires Shows(body, b)
    ensures Refines(AskedScript(body, kind, text, options), P.Asked(b, kind, text, options))
  {
    if b.open.Some? {
      AnnounceQuestionRefines(body, b, b.open.value);
    } else {
      CreateRefines(body, b, NewQuestion(b, kind, text, options));
    }
  }

  lemma SettleRefines(body: Result<string>, b: Board, verdict: Verdict)
    requires body.Ok? ==> Shows(body.value, b)
    ensures Refines(SettleScript(body, verdict), P.Settle(b, verdict))
  {
  }

  lemma RecordedShows(body: string, b: Board, q: Question, answer: string, place: bool)
    requires Shows(body, b) && RecordedBody(body, q, answer, place).Ok?
    ensures Shows(RecordedBody(body, q, answer, place).value, P.Recorded(b, q, answer, place))
  {
    var d := DecisionOn(q, answer);
    ShowsAppended(body, b, d);
    var appended := AppendDecision(body, d).value;
    if place { ShowsPlaced(appended, Append(b, d), q.kind, answer); }
    var placed := if place then PlaceBody(appended, q.kind, answer).value else appended;
    var board := if place then P.Place(Append(b, d), q.kind, answer) else Append(b, d);
    ShowsNone(placed, board);
    ShowsNoDraft(ClearOpen(placed).value, board.(open := None));
  }

  lemma AnnounceDraftRefines(body: string, b: Board, d: Draft, i: Interpretation)
    requires Shows(body, b) && d.interpretation == Dump(i) && Trim(i.answer) != ""
    ensures Refines(AnnounceDraftScript(body, d, i), P.AnnounceDraft(b, Pending(d.questionId, i, d.announced)))
  {
    var p := Pending(d.questionId, i, true);
    if MarkDraftAnnounced(body, d).Ok? { ShowsDraft(body, b, d.questionId, i, true); }
    PostedRefines(Shown(d.questionId, i, b.journal), MarkDraftAnnounced(body, d), b.(draft := Some(p)), Confirm);
  }

  lemma DraftRefines(body: string, b: Board, q: Question, reply: Reply)
    requires Shows(body, b)
    ensures Refines(DraftScript(body, q, reply), P.Drafted(b, q, reply))
  {
    if reply.Understood? && Sound(reply.interpretation, b.journal) {
      var i := reply.interpretation;
      var draft, board := Draft(q.id, Dump(i), false), b.(draft := Some(Pending(q.id, i, false)));
      if WriteDraft(body, draft).Ok? {
        ShowsDraft(body, b, q.id, i, false);
        AnnounceDraftRefines(WriteDraft(body, draft).value, board, draft, i);
        RefinesAfter(WriteDraft(body, draft).value, board,
          AnnounceDraftScript(WriteDraft(body, draft).value, draft, i), P.AnnounceDraft(board, Pending(q.id, i, false)));
      }
    }
  }

  lemma AmendShows(body: string, b: Board, a: Amendment)
    requires Shows(body, b) && AmendBody(body, a).Ok?
    ensures Shows(AmendBody(body, a).value, P.Amend(b, a))
  {
    var previous := FirstUnder(b.journal, a.questionId);
    if previous.Some? {
      var d := AmendedDecision(b.journal, previous.value, a);
      ShowsAppended(body, b, d);
      ShowsPlaced(AppendDecision(body, d).value, Append(b, d), previous.value.kind, a.answer);
    }
  }

  lemma {:induction false} AmendAllShows(body: string, b: Board, list: seq<Amendment>)
    requires Shows(body, b) && AmendAllBody(body, list).Ok?
    ensures Shows(AmendAllBody(body, list).value, P.AmendAll(b, list))
    decreases |list|
  {
    if list != [] {
      var n := |list| - 1;
      AmendAllShows(body, b, list[..n]);
      AmendShows(AmendAllBody(body, list[..n]).value, P.AmendAll(b, list[..n]), list[n]);
    }
  }

  lemma AppliedShows(body: string, b: Board, q: Question, i: Interpretation)
    requires Shows(body, b) && AppliedBody(body, q, i).Ok?
    ensures Shows(AppliedBody(body, q, i).value, P.Applied(b, q, i))
  {
    var d, cleared, board := DecisionOn(q, i.answer), ClearDraft(body), b.(draft := None);
    ShowsNoDraft(body, b);
    ShowsAppended(cleared, board, d);
    var appended := AppendDecision(cleared, d).value;
    ShowsPlaced(appended, Append(board, d), q.kind, i.answer);
    var placed, placedBoard := PlaceBody(appended, q.kind, i.answer).value, P.Place(Append(board, d), q.kind, i.answer);
    AmendAllShows(placed, placedBoard, i.amendments);
    ShowsNone(AmendAllBody(placed, i.amendments).value, P.AmendAll(placedBoard, i.amendments));
  }

  lemma ConfirmRefines(body: string, b: Board, q: Question, answer: string, reply: Reply)
    requires Shows(body, b)
    ensures Refines(ConfirmScript(body, q, answer, reply), P.ConfirmText(b, q, answer, reply))
  {
    DraftRefines(body, b, q, reply);
    if b.draft.Some? {
      var d, i := ReadDraft(body).value, b.draft.value.interpretation;
      DumpLoad(i);
      AnnounceDraftRefines(body, b, d, i);
      AppliedRefines(body, b, q, i);
      ConfirmCases(body, b, d, i, q, answer, reply);
    }
  }

  lemma AppliedRefines(body: string, b: Board, q: Question, i: Interpretation)
    requires Shows(body, b)
    ensures Refines(SettleScript(AppliedBody(body, q, i), Accepted), P.Settle(P.Applied(b, q, i), Accepted))
  {
    if AppliedBody(body, q, i).Ok? { AppliedShows(body, b, q, i); }
    SettleRefines(AppliedBody(body, q, i), P.Applied(b, q, i), Accepted);
  }

  /** A free answer with a draft in the body is a confirmation, an announcement or a new draft. */
  lemma ConfirmCases(body: string, b: Board, d: Draft, i: Interpretation, q: Question, answer: string, reply: Reply)
    requires ReadDraft(body) == Some(d) && Load(d.interpretation) == Some(i) && b.draft == Some(Pending(d.questionId, i, d.announced))
    requires Refines(SettleScript(AppliedBody(body, q, i), Accepted), P.Settle(P.Applied(b, q, i), Accepted))
    requires Refines(AnnounceDraftScript(body, d, i), P.AnnounceDraft(b, Pending(d.questionId, i, d.announced)))
    requires Refines(DraftScript(body, q, reply), P.Drafted(b, q, reply))
    ensures Refines(ConfirmScript(body, q, answer, reply), P.ConfirmText(b, q, answer, reply))
  {
  }

  lemma AgainRefines(body: Result<string>, b: Board)
    requires body.Ok? ==> Shows(body.value, b)
    ensures Refines(match body
                    case Err(e) => Script([Post(AskedAgain)], Raises(e))
                    case Ok(x) => Script([Post(AskedAgain), SetBody(x), AddLabel(WAITING)], Returns(Reasked)),
                    Script([Post(AskedAgain), SetBody(b), AddLabel(WAITING)], Returns(Reasked)))
  {
  }

  lemma AnnounceAgainRefines(body: string, b: Board, q: Question)
    requires Shows(body, b)
    ensures Refines(AnnounceAgainScript(body, q), P.AnnounceAgain(b, q))
  {
    if MarkAnnounced(body, q).Ok? { ShowsOpen(body, b, q.(announced := true)); }
    AgainRefines(MarkAnnounced(body, q), Announced(b, q));
  }

  lemma ReaskRefines(body: string, b: Board, questionId: string)
    requires Shows(body, b)
    ensures Refines(ReaskScript(body, questionId), P.Reask(b, questionId))
  {
    var q := Revived(b.journal, questionId);
    var board := b.(open := Some(q));
    if WriteOpen(body, q).Ok? {
      ShowsOpen(body, b, q);
      AnnounceAgainRefines(WriteOpen(body, q).value, board, q);
      RefinesAfter(WriteOpen(body, q).value, board,
        AnnounceAgainScript(WriteOpen(body, q).value, q), P.AnnounceAgain(board, q));
    }
  }

  lemma ChoiceRefines(body: string, b: Board, q: Question, answer: string, place: bool, verdict: Verdict)
    requires Shows(body, b)
    ensures Refines(SettleScript(RecordedBody(body, q, answer, place), verdict), P.Settle(P.Recorded(b, q, answer, place), verdict))
  {
    if RecordedBody(body, q, answer, place).Ok? { RecordedShows(body, b, q, answer, place); }
    SettleRefines(RecordedBody(body, q, answer, place), P.Recorded(b, q, answer, place), verdict);
  }

  lemma EmptyRefines(commentId: Option<int>)
    ensures Refines(EmptyScript(commentId), EmptyScript(commentId))
  {
  }

  /** Posting one comment, or taking one label off. */
  lemma SingleRefines(c: Comment, name: string, verdict: Verdict)
    ensures Refines(Script([Post(c)], Returns(verdict)), Script([Post(c)], Returns(verdict)))
    ensures Refines(Script([DropLabel(name)], Returns(verdict)), Script([DropLabel(name)], Returns(verdict)))
    ensures Refines(Script([], Returns(verdict)), Script([], Returns(verdict)))
  {
  }

  lemma OpenRefines(body: string, b: Board, q: Question, answer: string, commentId: Option<int>, reply: Reply)
    requires Shows(body, b)
    ensures Refines(OpenScript(body, q, answer, commentId, reply), P.AnswerOpen(b, q, answer, commentId, reply))
  {
    if answer == "" {
      EmptyRefines(commentId);
    } else if IsChoice(answer, |q.options|) {
      ChoiceRefines(body, b, q, q.options[Number(answer) - 1], true, Accepted);
    } else {
      ConfirmRefines(body, b, q, answer, reply);
    }
  }

  lemma UnaskedRefines(body: string, b: Board, questionId: string)
    requires Shows(body, b)
    ensures Refines(UnaskedScript(body, questionId), P.AnswerUnasked(b, questionId))
  {
    if questionId == "" {
      SingleRefines(NothingAsked, WAITING, NoQuestion);
    } else if Known(b.journal, questionId) {
      SingleRefines(NothingAsked, WAITING, Accepted);
    } else {
      ReaskRefines(body, b, questionId);
    }
  }

  // ---------------------------------------------------------------------------------------------
  // Issues

  /** The issue seen on the board. */
  ghost function OnBoard(s: Issue<string>): Issue<Board>
    requires Fit(s.body)
  {
    Issue(View(s.body), s.comments, s.labels, s.reactions)
  }

  lemma {:induction false} MirroredApply(s: Issue<string>, effects: seq<Effect<string>>, mirrored: seq<Effect<Board>>)
    requires Fit(s.body) && |effects| == |mirrored|
    requires forall k :: 0 <= k < |effects| ==> Mirrors(effects[k], mirrored[k])
    ensures Fit(Apply(s, effects).body) && OnBoard(Apply(s, effects)) == Apply(OnBoard(s), mirrored)
    decreases |effects|
  {
    if effects != [] {
      var n := |effects| - 1;
      MirroredApply(s, effects[..n], mirrored[..n]);
      assert Mirrors(effects[n], mirrored[n]);
    }
  }

  /** Whatever first part of a refining script was made, the board shows the same part of the other script. */
  lemma RefinedApply(s: Issue<string>, script: Script<string>, abs: Script<Board>, done: nat)
    requires Fit(s.body) && Refines(script, abs) && done <= |script.effects|
    ensures done <= |abs.effects| && Fit(Apply(s, script.effects[..done]).body)
    ensures OnBoard(Apply(s, script.effects[..done])) == Apply(OnBoard(s), abs.effects[..done])
  {
    MirroredApply(s, script.effects[..done], abs.effects[..done]);
  }

  lemma LabelledRefines(asked: Script<string>, abs: Script<Board>, labels: set<string>)
    requires Refines(asked, abs) && asked.end.Returns?
    ensures Refines(Script(asked.effects + LabelScript(labels), asked.end), Script(abs.effects + LabelScript(labels), abs.end))
  {
  }

  lemma PrefixRefines(asked: Script<string>, abs: Script<Board>, more: seq<Effect<Board>>)
    requires Refines(asked, abs) && asked.end.Raises?
    ensures Refines(asked, Script(abs.effects + more, abs.end))
  {
  }

  lemma SameLabels(s: Issue<string>, asked: Script<string>, abs: Script<Board>)
    requires Fit(s.body) && Refines(asked, abs) && asked.end.Returns?
    ensures Apply(s, asked.effects).labels == Apply(OnBoard(s), abs.effects).labels
  {
    MirroredApply(s, asked.effects, abs.effects);
  }

  /** Asking, as text and as the board sees it. */
  lemma AskRefines(s: Issue<string>, kind: string, text: string, options: seq<string>)
    requires Fit(s.body)
    ensures Refines(AskScript(s, kind, text, options), P.Ask(OnBoard(s), kind, text, options))
  {
    var asked, abs := AskedScript(s.body, kind, text, options), P.Asked(View(s.body), kind, text, options);
    AskedRefines(s.body, View(s.body), kind, text, options);
    if asked.end.Returns? {
      SameLabels(s, asked, abs);
      LabelledRefines(asked, abs, Apply(s, asked.effects).labels);
    } else {
      PrefixRefines(asked, abs, LabelScript(Apply(OnBoard(s), abs.effects).labels));
    }
  }

  /** Answering, as text and as the board sees it. */
  lemma AnswerRefines(s: Issue<string>, questionId: string, text: string, commentId: Option<int>, reply: Reply)
    requires Fit(s.body)
    ensures Refines(AnswerScript(s, questionId, text, commentId, reply), P.Answer(OnBoard(s), questionId, text, commentId, reply))
  {
    var open := ReadOpen(s.body);
    if open.None? {
      UnaskedRefines(s.body, View(s.body), questionId);
    } else if open.value.id != questionId {
      SingleRefines(Outdated, WAITING, NoQuestion);
    } else {
      OpenRefines(s.body, View(s.body), open.value, Trim(text), commentId, reply);
    }
  }

  /** Closing a question answered in the body, as text and as the board sees it. */
  lemma CloseRefines(s: Issue<string>, section: string -> string)
    requires Fit(s.body)
    ensures Refines(CloseScript(s, section), P.Close(OnBoard(s), ReadCriterion(s.body, section)))
  {
    var open := ReadOpen(s.body);
    if open.Some? {
      ChoiceRefines(s.body, View(s.body), open.value, ReadCriterion(s.body, section), false, Closed);
    } else {
      SingleRefines(Outdated, WAITING, Closed);
    }
  }
}
