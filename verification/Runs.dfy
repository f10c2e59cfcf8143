/**
 * What holds in every run: attempts of the three activities in any order, each cut short after any of its writes
 * or not at all, any number of retries, and between them edits by people that leave the journal alone.
 */
module Runs {
  import opened Chars
  import opened Journal
  import opened Protocol
  import opened Records
  import opened Texts

  // ---------------------------------------------------------------------------------------------
  // Steps

  datatype Event =
    | Asking(kind: string, text: string, options: seq<string>)
    | Answering(questionId: string, text: string, commentId: Option<int>, reply: Reply)
    | Closing(criterion: string)
    | Editing

  function ScriptOf(s: Issue<Board>, e: Event): Script<Board>
    requires !e.Editing?
  {
    match e
    case Asking(kind, text, options) => Ask(s, kind, text, options)
    case Answering(questionId, text, commentId, reply) => Answer(s, questionId, text, commentId, reply)
    case Closing(criterion) => Close(s, criterion)
  }

  /** People may remove the question or the draft, change the criterion and the labels, and add comments. */
  ghost predicate Edit(s: Issue<Board>, s': Issue<Board>) {
    && s'.body.journal == s.body.journal
    && (s'.body.open == s.body.open || s'.body.open == None)
    && (s'.body.draft == s.body.draft || s'.body.draft == None)
    && s.comments <= s'.comments
  }

  /** An attempt makes the first `done` writes of its script. */
  ghost predicate Attempt(s: Issue<Board>, e: Event, done: nat, s': Issue<Board>) {
    !e.Editing? && done <= |ScriptOf(s, e).effects| && s' == Apply(s, ScriptOf(s, e).effects[..done])
  }

  ghost predicate Step(s: Issue<Board>, e: Event, s': Issue<Board>) {
    if e.Editing? then Edit(s, s') else exists done: nat :: Attempt(s, e, done, s')
  }

  ghost predicate Run(states: seq<Issue<Board>>, events: seq<Event>) {
    && |states| == |events| + 1
    && forall i :: 0 <= i < |events| ==> StepAt(states, events, i)
  }

  ghost predicate StepAt(states: seq<Issue<Board>>, events: seq<Event>, i: int)
    requires 0 <= i < |events| < |states|
  {
    Step(states[i], events[i], states[i + 1])
  }

  /** Nothing decided, nothing asked. */
  predicate Blank(s: Issue<Board>) {
    s.body.journal == [] && s.body.open == None && s.body.draft == None
  }

  // ---------------------------------------------------------------------------------------------
  // The invariant

  /** No two entries share an identifier, and every identifier has the form of its kind. */
  ghost predicate JournalSound(j: seq<Decision>) {
    DistinctIds(j) && forall k :: 0 <= k < |j| ==> IdOf(j[k].questionId, j[k].kind)
  }

  ghost predicate Fresh(j: seq<Decision>, id: string) {
    forall k :: 0 <= k < |j| ==> j[k].questionId != id
  }

  /** The comment that puts the question to people is in the log. */
  ghost predicate AskedIn(comments: seq<Comment>, q: Question) {
    AskComment(q.id, q.text, q.options) in comments || (AskedAgain in comments && InPlaceOfLost(q))
  }

  /** A question asked in place of a lost one, by its text; the comment that puts it to people names no other. */
  predicate InPlaceOfLost(q: Question) {
    q.text == LOST_QUESTION && q.options == []
  }

  /** A comment that shows exactly this interpretation, under exactly this question identifier, is in the log. */
  ghost predicate ShownIn(comments: seq<Comment>, questionId: string, i: Interpretation) {
    exists k :: 0 <= k < |comments| && comments[k].ShownComment? &&
      comments[k].questionId == questionId && comments[k].interpretation == i
  }

  ghost predicate OpenSound(q: Question, j: seq<Decision>, comments: seq<Comment>) {
    IdOf(q.id, q.kind) && Fresh(j, q.id) && (q.announced ==> AskedIn(comments, q))
  }

  ghost predicate DraftSound(p: Pending, j: seq<Decision>, comments: seq<Comment>) {
    Sound(p.interpretation, j) && (p.announced ==> ShownIn(comments, p.questionId, p.interpretation))
  }

  ghost predicate BoardSound(b: Board, comments: seq<Comment>) {
    && JournalSound(b.journal)
    && (b.open.Some? ==> OpenSound(b.open.value, b.journal, comments))
    && (b.draft.Some? ==> DraftSound(b.draft.value, b.journal, comments))
  }

  ghost predicate Inv(s: Issue<Board>) {
    BoardSound(s.body, s.comments)
  }

  // ---------------------------------------------------------------------------------------------
  // What a step may add to the journal

  /** `d` is on the same question as the entry of the journal under this identifier. */
  predicate SameSubject(j: seq<Decision>, d: Decision, id: string) {
    var was := FirstUnder(j, id);
    was.Some? && d.kind == was.value.kind && d.question == was.value.question
  }

  /** `d` carries out amendment `a`: it answers the question of the entry amended, and supersedes that entry. */
  predicate Carries(j: seq<Decision>, d: Decision, a: Amendment) {
    d.answer == a.answer && d.supersedes == a.questionId && SameSubject(j, d, a.questionId)
  }

  /** The decisions carry out the amendments of the journal, one for one and in their order. */
  ghost predicate CarryOut(j: seq<Decision>, ds: seq<Decision>, list: seq<Amendment>) {
    |ds| == |list| && forall k :: 0 <= k < |list| ==> Carries(j, ds[k], list[k])
  }

  /** The decision on the question and one decision for every amendment of the interpretation, and nothing else. */
  ghost predicate OnList(j: seq<Decision>, added: seq<Decision>, q: Question, i: Interpretation) {
    added != [] && added[0] == DecisionOn(q, i.answer) && CarryOut(j, added[1..], i.amendments)
  }

  /** The decisions come from the option chosen by number, or from an interpretation shown before and confirmed now. */
  ghost predicate ByAnswer(s: Issue<Board>, questionId: string, answer: string, added: seq<Decision>) {
    && s.body.open.Some? && s.body.open.value.id == questionId
    && var q := s.body.open.value;
      if IsChoice(answer, |q.options|) then added == [DecisionOn(q, q.options[Number(answer) - 1])]
      else IsConfirmation(answer) && exists i :: ShownIn(s.comments, questionId, i) && OnList(s.body.journal, added, q, i)
  }

  ghost predicate Justified(s: Issue<Board>, e: Event, added: seq<Decision>) {
    match e
    case Answering(questionId, text, _, _) => ByAnswer(s, questionId, Trim(text), added)
    case Closing(criterion) => s.body.open.Some? && added == [DecisionOn(s.body.open.value, criterion)]
    case _ => false
  }

  /** The criterion block holds the answer of the last criterion decision added, or is as it was. */
  predicate CriterionFollows(b: Board, added: seq<Decision>, b': Board) {
    b'.criterion == if LastAnswer(added, "howtodemo").Some? then LastAnswer(added, "howtodemo") else b.criterion
  }

  /** The answer of the last decision of a kind. */
  function LastAnswer(ds: seq<Decision>, kind: string): Option<string> {
    if ds == [] then None
    else if ds[|ds| - 1].kind == kind then Some(ds[|ds| - 1].answer)
    else LastAnswer(ds[..|ds| - 1], kind)
  }

  /** An answer puts what it adds in its place; no other call touches the criterion block. */
  ghost predicate Placed(s: Issue<Board>, e: Event, added: seq<Decision>, b': Board) {
    match e
    case Editing => true
    case Answering(_, _, _, _) => CriterionFollows(s.body, added, b')
    case _ => b'.criterion == s.body.criterion
  }

  /** The journal grew by nothing, or by decisions this event accounts for in the state it met. */
  ghost predicate Grew(s: Issue<Board>, e: Event, s': Issue<Board>) {
    && s.body.journal <= s'.body.journal
    && s.comments <= s'.comments
    && var added := s'.body.journal[|s.body.journal|..];
      (added == [] || Justified(s, e, added)) && Placed(s, e, added, s'.body)
  }

  // ---------------------------------------------------------------------------------------------
  // The journal stays sound

  lemma SoundAdd(j: seq<Decision>, d: Decision)
    requires JournalSound(j) && IdOf(d.questionId, d.kind) && Fresh(j, d.questionId)
    ensures JournalSound(j + [d])
  {
  }

  lemma NextIdSound(j: seq<Decision>, kind: string)
    requires JournalSound(j)
    ensures IdOf(NextId(j, kind), kind) && Fresh(j, NextId(j, kind))
  {
    NextIdFresh(j, kind);
  }

  lemma KnownGrows(j: seq<Decision>, added: seq<Decision>, id: string)
    requires Known(j, id)
    ensures Known(j + added, id)
  {
    var k :| 0 <= k < |j| && j[k].questionId == id;
    assert (j + added)[k].questionId == id;
  }

  lemma SoundGrows(i: Interpretation, j: seq<Decision>, added: seq<Decision>)
    requires Sound(i, j)
    ensures Sound(i, j + added)
  {
    forall k | 0 <= k < |i.amendments| ensures Known(j + added, i.amendments[k].questionId) {
      KnownGrows(j, added, i.amendments[k].questionId);
    }
  }

  lemma {:induction false} FirstUnderFound(journal: seq<Decision>, id: string)
    requires Known(journal, id)
    ensures FirstUnder(journal, id).Some? && FirstUnder(journal, id).value in journal
    decreases |journal|
  {
    if journal[0].questionId != id {
      var k :| 0 <= k < |journal| && journal[k].questionId == id;
      assert journal[1..][k - 1].questionId == id;
      FirstUnderFound(journal[1..], id);
    }
  }

  lemma LastAnswerAdd(ds: seq<Decision>, d: Decision, kind: string)
    ensures LastAnswer(ds + [d], kind) == if d.kind == kind then Some(d.answer) else LastAnswer(ds, kind)
  {
    assert (ds + [d])[..|ds|] == ds;
  }

  lemma {:induction false} LastAnswerJoin(a: seq<Decision>, b: seq<Decision>, kind: string)
    ensures LastAnswer(a + b, kind) == if LastAnswer(b, kind).Some? then LastAnswer(b, kind) else LastAnswer(a, kind)
    decreases |b|
  {
    if b == [] {
      assert a + b == a;
    } else {
      LastAnswerJoin(a, b[..|b| - 1], kind);
      assert (a + b)[..|a + b| - 1] == a + b[..|b| - 1];
    }
  }

  /** `b'` is `b` with these decisions added and put in their places. */
  ghost predicate Extends(b: Board, added: seq<Decision>, b': Board) {
    && b'.journal == b.journal + added && b'.open == b.open && b'.draft == b.draft && CriterionFollows(b, added, b')
  }

  lemma ExtendsJoin(a: Board, xs: seq<Decision>, b: Board, ys: seq<Decision>, c: Board)
    requires Extends(a, xs, b) && Extends(b, ys, c)
    ensures Extends(a, xs + ys, c)
  {
    LastAnswerJoin(xs, ys, "howtodemo");
    assert a.journal + xs + ys == a.journal + (xs + ys);
  }

  lemma ExtendsOne(b: Board, d: Decision)
    ensures Extends(b, [d], Place(Append(b, d), d.kind, d.answer))
  {
    LastAnswerAdd([], d, "howtodemo");
    assert [] + [d] == [d];
  }

  lemma AmendAdds(b: Board, a: Amendment) returns (d: Decision)
    requires JournalSound(b.journal) && Known(b.journal, a.questionId)
    ensures Extends(b, [d], Amend(b, a)) && Carries(b.journal, d, a) && JournalSound(b.journal + [d])
  {
    FirstUnderFound(b.journal, a.questionId);
    var previous := FirstUnder(b.journal, a.questionId).value;
    d := AmendedDecision(b.journal, previous, a);
    NextIdSound(b.journal, previous.kind);
    SoundAdd(b.journal, d);
    ExtendsOne(b, d);
  }

  lemma {:induction false} FirstUnderPrefix(j: seq<Decision>, more: seq<Decision>, id: string)
    requires Known(j, id)
    ensures FirstUnder(j + more, id) == FirstUnder(j, id)
    decreases |j|
  {
    if j[0].questionId != id {
      var k :| 0 <= k < |j| && j[k].questionId == id;
      assert j[1..][k - 1].questionId == id;
      FirstUnderPrefix(j[1..], more, id);
      assert (j + more)[1..] == j[1..] + more;
    }
  }

  lemma AmendMore(b: Board, before: Board, most: seq<Decision>, prior: seq<Amendment>, a: Amendment) returns (added: seq<Decision>)
    requires Extends(b, most, before) && JournalSound(before.journal) && CarryOut(b.journal, most, prior)
    requires Known(b.journal, a.questionId)
    ensures Extends(b, added, Amend(before, a)) && JournalSound(b.journal + added) && CarryOut(b.journal, added, prior + [a])
  {
    KnownGrows(b.journal, most, a.questionId);
    var d := AmendAdds(before, a);
    FirstUnderPrefix(b.journal, most, a.questionId);
    ExtendsJoin(b, most, before, [d], Amend(before, a));
    added := most + [d];
    assert b.journal + most + [d] == b.journal + added;
  }

  /** Every amendment of a known decision adds one decision that carries it out, in the order of the list. */
  lemma {:induction false} AmendAllAdds(b: Board, list: seq<Amendment>) returns (added: seq<Decision>)
    requires JournalSound(b.journal)
    requires forall k :: 0 <= k < |list| ==> Known(b.journal, list[k].questionId)
    ensures Extends(b, added, AmendAll(b, list)) && JournalSound(b.journal + added) && CarryOut(b.journal, added, list)
    decreases |list|
  {
    if list == [] {
      added := [];
      assert b.journal + [] == b.journal;
    } else {
      var n := |list| - 1;
      var most := AmendAllAdds(b, list[..n]);
      var before, prior := AmendAll(b, list[..n]), list[..n];
      assert prior + [list[n]] == list && AmendAll(b, list) == Amend(before, list[n]);
      added := AmendMore(b, before, most, prior, list[n]);
    }
  }

  lemma CarryOutBefore(j: seq<Decision>, later: seq<Decision>, ds: seq<Decision>, list: seq<Amendment>)
    requires forall k :: 0 <= k < |list| ==> Known(j, list[k].questionId)
    requires CarryOut(j + later, ds, list)
    ensures CarryOut(j, ds, list)
  {
    forall k | 0 <= k < |list| ensures Carries(j, ds[k], list[k]) {
      assert Carries(j + later, ds[k], list[k]);
      FirstUnderPrefix(j, later, list[k].questionId);
    }
  }

  /** A confirmed interpretation adds the decision on the question and one decision for each amendment. */
  lemma AppliedAdds(b: Board, q: Question, i: Interpretation) returns (added: seq<Decision>)
    requires JournalSound(b.journal) && Sound(i, b.journal) && IdOf(q.id, q.kind) && Fresh(b.journal, q.id)
    ensures Extends(b.(open := None, draft := None), added, Applied(b, q, i))
    ensures JournalSound(b.journal + added) && OnList(b.journal, added, q, i)
  {
    var d, clean := DecisionOn(q, i.answer), b.(draft := None);
    var placed := Place(Append(clean, d), q.kind, i.answer);
    ExtendsOne(clean, d);
    SoundAdd(b.journal, d);
    SoundGrows(i, b.journal, [d]);
    var more := AmendAllAdds(placed, i.amendments);
    ExtendsJoin(clean, [d], placed, more, AmendAll(placed, i.amendments));
    added := [d] + more;
    assert added[1..] == more;
    CarryOutBefore(b.journal, [d], more, i.amendments);
    assert b.journal + [d] + more == b.journal + added;
  }

  function AmendedIds(list: seq<Amendment>): seq<string> {
    seq(|list|, k requires 0 <= k < |list| => list[k].questionId)
  }

  /** An empty identifier names no entry. */
  lemma {:induction false} DroppingFirst(ds: seq<Decision>, ids: seq<string>)
    ensures DroppingAll(ds, [""] + ids) == DroppingAll(ds, ids)
    decreases |ids|
  {
    if ids == [] {
      assert [""] + ids == [""] && [""][..0] == [];
      DroppingNone(ds, "");
      assert DroppingAll(ds, [""][..0]) == ds;
    } else {
      var n := |ids| - 1;
      DroppingFirst(ds, ids[..n]);
      assert ([""] + ids)[..n + 1] == [""] + ids[..n];
    }
  }

  /**
   * A confirmed interpretation, in force: exactly the amended entries go out of force, and the decision on the question
   * and the amendments are in force, in that order.
   */
  lemma ConfirmedInForce(j: seq<Decision>, added: seq<Decision>, q: Question, i: Interpretation)
    requires DistinctIds(j + added) && OnList(j, added, q, i)
    ensures EffectiveOf(j + added) == DroppingAll(EffectiveOf(j), AmendedIds(i.amendments)) + added
  {
    forall k | 0 <= k < |added| ensures added[k].supersedes == "" || Taken(j, added[k].supersedes) {
      if 0 < k {
        assert Carries(j, added[1..][k - 1], i.amendments[k - 1]);
        FirstUnderTaken(j, added[k].supersedes);
      }
    }
    EffectiveGrows(j, added);
    SupersedesAmended(j, added, q, i);
    DroppingFirst(EffectiveOf(j), AmendedIds(i.amendments));
  }

  lemma SupersedesAmended(j: seq<Decision>, added: seq<Decision>, q: Question, i: Interpretation)
    requires OnList(j, added, q, i)
    ensures SupersededIds(added) == [""] + AmendedIds(i.amendments)
  {
    forall k | 0 <= k < |i.amendments| ensures SupersededIds(added)[k + 1] == i.amendments[k].questionId {
      assert Carries(j, added[1..][k], i.amendments[k]);
    }
  }

  lemma {:induction false} FirstUnderTaken(j: seq<Decision>, id: string)
    requires FirstUnder(j, id).Some?
    ensures Taken(j, id)
    decreases |j|
  {
    if j[0].questionId == id {
      assert Taken(j, id);
    } else {
      FirstUnderTaken(j[1..], id);
      var k :| 0 <= k < |j[1..]| && j[1..][k].questionId == id;
      assert j[k + 1].questionId == id;
    }
  }

  // ---------------------------------------------------------------------------------------------
  // Every part of every script

  /** The invariant, and no more in the journal than the event accounts for. */
  ghost predicate Fine(s: Issue<Board>, e: Event, t: Issue<Board>) {
    Inv(t) && Grew(s, e, t)
  }

  /** Fine after each of the writes, starting from `t`. */
  ghost predicate AllFine(s: Issue<Board>, e: Event, t: Issue<Board>, effects: seq<Effect<Board>>) {
    forall k :: 0 <= k <= |effects| ==> Fine(s, e, Apply(t, effects[..k]))
  }

  lemma FineNone(s: Issue<Board>, e: Event, t: Issue<Board>)
    requires Fine(s, e, t)
    ensures AllFine(s, e, t, [])
  {
  }

  lemma FineOne(s: Issue<Board>, e: Event, t: Issue<Board>, x: Effect<Board>)
    requires Fine(s, e, t) && Fine(s, e, Do(t, x))
    ensures AllFine(s, e, t, [x]) && Apply(t, [x]) == Do(t, x)
  {
    assert [x][..0] == [] && [x][..1] == [x];
    assert Apply(t, [x]) == Do(t, x);
    forall k | 0 <= k <= 1 ensures Fine(s, e, Apply(t, [x][..k])) {
      if k == 1 { assert [x][..k] == [x]; }
    }
  }

  lemma FineJoin(s: Issue<Board>, e: Event, t: Issue<Board>, xs: seq<Effect<Board>>, ys: seq<Effect<Board>>)
    requires AllFine(s, e, t, xs) && AllFine(s, e, Apply(t, xs), ys)
    ensures AllFine(s, e, t, xs + ys)
  {
    forall k | 0 <= k <= |xs + ys| ensures Fine(s, e, Apply(t, (xs + ys)[..k])) {
      if k <= |xs| {
        assert (xs + ys)[..k] == xs[..k];
      } else {
        assert (xs + ys)[..k] == xs + ys[..k - |xs|];
        ApplyJoin(t, xs, ys[..k - |xs|]);
      }
    }
  }

  lemma FineTwo(s: Issue<Board>, e: Event, t: Issue<Board>, x: Effect<Board>, y: Effect<Board>)
    requires Fine(s, e, t) && Fine(s, e, Do(t, x)) && Fine(s, e, Do(Do(t, x), y))
    ensures AllFine(s, e, t, [x, y]) && Apply(t, [x, y]) == Do(Do(t, x), y)
  {
    FineOne(s, e, t, x);
    FineOne(s, e, Do(t, x), y);
    FineJoin(s, e, t, [x], [y]);
    ApplyJoin(t, [x], [y]);
    assert [x] + [y] == [x, y];
  }

  /** Writes that touch neither the body nor the log. */
  lemma FineLabel(s: Issue<Board>, e: Event, t: Issue<Board>, x: Effect<Board>)
    requires Fine(s, e, t) && !x.SetBody?
    ensures Fine(s, e, Do(t, x))
  {
    if x.Post? { LogGrows(t.body, t.comments, x.comment); }
  }

  lemma LogGrows(b: Board, comments: seq<Comment>, c: Comment)
    requires BoardSound(b, comments)
    ensures BoardSound(b, comments + [c])
  {
    LogPrefix(b, comments, comments + [c]);
  }

  /** A longer log takes nothing away. */
  lemma LogPrefix(b: Board, comments: seq<Comment>, more: seq<Comment>)
    requires BoardSound(b, comments) && comments <= more
    ensures BoardSound(b, more)
  {
    if b.open.Some? && b.open.value.announced {
      var q := b.open.value;
      var c := if AskComment(q.id, q.text, q.options) in comments then AskComment(q.id, q.text, q.options) else AskedAgain;
      assert c in more;
    }
    if b.draft.Some? && b.draft.value.announced {
      var p := b.draft.value;
      var k :| 0 <= k < |comments| && comments[k].ShownComment? &&
        comments[k].questionId == p.questionId && comments[k].interpretation == p.interpretation;
      assert more[k] == comments[k];
    }
  }

  /** From a sound state, an event that adds nothing to the journal. */
  lemma FineSame(s: Issue<Board>, e: Event, t: Issue<Board>)
    requires Inv(t) && SameRecords(s, t)
    ensures Fine(s, e, t)
  {
  }

  /** Nothing decided in between. */
  ghost predicate SameRecords(s: Issue<Board>, t: Issue<Board>) {
    t.body.journal == s.body.journal && t.body.criterion == s.body.criterion && s.comments <= t.comments
  }

  // ---------------------------------------------------------------------------------------------
  // Asking

  lemma AnnounceQuestionFine(s: Issue<Board>, e: Event, t: Issue<Board>, q: Question)
    requires Inv(t) && SameRecords(s, t) && t.body.open == Some(q)
    ensures AllFine(s, e, t, AnnounceQuestion(t.body, q).effects)
  {
    var c, b := AskComment(q.id, q.text, q.options), Announced(t.body, q);
    var t1 := Do(t, Post(c));
    LogGrows(t.body, t.comments, c);
    FineSame(s, e, t);
    FineSame(s, e, t1);
    assert t1.comments[|t.comments|] == c;
    FineSame(s, e, Do(t1, SetBody(b)));
    FineTwo(s, e, t, Post(c), SetBody(b));
  }

  lemma OpenedSound(s: Issue<Board>, q: Question)
    requires Inv(s) && IdOf(q.id, q.kind) && Fresh(s.body.journal, q.id) && !q.announced
    ensures Inv(Do(s, SetBody(s.body.(open := Some(q)))))
  {
  }

  lemma AskedFine(s: Issue<Board>, e: Event, kind: string, text: string, options: seq<string>)
    requires Inv(s)
    ensures AllFine(s, e, s, Asked(s.body, kind, text, options).effects)
  {
    FineSame(s, e, s);
    FineNone(s, e, s);
    if s.body.open.Some? {
      AnnounceQuestionFine(s, e, s, s.body.open.value);
    } else {
      var q := NewQuestion(s.body, kind, text, options);
      var b := s.body.(open := Some(q));
      NextIdSound(s.body.journal, kind);
      OpenedSound(s, q);
      FineSame(s, e, Do(s, SetBody(b)));
      FineOne(s, e, s, SetBody(b));
      AnnounceQuestionFine(s, e, Do(s, SetBody(b)), q);
      FineJoin(s, e, s, [SetBody(b)], AnnounceQuestion(b, q).effects);
    }
  }

  lemma AskFine(s: Issue<Board>, kind: string, text: string, options: seq<string>)
    requires Inv(s)
    ensures AllFine(s, Asking(kind, text, options), s, Ask(s, kind, text, options).effects)
  {
    var e, asked := Asking(kind, text, options), Asked(s.body, kind, text, options);
    AskedFine(s, e, kind, text, options);
    var t := Apply(s, asked.effects);
    assert asked.effects[..|asked.effects|] == asked.effects;
    assert Fine(s, e, t);
    FineNone(s, e, t);
    FineLabel(s, e, t, AddLabel(WAITING));
    FineOne(s, e, t, AddLabel(WAITING));
    FineJoin(s, e, s, asked.effects, LabelScript(t.labels));
  }

  // ---------------------------------------------------------------------------------------------
  // Answering and closing

  lemma SettleFine(s: Issue<Board>, e: Event, b: Board, added: seq<Decision>, verdict: Verdict)
    requires Inv(s) && b.journal == s.body.journal + added && JournalSound(b.journal) && Justified(s, e, added)
    requires b.open == None && b.draft == None && Placed(s, e, added, b)
    ensures AllFine(s, e, s, Settle(b, verdict).effects)
  {
    assert b.journal[|s.body.journal|..] == added;
    FineSame(s, e, s);
    FineLabel(s, e, Do(s, SetBody(b)), DropLabel(WAITING));
    FineTwo(s, e, s, SetBody(b), DropLabel(WAITING));
  }

  lemma RecordedFine(s: Issue<Board>, e: Event, q: Question, answer: string, place: bool, verdict: Verdict)
    requires Inv(s) && s.body.open == Some(q) && Justified(s, e, [DecisionOn(q, answer)]) && place == e.Answering?
    ensures AllFine(s, e, s, Settle(Recorded(s.body, q, answer, place), verdict).effects)
  {
    SoundAdd(s.body.journal, DecisionOn(q, answer));
    ExtendsOne(s.body, DecisionOn(q, answer));
    SettleFine(s, e, Recorded(s.body, q, answer, place), [DecisionOn(q, answer)], verdict);
  }

  lemma AnnounceDraftFine(s: Issue<Board>, e: Event, t: Issue<Board>, p: Pending)
    requires Inv(t) && SameRecords(s, t) && t.body.draft == Some(p)
    ensures AllFine(s, e, t, AnnounceDraft(t.body, p).effects)
  {
    var c, b := Shown(p.questionId, p.interpretation, t.body.journal), t.body.(draft := Some(p.(announced := true)));
    var t1 := Do(t, Post(c));
    LogGrows(t.body, t.comments, c);
    FineSame(s, e, t);
    FineSame(s, e, t1);
    assert t1.comments[|t.comments|] == c;
    assert ShownIn(t1.comments, p.questionId, p.interpretation);
    FineSame(s, e, Do(t1, SetBody(b)));
    FineTwo(s, e, t, Post(c), SetBody(b));
  }

  lemma SayFine(s: Issue<Board>, e: Event, c: Comment)
    requires Inv(s)
    ensures AllFine(s, e, s, [Post(c)])
  {
    FineSame(s, e, s);
    LogGrows(s.body, s.comments, c);
    FineSame(s, e, Do(s, Post(c)));
    FineOne(s, e, s, Post(c));
  }

  lemma DraftedFine(s: Issue<Board>, e: Event, q: Question, reply: Reply)
    requires Inv(s)
    ensures AllFine(s, e, s, Drafted(s.body, q, reply).effects)
  {
    if reply.Understood? && Sound(reply.interpretation, s.body.journal) {
      var p := Pending(q.id, reply.interpretation, false);
      var b := s.body.(draft := Some(p));
      FineSame(s, e, s);
      FineSame(s, e, Do(s, SetBody(b)));
      FineOne(s, e, s, SetBody(b));
      AnnounceDraftFine(s, e, Do(s, SetBody(b)), p);
      FineJoin(s, e, s, [SetBody(b)], AnnounceDraft(b, p).effects);
    } else {
      SayFine(s, e, NotUnderstood);
    }
  }

  lemma AppliedFine(s: Issue<Board>, e: Event, q: Question, answer: string, i: Interpretation)
    requires Inv(s) && s.body.open == Some(q) && Sound(i, s.body.journal) && ShownIn(s.comments, q.id, i)
    requires e.Answering? && e.questionId == q.id && answer == Trim(e.text)
    requires IsConfirmation(answer) && !IsChoice(answer, |q.options|)
    ensures AllFine(s, e, s, Settle(Applied(s.body, q, i), Accepted).effects)
  {
    var added := AppliedAdds(s.body, q, i);
    SettleFine(s, e, Applied(s.body, q, i), added, Accepted);
  }

  lemma ConfirmFine(s: Issue<Board>, e: Event, q: Question, answer: string, reply: Reply)
    requires Inv(s) && s.body.open == Some(q)
    requires e.Answering? && e.questionId == q.id && answer == Trim(e.text) && !IsChoice(answer, |q.options|)
    ensures AllFine(s, e, s, ConfirmText(s.body, q, answer, reply).effects)
  {
    if s.body.draft.Some? && s.body.draft.value.questionId == q.id && !s.body.draft.value.announced {
      AnnounceDraftFine(s, e, s, s.body.draft.value);
    } else if s.body.draft.Some? && s.body.draft.value.questionId == q.id && IsConfirmation(answer) {
      AppliedFine(s, e, q, answer, s.body.draft.value.interpretation);
    } else {
      DraftedFine(s, e, q, reply);
    }
  }

  /** The question asked in place of a lost one takes an identifier that is not in the journal and not the lost one. */
  lemma RevivedFresh(j: seq<Decision>, questionId: string)
    requires JournalSound(j)
    ensures var q := Revived(j, questionId); IdOf(q.id, q.kind) && Fresh(j, q.id) && q.id != questionId
  {
    var kind := KindOf(questionId);
    var ghosted := j + [Decision(questionId, kind, "", "", "")];
    NextIdFresh(ghosted, kind);
    assert ghosted[|j|].questionId == questionId;
    assert forall k :: 0 <= k < |j| ==> ghosted[k] == j[k];
  }

  lemma ReaskFine(s: Issue<Board>, e: Event, questionId: string)
    requires Inv(s)
    ensures AllFine(s, e, s, Reask(s.body, questionId).effects)
  {
    var q := Revived(s.body.journal, questionId);
    var b := s.body.(open := Some(q));
    var t := Do(s, SetBody(b));
    RevivedFresh(s.body.journal, questionId);
    OpenedSound(s, q);
    FineSame(s, e, s);
    FineSame(s, e, t);
    FineOne(s, e, s, SetBody(b));
    AgainFine(s, e, t, q);
    FineJoin(s, e, s, [SetBody(b)], AnnounceAgain(b, q).effects);
  }

  lemma AgainFine(s: Issue<Board>, e: Event, t: Issue<Board>, q: Question)
    requires InPlaceOfLost(q) && Inv(t) && SameRecords(s, t) && t.body.open == Some(q)
    ensures AllFine(s, e, t, AnnounceAgain(t.body, q).effects)
  {
    var b := Announced(t.body, q);
    var t1 := Do(t, Post(AskedAgain));
    var t2 := Do(t1, SetBody(b));
    LogGrows(t.body, t.comments, AskedAgain);
    FineSame(s, e, t);
    FineSame(s, e, t1);
    assert t1.comments[|t.comments|] == AskedAgain;
    FineSame(s, e, t2);
    FineLabel(s, e, t2, AddLabel(WAITING));
    FineTwo(s, e, t, Post(AskedAgain), SetBody(b));
    FineOne(s, e, t2, AddLabel(WAITING));
    FineJoin(s, e, t, [Post(AskedAgain), SetBody(b)], [AddLabel(WAITING)]);
    assert AnnounceAgain(t.body, q).effects == [Post(AskedAgain), SetBody(b)] + [AddLabel(WAITING)];
  }

  lemma QuietFine(s: Issue<Board>, e: Event, x: Effect<Board>, y: Effect<Board>)
    requires Inv(s) && !x.SetBody? && !y.SetBody?
    ensures AllFine(s, e, s, []) && AllFine(s, e, s, [x]) && AllFine(s, e, s, [x, y])
  {
    FineSame(s, e, s);
    FineNone(s, e, s);
    FineLabel(s, e, s, x);
    FineLabel(s, e, Do(s, x), y);
    FineOne(s, e, s, x);
    FineTwo(s, e, s, x, y);
  }

  lemma AnswerFine(s: Issue<Board>, questionId: string, text: string, commentId: Option<int>, reply: Reply)
    requires Inv(s)
    ensures AllFine(s, Answering(questionId, text, commentId, reply), s, Answer(s, questionId, text, commentId, reply).effects)
  {
    var e, answer := Answering(questionId, text, commentId, reply), Trim(text);
    if s.body.open.None? {
      if questionId == "" {
        SayFine(s, e, NothingAsked);
      } else if Known(s.body.journal, questionId) {
        QuietFine(s, e, DropLabel(WAITING), DropLabel(WAITING));
      } else {
        ReaskFine(s, e, questionId);
      }
    } else if s.body.open.value.id != questionId {
      SayFine(s, e, Outdated);
    } else {
      OpenFine(s, e, s.body.open.value, answer, commentId, reply);
    }
  }

  lemma OpenFine(s: Issue<Board>, e: Event, q: Question, answer: string, commentId: Option<int>, reply: Reply)
    requires Inv(s) && s.body.open == Some(q) && e.Answering? && e.questionId == q.id && answer == Trim(e.text)
    ensures AllFine(s, e, s, AnswerOpen(s.body, q, answer, commentId, reply).effects)
  {
    if answer == "" {
      var id := if commentId.Some? then commentId.value else 0;
      QuietFine(s, e, React(id, "confused"), React(id, "-1"));
    } else if IsChoice(answer, |q.options|) {
      RecordedFine(s, e, q, q.options[Number(answer) - 1], true, Accepted);
    } else {
      ConfirmFine(s, e, q, answer, reply);
    }
  }

  lemma CloseFine(s: Issue<Board>, criterion: string)
    requires Inv(s)
    ensures AllFine(s, Closing(criterion), s, Close(s, criterion).effects)
  {
    var e := Closing(criterion);
    if s.body.open.Some? {
      RecordedFine(s, e, s.body.open.value, criterion, false, Closed);
    } else {
      QuietFine(s, e, DropLabel(WAITING), DropLabel(WAITING));
    }
  }

  // ---------------------------------------------------------------------------------------------
  // Every run

  /** One step, cut short anywhere: the invariant stays, and the journal grows by what the event accounts for. */
  lemma StepKeeps(s: Issue<Board>, e: Event, s': Issue<Board>)
    requires Inv(s) && Step(s, e, s')
    ensures Inv(s') && Grew(s, e, s')
  {
    match e
    case Editing => LogPrefix(s.body, s.comments, s'.comments);
    case Asking(kind, text, options) => AskFine(s, kind, text, options);
    case Answering(questionId, text, commentId, reply) => AnswerFine(s, questionId, text, commentId, reply);
    case Closing(criterion) => CloseFine(s, criterion);
  }

  lemma {:induction false} RunKeeps(states: seq<Issue<Board>>, events: seq<Event>, n: nat)
    requires Run(states, events) && Inv(states[0]) && n < |states|
    ensures Inv(states[n])
    decreases n
  {
    if n > 0 {
      var m := n - 1;
      RunKeeps(states, events, m);
      assert StepAt(states, events, m);
      StepKeeps(states[m], events[m], states[n]);
    }
  }

  /**
   * In every reachable state the identifiers of the journal are pairwise distinct and the open question's is not
   * among them: whatever is repeated, late or retried, no question is ever decided twice.
   */
  lemma NoDoubleDecision(states: seq<Issue<Board>>, events: seq<Event>, n: nat)
    requires Run(states, events) && Blank(states[0]) && n < |states|
    ensures DistinctIds(states[n].body.journal)
    ensures states[n].body.open.Some? ==> Fresh(states[n].body.journal, states[n].body.open.value.id)
  {
    RunKeeps(states, events, n);
  }

  /**
   * Whatever a step of a run adds to the journal is accounted for by that step: an option chosen by its number,
   * the criterion found in the body, or an interpretation whose comment, under that question's identifier, was posted in
   * an earlier state; then exactly what the comment listed is added, nothing dropped and nothing else.
   */
  lemma OnlyWhatWasShown(states: seq<Issue<Board>>, events: seq<Event>, n: nat)
    requires Run(states, events) && Blank(states[0]) && n < |events|
    ensures Grew(states[n], events[n], states[n + 1])
  {
    RunKeeps(states, events, n);
    assert StepAt(states, events, n);
    StepKeeps(states[n], events[n], states[n + 1]);
  }

  /** Nothing is lost from the journal or the comments. */
  ghost predicate Later(s: Issue<Board>, t: Issue<Board>) {
    s.body.journal <= t.body.journal && s.comments <= t.comments
  }

  lemma StepIsLater(states: seq<Issue<Board>>, events: seq<Event>, n: nat)
    requires Run(states, events) && Blank(states[0]) && n < |events|
    ensures Later(states[n], states[n + 1])
  {
    OnlyWhatWasShown(states, events, n);
  }

  /** Over a run, every earlier journal is a prefix of every later one, and so are the comments. */
  lemma {:induction false} JournalOnlyGrows(states: seq<Issue<Board>>, events: seq<Event>, m: nat, n: nat)
    requires Run(states, events) && Blank(states[0]) && m <= n < |states|
    ensures Later(states[m], states[n])
    decreases n
  {
    if m < n {
      JournalOnlyGrows(states, events, m, n - 1);
      StepIsLater(states, events, n - 1);
    }
  }

  /** A flag never lies: an announced question and an announced draft have their comments in the log. */
  lemma AnnouncedWasPosted(states: seq<Issue<Board>>, events: seq<Event>, n: nat)
    requires Run(states, events) && Blank(states[0]) && n < |states|
    ensures var b := states[n].body;
      (b.open.Some? && b.open.value.announced ==> AskedIn(states[n].comments, b.open.value)) &&
      (b.draft.Some? && b.draft.value.announced ==>
        ShownIn(states[n].comments, b.draft.value.questionId, b.draft.value.interpretation))
  {
    RunKeeps(states, events, n);
  }

  // ---------------------------------------------------------------------------------------------
  // The waiting label

  ghost predicate NoDrop(effects: seq<Effect<Board>>) {
    forall k :: 0 <= k < |effects| ==> !effects[k].DropLabel?
  }

  /** A script takes no label off, or it settles, or no question is open. */
  ghost predicate DropsLast(b: Board, effects: seq<Effect<Board>>) {
    || NoDrop(effects)
    || (|effects| == 2 && effects[0].SetBody? && effects[0].body.open == None && effects[1] == DropLabel(WAITING))
    || (effects == [DropLabel(WAITING)] && b.open == None)
  }

  lemma ConfirmDropsLast(b: Board, q: Question, answer: string, reply: Reply)
    ensures DropsLast(b, ConfirmText(b, q, answer, reply).effects)
  {
  }

  lemma AnswerDropsLast(s: Issue<Board>, questionId: string, text: string, commentId: Option<int>, reply: Reply)
    ensures DropsLast(s.body, Answer(s, questionId, text, commentId, reply).effects)
  {
    if s.body.open.Some? { ConfirmDropsLast(s.body, s.body.open.value, Trim(text), reply); }
  }

  lemma ScriptDropsLast(s: Issue<Board>, e: Event)
    requires !e.Editing?
    ensures DropsLast(s.body, ScriptOf(s, e).effects)
  {
    match e
    case Asking(kind, text, options) =>
    case Answering(questionId, text, commentId, reply) => AnswerDropsLast(s, questionId, text, commentId, reply);
    case Closing(criterion) =>
  }

  lemma {:induction false} LabelStays(s: Issue<Board>, effects: seq<Effect<Board>>)
    requires NoDrop(effects) && WAITING in s.labels
    ensures WAITING in Apply(s, effects).labels
    decreases |effects|
  {
    if effects != [] { LabelStays(s, effects[..|effects| - 1]); }
  }

  /**
   * However an attempt is cut short, it takes the waiting label off only together with the question: as long as a
   * question is open that had the label, the label says so.
   */
  lemma LabelGoesLast(s: Issue<Board>, e: Event, s': Issue<Board>)
    requires Step(s, e, s') && !e.Editing? && WAITING in s.labels
    ensures WAITING in s'.labels || s'.body.open == None
  {
    var effects := ScriptOf(s, e).effects;
    var done: nat :| Attempt(s, e, done, s');
    ScriptDropsLast(s, e);
    LabelGoesWith(s, effects, done);
  }

  lemma LabelGoesWith(s: Issue<Board>, effects: seq<Effect<Board>>, done: nat)
    requires DropsLast(s.body, effects) && done <= |effects| && WAITING in s.labels
    ensures WAITING in Apply(s, effects[..done]).labels || Apply(s, effects[..done]).body.open == None
  {
    if NoDrop(effects) {
      LabelStays(s, effects[..done]);
    } else if done == 2 {
      assert effects[..2][..1] == [effects[0]] && [effects[0]][..0] == [];
      assert Apply(s, [effects[0]]) == Do(s, effects[0]);
    } else if done == 1 {
      assert effects[..1] == [effects[0]] && [effects[0]][..0] == [];
      assert Apply(s, [effects[0]]) == Do(s, effects[0]);
    }
  }
}
