/** The records of a task inside the body of its issue. */
module Bodies {
  import opened Blocks
  import opened Chars
  import opened Documents
  import opened Fences
  import opened Frames
  import opened Json
  import opened Records
  import opened Repairs
  import opened Texts

  function ReadOpen(body: string): Option<Question> {
    match Read(body, Asked) case Ok(payload) => ParseQuestion(payload) case Err(_) => None
  }

  function WriteOpen(body: string, q: Question): Result<string> {
    Write(body, Asked, RenderQuestion(q))
  }

  function MarkAnnounced(body: string, q: Question): Result<string> {
    WriteOpen(body, q.(announced := true))
  }

  function ClearOpen(body: string): Result<string> {
    Strip(body, Asked)
  }

  function ReadJournal(body: string): seq<Decision> {
    match Read(body, Answers) case Ok(payload) => ParsedJournal(payload) case Err(_) => []
  }

  /** The journal block holds something that is not a list. */
  predicate Corrupted(raw: Option<string>) {
    raw.Some? && Trim(raw.value) != "" && !(Unwrap(raw).Some? && Unwrap(raw).value.Arr?)
  }

  function AppendDecision(body: string, d: Decision): Result<string> {
    var raw :- Read(body, Answers);
    if Corrupted(raw) then Err(CorruptedJournal)
    else Write(body, Answers, RenderJournal(ParsedJournal(raw) + [d]))
  }

  function ReadDraft(body: string): Option<Draft> {
    match Read(body, Drafted) case Ok(payload) => ParseDraft(payload) case Err(_) => None
  }

  /** The body with the draft; a damaged draft block is thrown away first, marked content is refused. */
  function WriteDraft(body: string, d: Draft): Result<string> {
    var r := Write(body, Drafted, RenderDraft(d));
    if r == Err(DamagedBlock) then Write(DiscardDraft(body), Drafted, RenderDraft(d)) else r
  }

  function MarkDraftAnnounced(body: string, d: Draft): Result<string> {
    WriteDraft(body, d.(announced := true))
  }

  function ClearDraft(body: string): string {
    match Strip(body, Drafted) case Ok(b) => b case Err(_) => DiscardDraft(body)
  }

  // ---------------------------------------------------------------------------------------------
  // Any body at all

  /** A question written is the question read, on any body. */
  lemma ReadAfterWriteOpen(body: string, q: Question)
    requires WriteOpen(body, q).Ok?
    ensures ReadOpen(WriteOpen(body, q).value) == Some(q)
  {
    ReadAfterWrite(body, Asked, RenderQuestion(q));
    QuestionRoundTrip(q);
  }

  /** The journal of any body only grows: appending refuses, or it adds exactly the new decision at the end. */
  lemma AppendDecisionGrows(body: string, d: Decision)
    ensures AppendDecision(body, d).Ok? ==>
      ReadJournal(AppendDecision(body, d).value) == ReadJournal(body) + [d]
    ensures AppendDecision(body, d).Ok? <==>
      Read(body, Answers).Ok? && !Corrupted(Read(body, Answers).value) && Unmarked(RenderJournal(ReadJournal(body) + [d]))
  {
    if Read(body, Answers).Ok? && !Corrupted(Read(body, Answers).value) {
      var ds := ParsedJournal(Read(body, Answers).value) + [d];
      WriteRefuses(body, Answers, RenderJournal(ds));
      if Write(body, Answers, RenderJournal(ds)).Ok? {
        ReadAfterWrite(body, Answers, RenderJournal(ds));
        JournalRoundTrip(ds);
      }
    }
  }

  /** A damaged draft does not stop the next one, and the other records of the body are read as before. */
  lemma WriteDraftRecovers(body: string, d: Draft)
    requires d.interpretation.Obj? && Textual(d.interpretation) && Unmarked(RenderDraft(d))
    requires OwnLines(body, Mark(Drafted, true)) && OwnLines(body, Mark(Drafted, false))
    ensures WriteDraft(body, d).Ok? && ReadDraft(WriteDraft(body, d).value) == Some(d)
    ensures Match(body, Drafted).Damaged? ==> forall m: Name ::
      m != Drafted && Match(body, m) != Damaged && (Match(body, m).Present? ==> ClearOf(Match(body, m).content, Drafted)) ==>
        Read(WriteDraft(body, d).value, m) == Read(body, m)
  {
    var c := RenderDraft(d);
    DraftRoundTrip(d);
    WriteRefuses(body, Drafted, c);
    if Match(body, Drafted).Damaged? {
      DiscardMends(body, c);
    } else {
      ReadAfterWrite(body, Drafted, c);
    }
  }

  // ---------------------------------------------------------------------------------------------
  // Good bodies: what each change does to each record

  /** The records of `b` are those of `body`, except for the ones that may differ. */
  ghost predicate SameRecords(body: string, b: string, question: bool, journal: bool, draft: bool) {
    (question ==> ReadOpen(b) == ReadOpen(body)) &&
    (journal ==> ReadJournal(b) == ReadJournal(body)) &&
    (draft ==> ReadDraft(b) == ReadDraft(body))
  }

  lemma RecordsOfSlots(body: string, b: string)
    requires Good(body) && Good(b)
    ensures SameRecords(body, b, Slot(b, Asked) == Slot(body, Asked), Slot(b, Answers) == Slot(body, Answers),
                        Slot(b, Drafted) == Slot(body, Drafted))
  {
    ReadIsSlot(body, Asked);
    ReadIsSlot(b, Asked);
    ReadIsSlot(body, Answers);
    ReadIsSlot(b, Answers);
    ReadIsSlot(body, Drafted);
    ReadIsSlot(b, Drafted);
  }

  lemma WriteOpenGood(body: string, q: Question)
    requires Good(body) && WriteOpen(body, q).Ok?
    ensures var b := WriteOpen(body, q).value;
      Good(b) && ReadOpen(b) == Some(q) && SameRecords(body, b, false, true, true) && Slot(b, HowToDemo) == Slot(body, HowToDemo)
  {
    WriteGood(body, Asked, RenderQuestion(q));
    RecordsOfSlots(body, WriteOpen(body, q).value);
    ReadAfterWriteOpen(body, q);
  }

  lemma ClearOpenGood(body: string)
    requires Good(body)
    ensures ClearOpen(body).Ok?
    ensures var b := ClearOpen(body).value;
      Good(b) && ReadOpen(b) == None && SameRecords(body, b, false, true, true) && Slot(b, HowToDemo) == Slot(body, HowToDemo)
  {
    StripGood(body, Asked);
    RecordsOfSlots(body, ClearOpen(body).value);
  }

  lemma AppendDecisionGood(body: string, d: Decision)
    requires Good(body) && AppendDecision(body, d).Ok?
    ensures var b := AppendDecision(body, d).value;
      Good(b) && ReadJournal(b) == ReadJournal(body) + [d] && SameRecords(body, b, true, false, true) &&
      Slot(b, HowToDemo) == Slot(body, HowToDemo)
  {
    AppendDecisionGrows(body, d);
    WriteGood(body, Answers, RenderJournal(ParsedJournal(Read(body, Answers).value) + [d]));
    RecordsOfSlots(body, AppendDecision(body, d).value);
  }

  lemma WriteDraftGood(body: string, d: Draft)
    requires Good(body) && WriteDraft(body, d).Ok? && d.interpretation.Obj? && Textual(d.interpretation)
    ensures var b := WriteDraft(body, d).value;
      Good(b) && ReadDraft(b) == Some(d) && SameRecords(body, b, true, true, false) && Slot(b, HowToDemo) == Slot(body, HowToDemo)
  {
    assert InPlace(body, Drafted);
    WriteGood(body, Drafted, RenderDraft(d));
    RecordsOfSlots(body, WriteDraft(body, d).value);
    ReadAfterWrite(body, Drafted, RenderDraft(d));
    DraftRoundTrip(d);
  }

  lemma ClearDraftGood(body: string)
    requires Good(body)
    ensures var b := ClearDraft(body);
      Good(b) && ReadDraft(b) == None && SameRecords(body, b, true, true, false) && Slot(b, HowToDemo) == Slot(body, HowToDemo)
  {
    StripGood(body, Drafted);
    RecordsOfSlots(body, ClearDraft(body));
  }

  lemma PlaceGood(body: string, answer: string)
    requires Good(body) && Write(body, HowToDemo, answer).Ok?
    ensures var b := Write(body, HowToDemo, answer).value;
      Good(b) && SameRecords(body, b, true, true, true) && Slot(b, HowToDemo) == Some(answer)
  {
    WriteGood(body, HowToDemo, answer);
    RecordsOfSlots(body, Write(body, HowToDemo, answer).value);
  }
}
