# Issue protocol, verified

The pipeline runs an issue from its creation to its release. Where it needs a person it asks a question in the
issue, takes the answer, shows what it made of it, waits for a confirmation and records the decision. Everything it
remembers about that lives in one Markdown text, the body of the issue, next to a log of comments and a set of
labels. The text is changed by remote calls, each of which may fail before or after it took effect, and the whole
activity is then run again with the same arguments.

This project models that protocol in two layers and proves what it promises over every run:

- **The text.** Named blocks are found in, written into and cut out of a string by counting their markers
  (`Texts`, `Frames`, `Blocks`, `Documents`, `Repairs`), `Damage` also in bodies some of whose blocks are damaged;
  records are printed as JSON inside one code fence inside a block and parsed back (`Json`, `Fences`, `Records`,
  `Journal`, `Bodies`), also when they were edited by hand (`HandEdits`); the gate reads the criterion (`Criterion`).
  `Words` says what trimming and small letters do to the characters of a text.
- **The steps.** `Protocol` says over plain records (a *board*) what each activity writes, in order, and how it
  ends: its *script*; `Commands` says, letter by letter, which answers choose, confirm or name a lost question.
  `Scripts` says the same over the text. The class `Forge` is the host with its calls that fail and the activities
  as methods over it; each is proved to make some first part of the writes of its script, and all of them when it
  ends by itself. `Refusals` and `Progress` say exactly when a script raises by itself, also on bodies with damaged
  blocks, and `Retries` that it then leaves the body as it was, so that a retry with the same arguments, of which the
  model makes the same, raises again. `Refinement` proves that the scripts over text do to the records what the
  scripts over the board say. `Runs` proves the invariants of all runs over the board, `Convergence` what retries
  lead to, `Verdicts` what each verdict tells of what was done, `LeftDrafts` what becomes of a draft that outlives its
  question and `OneQuestion` what an identifier names; `TextRuns`, `TextConvergence`, `TextLeftDrafts` and
  `TextOneQuestion` carry all that down to the text, and `Footprint` says what of the text no activity touches.

Four smaller parts stand by themselves: `PlanGraph` (the items of a plan and its loops), `ReportWindow` (the window
against repeated reports), `Lifecycle` and `PhaseLabels` (phases, their table and their label on the host) and
`Estimation` with `EstimateFormula` (the arithmetic of an estimate, and what each of its numbers is).

## Assumptions

- Between the read of the body and the last write of one attempt nobody else edits the body. The code has nothing
  that would notice such an edit.
- Between attempts people may change the text outside the blocks, the labels and the content of the other blocks, add
  comments, and take the whole question or the whole draft out. They do not edit the journal or remove comments, and
  they leave every block on lines of its own with no marker in its content.
- What the language model makes of an answer is a parameter: any interpretation, or a failure. So is the search for
  a criterion under a heading (`section`), and the label that says a development agent is at work (`indicator`).
- The host takes labels that differ only in case for one label; a label stands here under its name in small letters.

## What does not hold

- Cutting a block out of a body can make a new marker out of the two texts it joins, and so damage another block
  (`Repairs.StripCanSplice`); and it takes a block that stands inside it along (`Repairs.StripTakesInner`). On any body
  it keeps the reading of a block that is not damaged exactly when no marker of either stands in the other and the two
  texts make no marker across the joint (`Repairs.StripKeepsIff`); with unmarked blocks on lines of their own that is
  always so (`Blocks.StripGood`).
- A question whose block was half deleted by hand reads as none, and every call to ask then raises, and so does every
  retry (`Progress.HalfDeletedRaises`); exactly when a call raises: `Progress.AskReturnsIff`, `Progress.AnswerReturnsIff`.
- Throwing the markers of a damaged draft away can leave one: a marker split by another one becomes whole, and no draft
  can be written into such a body any more (`Repairs.DiscardCanLeave`, `Progress.SplitDraftRaises`). It happens exactly
  when a joint of the text makes a marker (`Repairs.DiscardLeavesIff`); with markers on lines of their own it never does
  (`Repairs.DiscardLeavesNone`).
- When a question is asked again because its block was lost, and the attempt fails after the body was written, the
  retry does not ask again but calls the command late (`Convergence.ReaskRetry`, and in the text
  `TextConvergence.ReaskRetryInText`). If it failed before the comment, nobody is told of the new question.
- A free answer that is itself a word of confirmation makes a draft, and a retry of that same call then confirms its
  own draft; exactly those words do (`Convergence.RetryConfirmsItselfIff`, and in the text
  `TextConvergence.RetryConfirmsItselfInText`). "yes" is one (`Convergence.YesConfirms`).
- A draft left from a question that is gone is meant neither to confirm another one nor to intercept its answers
  (`shared/questions.py:356-365`). It is bound by identifier, and when a question's block is taken out of the body, the
  next question of that kind gets the same identifier. If the draft was shown, the first word of confirmation decides the
  other question by it (`LeftDrafts.FirstYesDecidesIff`, `LeftDrafts.DraftDecidesAnother`; in the text
  `TextLeftDrafts.DraftDecidesAnotherInText`). If it was not flagged as shown, the first free answer to the other
  question, whatever it says, is answered by showing that draft, the model not asked (`LeftDrafts.HiddenDraftIntercepts`),
  and the next word of confirmation decides by it (`TextLeftDrafts.HiddenDraftDecidesAnotherInText`). A question can be
  decided as no answer to it was understood exactly when the body held a draft under its identifier, shown or not, before
  it was asked (`LeftDrafts.ForeignDecidesIff`; in the text `TextLeftDrafts.OnlyOwnDraftInText` and
  `TextLeftDrafts.TwoYesInText`).
- For the same reason an answer by number can decide another question than it was given for, by an option of that other
  one, though a late answer is meant to be refused (`worker/activities.py:602-616`): `OneQuestion.NumberDecidesAnother`,
  in the text `TextOneQuestion.NumberDecidesAnotherInText`. As long as no edit takes an open question out of the body,
  an identifier names one question (`OneQuestion.IdNamesOneQuestion`).
- `set_labels` says it never leaves a moment without a phase label. Once its POST took effect that is so
  (`PhaseLabels.SetPhase`). When the POST fails it still deletes the old labels, and then none is left
  (`PhaseLabels.PhaseMayBeLost`, exactly when: `PhaseLabels.PhaseStaysIff`).
- The next question identifier can clash with one in the journal (`Journal.NextIdCanClash`): exactly when an entry of
  another kind stands under it (`Journal.NextIdTakenIff`). The identifiers of a kind stay new however the journal goes
  on exactly when no entry of another kind stands under one of this kind above the largest number taken
  (`Journal.NewForeverIff`). No run of the protocol leads to such an entry (`Journal.NextIdFresh`, `Runs.NoDoubleDecision`).

## Model

| member | source | states |
|---|---|---|
| Blocks.MatchIff | shared/issue_blocks.py:53-76 | a block can be read exactly when the body is some text, the block, and some text, with none of its markers elsewhere; then these are the parts found |
| Blocks.MatchAbsent | shared/issue_blocks.py:53-76 | a block counts as absent exactly when the body holds neither of its markers |
| Blocks.ReadAfterWrite | shared/issue_blocks.py:79-149 | on any body whatsoever, what was written is read back to the letter |
| Blocks.WriteOverWrite | shared/issue_blocks.py:116-149 | on any body, a second write gives the very text that it gives without the first |
| Blocks.WriteRefuses | shared/issue_blocks.py:79-149 | a write is refused exactly for content that holds a marker of any block, or else for a damaged block, with the right error; reading and cutting refuse exactly on a damaged block |
| Blocks.StripAfterWrite | shared/issue_blocks.py:116-210 | cutting out what was just written gives the body without the block, up to line ends at its end |
| Blocks.WriteGood | shared/issue_blocks.py:116-149 | on a body whose blocks are readable, unmarked inside and on lines of their own, a write is refused only for marked content, sets its own block, keeps every other, and leaves such a body |
| Blocks.StripGood | shared/issue_blocks.py:185-210 | on such a body a cut never fails, removes its own block, keeps every other, and leaves such a body |
| Damage.WriteApart | shared/issue_blocks.py:116-149 | on a body whose readable blocks hold no marker, wherever they stand, the others damaged in any way, a write sets its own block and leaves the reading of every other as it was, damaged ones damaged |
| Damage.StripOrderly | shared/issue_blocks.py:185-210 | the same for a cut, which removes its own block, when the readable blocks stand on lines of their own |
| Documents.BodyIsMap | shared/issue_blocks.py:53-210 | from a body without markers, after any series of writes and cuts over the six names, every read agrees with a finite map under the same operations, and the text outside the blocks is the first text and line ends |
| Repairs.CutsCommute | shared/issue_blocks.py:185-210 | on any body, two blocks neither of whose cuts changes how the other is read (exactly when: `Repairs.StripKeepsIff`) can be cut out in either order, with the same text left |
| Repairs.StripKeepsIff | shared/issue_blocks.py:185-210 | on any body, a cut keeps the reading of a block that is not damaged if and only if no marker of either stands in the content of the other and the two texts joined make no marker of that block across the joint |
| Repairs.StripTakesInner | shared/issue_blocks.py:185-210 | a block inside another goes with it, though nothing is spliced |
| Repairs.StripCanSplice | shared/issue_blocks.py:210 | a body in which a cut damages a block that was not there |
| Repairs.RemoveMakesNone | shared/issue_blocks.py:152-182 | taking out markers that stand on lines of their own, however many and in whatever order, leaves none and makes no other |
| Repairs.DiscardLeavesNone | shared/issue_blocks.py:152-182 | discarding a draft whose markers stand on lines of their own leaves no marker of it, and no block that was absent is there after it |
| Repairs.DiscardLeavesIff | shared/issue_blocks.py:152-182 | on any body, discarding the draft leaves a marker of it if and only if a joint makes one: of the texts around a start marker taken out, a start marker, or of those around an end marker taken out then, either |
| Repairs.DiscardMakesIff | shared/issue_blocks.py:152-182 | a marker of another block that was not there is made by it exactly when a joint makes it |
| Repairs.DiscardCanLeave | shared/issue_blocks.py:182 | a body with a marker split by another one: discarding leaves the split one, whole, and the block damaged |
| Repairs.DiscardMends | shared/issue_blocks.py:152-182 | after that a draft can be written and is read back, and every readable block without a marker of the draft is read as before |
| Chars.TrailingNumberOfId | shared/questions.py:212-239 | the number read from an identifier is the one it was made with |
| Chars.MakeIdInjective | shared/questions.py:215-239 | identifiers of different kinds or numbers differ |
| HandEdits.NumberedIff | shared/questions.py:212-239 | an identifier, whoever wrote it, has the number `n` exactly when it ends in a hyphen and digits that stand for `n`, with a line end after them or not |
| Json.ParsePrint | shared/questions.py:111-140 | JSON printed with indentation parses back to the same value, whatever texts it holds, and parsing stops right after it (escapes as in section 7 of RFC 8259) |
| Json.PrintUnfenced | shared/questions.py:111-140 | no line of printed JSON starts with a backtick, whatever texts it holds |
| Fences.UnwrapWrap | shared/questions.py:111-140 | of a wrapped value exactly one code fence is found, and the value in it is the one wrapped |
| Records.QuestionRoundTrip | shared/questions.py:143-174 | a question with any texts, options and flag comes back as it was rendered |
| Records.ParseJournal | shared/questions.py:184-209 | the records kept stand, in order, at exactly the places of the list where a readable record stands, with what it says |
| Records.JournalRoundTrip | shared/questions.py:177-209 | a journal of any length and any texts comes back as it was rendered |
| Records.DraftRoundTrip | shared/questions.py:381-411 | a draft comes back as it was rendered, with its interpretation |
| Records.DumpLoad | shared/answer_interpretation.py:20-38 | an interpretation survives being kept in a draft exactly when its answer is not blank |
| HandEdits.TwoRecordsAreNone | shared/questions.py:116-140 | two records in one block, whatever text without backticks stands between them, are read as none; neither is taken for the other |
| HandEdits.PlainTextIsNone | shared/questions.py:116-140 | text without a backtick is no record |
| HandEdits.QuestionRead | shared/questions.py:150-174 | a question record with its keys in any order, others between them or keys doubled (the last counts) is read; one without options or without the flag of announcement, as an older version wrote it, has no options or is not announced |
| HandEdits.QuestionNeeds | shared/questions.py:165-174 | without an object, or without identifier, kind or text in it, there is no question |
| HandEdits.DecisionRead | shared/questions.py:184-209 | the same for a decision, which supersedes nothing when that key is missing or null |
| HandEdits.DecisionNeeds | shared/questions.py:195-208 | a record of the journal is left out exactly when it is no object or one of its four keys is missing |
| HandEdits.DraftRead | shared/questions.py:390-411 | the same for a draft, which is not announced when the flag is missing |
| HandEdits.DraftNeeds | shared/questions.py:390-411 | a draft that does not name its question or holds no interpretation is none |
| HandEdits.InterpretationRead | shared/answer_interpretation.py:27-38 | an interpretation without the key of amendments amends nothing; with a blank answer it is none |
| HandEdits.AmendmentSpoils | shared/answer_interpretation.py:20-38 | one amendment without its identifier or its answer spoils the whole interpretation |
| HandEdits.SpacePassed | shared/questions.py:135-140 | blanks, tabs and line ends between the parts of JSON are passed over, as section 2 of RFC 8259 allows, and nothing else is |
| HandEdits.NumberRead | shared/questions.py:135-140 | a number with a sign or none and a fraction or none is read to its end (section 6 of RFC 8259) |
| Journal.NextQuestionId | shared/questions.py:215-239 | the loop gives the identifier with the number after the largest taken; it is in no entry exactly when none of another kind stands under it |
| Journal.NextIdTakenIff | shared/questions.py:215-239 | on any journal, the next identifier is taken if and only if an entry of another kind stands under it |
| Journal.NewForeverIff | shared/questions.py:215-239 | however decisions under generated identifiers go on, of whatever kinds, the next identifier of a kind stays new forever if and only if no entry of another kind stands under an identifier of this kind above the largest number taken |
| Journal.NextIdFresh | shared/questions.py:215-239 | when every identifier in the journal has the form of its own kind, as in every run, the next one is new |
| Journal.NextIdCanClash | shared/questions.py:215-239 | a journal with an entry of another kind under the next identifier, which clashes |
| Journal.IndexById | shared/questions.py:242-265 | the index holds for every identifier its last place |
| Journal.SupersededIndices | shared/questions.py:242-265 | the set filled in the loop holds exactly the places that an entry after them names |
| Journal.Effective | shared/questions.py:242-265 | the two loops compute the decisions in force |
| Journal.EffectiveKeepsLast | shared/questions.py:242-265 | whatever the references, cyclic, dangling or repeated, the decisions in force are a subsequence of the journal that ends with its last entry |
| Journal.EffectiveAfter | shared/questions.py:242-265 | with distinct identifiers, a new decision takes exactly the one it names out of force and comes last |
| Journal.EffectiveGrows | shared/questions.py:242-265 | with distinct identifiers, several decisions added at once, which name older entries if any, take exactly those out of force and are all in force themselves |
| Bodies.ReadAfterWriteOpen | shared/questions.py:290-309 | on any body, the question written is the question read |
| Bodies.AppendDecisionGrows | shared/questions.py:545-590 | on any body, appending either refuses, exactly when the block is corrupted (see the next two rows) or damaged or the new content marked, or the journal read is the old one and the decision, even when the old block holds records the parser skips |
| HandEdits.UnusableIsKept | shared/questions.py:565-590 | on any body, a decision is refused for a corrupted journal exactly when the undamaged journal block holds something else than white space, and not one code fence alone with a JSON list in it |
| HandEdits.TextIsKept | shared/questions.py:565-590 | so with any text in the block without a backtick that is not blank; a blank one is an empty journal |
| Bodies.WriteDraftRecovers | shared/questions.py:437-502 | a damaged draft block whose markers have their own lines does not stop the next draft, which is read back; other blocks are read as before |
| Criterion.ExposeKeepsApproved | shared/howtodemo.py:118-249 | a body with an approved criterion and the exposed body give the gate the same criterion |
| Criterion.ReadsSection | shared/howtodemo.py:151-180 | with the approved block absent or damaged, the gate reads what the search for a section finds in the body |
| Criterion.ReadsBlock | shared/howtodemo.py:151-170 | with a block of white space alone, what the search finds in the body without that block; with any other, the block, trimmed |
| Criterion.ExposePutsOnTop | shared/howtodemo.py:211-249 | the criterion read, approved or found in a section, is put on top of the body under its heading, the whole body after it; without one the body stays |
| Forge.Forge.AskQuestion | worker/activities.py:292-397 | whatever calls fail, an attempt makes the first writes of the script of asking, in order; without a failed call it ends by itself, having made all, as the script says |
| Forge.Forge.AnswerQuestion | worker/activities.py:478-642 | the same for an answer, in all its branches: late, lost, known, empty, a choice, a confirmation, a draft; which one it is, and what it leaves: the rows of `Commands` and `Verdicts` |
| Forge.Forge.ConfirmFreeText | worker/activities.py:1008-1091 | the same for a free answer; which texts confirm: `Commands.ConfirmationIff` |
| Forge.Forge.ApplyInterpretation | worker/activities.py:1094-1136 | the same for a confirmed interpretation: one write of the body holds the decision and all amendments, then the label goes |
| Forge.Forge.RecordDecision | worker/activities.py:434-474 | the same for a decision, with or without a place in the criterion block |
| Forge.Forge.PostDraft | worker/activities.py:973-1005 | the same for a draft: the comment first, the flag after it |
| Forge.Forge.CloseAnsweredByBodyEdit | worker/activities.py:764-823 | the same for a question answered by an edit of the body, and for the label an earlier attempt left; what is recorded: `Progress.CloseRecordsSection` |
| Forge.Forge.ReadOpenQuestionId | worker/activities.py:646-662 | gives the identifier of the open question, or the empty text, and changes nothing |
| Forge.Amended | worker/activities.py:1106-1134 | the loop over amendments carries the body from one to the next and stops at the first refusal |
| Commands.ConfirmationIff | worker/activities.py:955-970 | a text is a confirmation exactly when it is one of the fifteen words in any letter case, with blanks, tabs and marks `.!?,;:` around it, and white space around that |
| Commands.ConfirmationWords | worker/activities.py:955-970 | a word with neither at its ends is one exactly when its small letters are one of the fifteen |
| Commands.CaseDoesNotMatter | worker/activities.py:970 | small and capital letters make no difference |
| Commands.MarksDoNotMatter | worker/activities.py:970 | nor do blanks, tabs and marks put around a text, in any number |
| Commands.SpaceDoesNotMatter | worker/activities.py:970 | nor does white space around it |
| Commands.DaConfirms | worker/activities.py:955-995 | the word the comment asks for confirms, also written "Да." |
| Commands.ChoiceIff | worker/activities.py:632-640 | an answer is a choice exactly when it is the number of an option, with zeros before it or none, of at most four digits |
| Commands.NumberIsChoice | worker/activities.py:632-640 | the plain decimal number of an option, up to 9999, is a choice, of that option |
| Commands.KindIs | worker/activities.py:565 | the kind an identifier speaks of is all before its last hyphen; one without a hyphen is its own kind, and of no text the kind is "answer" |
| Commands.RevivedIs | worker/activities.py:565-580 | the question asked in place of the `n`th of a kind has that kind, the text that says so, no options, and the number after the largest of `n` and those taken in the journal |
| Commands.WasAnswerIs | shared/answer_interpretation.py:55-71 | the comment with an interpretation shows, for each entry it amends, the answer of the last entry under that identifier, and a dash if there is none |
| Verdicts.VerdictIff | worker/activities.py:526-642 | which verdict an answer gets, each exactly when: empty, accepted, to be confirmed, asked again, no such question |
| Verdicts.AskVerdictIff | worker/activities.py:352-379 | asking refuses exactly on an open question of another kind, and then writes nothing; else it names the question that is open, or the next of the kind |
| Verdicts.EmptyTells | worker/activities.py:618-630 | an empty answer to the open question gets two reactions on its comment, and nothing else changes |
| Verdicts.NoQuestionTells | worker/activities.py:531-537 | an answer to no open question leaves the body and says in one comment whether none was asked or another one is open |
| Verdicts.AcceptedTells | worker/activities.py:434-474 | after an accepted answer its question is in the journal, none is open, no label waits, and no comment was added |
| Verdicts.ConfirmTells | worker/activities.py:1008-1091 | an answer to be confirmed leaves journal, question and label, and adds exactly one comment: a draft not shown yet is shown; else what the model made of the answer, if it is not blank and amends only existing entries, becomes the draft and is shown; else people are told that nothing was understood |
| Verdicts.ReaskedTells | worker/activities.py:565-600 | a question asked again is of the kind of the lost one, without options, numbered past it, and announced |
| Verdicts.NumberDecides | worker/activities.py:632-640 | the plain number of an option, retried after any failures, leaves exactly one decision more, for that option |
| Refusals.PrintFree | shared/questions.py:111-140 | printed JSON holds a text without quotes, backslashes and control characters that starts with `<` exactly when one of its strings does |
| Refusals.QuestionUnmarkedIff | shared/issue_blocks.py:116-149 | a question can be written into a body unless one of its own texts holds a marker of any block |
| Refusals.JournalUnmarkedIff | shared/issue_blocks.py:116-149 | the same for a journal and the texts of its decisions |
| Refusals.DraftUnmarkedIff | shared/issue_blocks.py:116-149 | the same for a draft and the texts of its interpretation |
| Progress.AskReturnsIff | worker/activities.py:352-397 | on any body, asking raises exactly on an open question of another kind, on a damaged question block, or for a marker in a text it has to write, and then leaves the body as it was |
| Progress.HalfDeletedRaises | shared/issue_blocks.py:53-76 | with one marker of the question left in the body, asking raises, whatever the question |
| Progress.AnswerReturnsIff | worker/activities.py:478-642 | any of the blocks may be damaged, and the readable ones, which hold no marker, may share their lines with other text: answering raises exactly when the branch it takes has to write a text with a marker, to write into or cut out a damaged block, to add to a journal that is not one, or to use a draft that is none; then the body is not written |
| Progress.AppliedIff | worker/activities.py:1094-1136 | a confirmed interpretation is applied, all of it, exactly when, in the body without the draft, the journal is one, no text of the journal it leads to holds a marker, and neither the question nor, if a decision has its place there, the criterion block is damaged |
| Progress.CloseReturnsIff | worker/activities.py:764-823 | the same for closing by an edit of the body, which does not touch the criterion block |
| Progress.CloseRecordsSection | worker/activities.py:822-823 | on a body whose criterion block is absent or damaged, closing that returns adds to the journal the decision whose answer is what the search finds in the body |
| Progress.OtherReplyReturns | worker/activities.py:1070-1091 | a free answer that raises because what the model understood holds a marker does not raise when the model makes nothing of it |
| Progress.SplitDraftRaises | shared/questions.py:489-502 | on a body with a draft marker split by another one no draft can be written |
| Retries.RaisesAgain | worker/activities.py:292-823 | on any body, a call that raises leaves the body as it was, however far it got, and a retry with the same arguments and the same reply raises the same |
| Refinement.AskRefines | worker/activities.py:292-397 | on a fit body, the script of asking over text writes bodies that hold the records the board says, and ends alike unless it raises |
| Refinement.AnswerRefines | worker/activities.py:478-642 | the same for answering, in all its branches |
| Refinement.CloseRefines | worker/activities.py:764-823 | the same for closing |
| Runs.StepKeeps | worker/activities.py:292-823 | one attempt of any activity, cut short anywhere, or an edit by people, keeps the invariant: distinct well-formed identifiers, the open question undecided, flags only with their comments posted, drafts sound |
| Runs.NoDoubleDecision | worker/activities.py:352-616 | in every reachable state the identifiers in the journal are pairwise distinct and the open question's is not among them, so nothing repeated, late or retried decides a question twice |
| Runs.JournalOnlyGrows | worker/activities.py:465-474 | over a run every earlier journal is a prefix of every later one |
| Runs.OnlyWhatWasShown | worker/activities.py:961-1136 | what a step adds to the journal is the option chosen, the criterion in the body, or exactly what an interpretation says whose comment, under that question's identifier, was posted before; an answer's criterion goes into its block and nothing else touches the block |
| Runs.AnnouncedWasPosted | worker/activities.py:380-397 | a question or draft marked announced has its own comment in the log; for a question asked in place of a lost one, and only for such a one, the comment that says so |
| Runs.LabelGoesLast | worker/activities.py:467-474 | however an attempt of any activity is cut short, it takes the waiting label off only together with the open question |
| Runs.AppliedAdds | worker/activities.py:1094-1136 | a confirmed interpretation adds the decision on the question and one decision for each amendment, in order, each under a new identifier, on the question of the entry it amends, and superseding that entry |
| Runs.ConfirmedInForce | shared/questions.py:242-265 | after such decisions are added, those in force are the ones before without the amended entries, then the decision and the amendments |
| Runs.RevivedFresh | worker/activities.py:578-586 | the identifier of a question asked in place of a lost one is neither the lost one nor in the journal |
| Convergence.ChoiceConverges | worker/activities.py:540-640 | an answer by number: after any failed attempts, one that gets through leaves exactly one decision more, with the chosen option, no open question, no draft and no waiting label |
| Convergence.ConfirmationConverges | worker/activities.py:1008-1136 | a confirmation of a shown draft: the same, with the decision and the amendments each once |
| Convergence.ClosingConverges | worker/activities.py:764-823 | closing by an edit of the body: the same, with the criterion read |
| Convergence.AskingRun | worker/activities.py:352-397 | over any attempts to ask from no open question, the question that opens is always the same, and its comments number the attempts that posted it without recording that, plus one when it is marked announced |
| Convergence.AskingConverges | worker/activities.py:352-397 | an attempt to ask that gets through leaves that one question, announced, and the waiting label |
| Convergence.ReaskRetry | worker/activities.py:578-616 | after an attempt to ask again, cut short anywhere, a retry asks again if and only if nothing was written; otherwise it calls the command late and writes nothing else, also when the comment was never posted |
| Convergence.ReaskedIsNew | worker/activities.py:578-600 | a call that reports the question as asked again leaves the revived question open and announced, under a new identifier |
| Convergence.DraftingNeverDecides | worker/activities.py:1008-1091 | retries of an answer that neither chooses nor confirms never decide anything, whatever the model makes of it each time |
| Convergence.RetryConfirmsItselfIff | worker/activities.py:1050-1091 | when a free answer that meets a draft of its question, shown or hidden, or leads to one, and a retry of it both get through, the question is decided if and only if the text is a word of confirmation |
| Convergence.YesConfirms | worker/activities.py:955-970 | "yes" is such a word |
| LeftDrafts.FirstYesDecidesIff | worker/activities.py:1050-1057 | over the board, a word of confirmation as first answer to a new question decides it at once if and only if the body held, before it was asked, an announced draft under the identifier it gets; then by that draft |
| LeftDrafts.DraftsAreAnswers | worker/activities.py:1008-1091 | in every run that starts without a draft under an identifier, every draft that stands under it later is what the model made, in that run, of an answer under that identifier |
| LeftDrafts.OnlyOwnDraftDecides | shared/questions.py:356-365 | in such a run a free answer decides the question under that identifier only as the model made, in that run, of an answer under it |
| LeftDrafts.HiddenDraftIntercepts | worker/activities.py:1058-1063 | a draft under the identifier of the question that was not shown yet is shown in answer to any free text, whatever the model would make of it |
| LeftDrafts.TwoYesDecideIff | worker/activities.py:1050-1091 | a new question and two words of confirmation of which the model makes nothing, all through: the journal is another one if and only if the body held a draft under the identifier, shown or not, before the question was asked; then the question is decided as that draft says |
| LeftDrafts.ForeignDecidesIff | shared/questions.py:356-365 | from any sound state without an open question, for any question asked: there is a run in which a free answer decides it as no answer of the run under its identifier was understood if and only if the body held a draft under that identifier, shown or not |
| LeftDrafts.DraftDecidesAnother | shared/questions.py:356-365 | over the board, from any issue with nothing decided, a run of five steps in which an interpretation shown for one question decides another |
| TextRuns.RunRefines | worker/activities.py:292-823 | every run over the text is, step by step, a run over the board, and every body in it is fit |
| TextRuns.TextPromises | worker/activities.py:352-616 | from any body without markers, in every state of every run: every block readable, identifiers distinct, the open question undecided, and earlier journals prefixes of later ones, all as read from the text |
| TextRuns.TextOnlyWhatWasShown | worker/activities.py:961-1136 | in the text too, a step adds only what it accounts for |
| TextRuns.CriterionIsLastDecision | worker/activities.py:421-474 | after an answer that adds a criterion that is not blank, the gate reads in the body, and in the exposed body, that criterion, and it is the last one in the whole journal |
| TextConvergence.ChoiceInText | worker/activities.py:434-640 | an answer by number, retried from any state a run reaches: the journal read from the text has exactly that decision more, no question, no draft, no waiting label |
| TextConvergence.ConfirmationInText | worker/activities.py:1008-1136 | the same for a confirmation of a shown draft |
| TextConvergence.ConfirmationInForce | shared/questions.py:242-265 | and then the decisions in force are those before it without the amended entries, the decision and the amendments |
| TextConvergence.DraftingInText | worker/activities.py:1008-1091 | the same for an answer that neither chooses nor confirms: journal and question read the same after any attempts |
| TextConvergence.AskingInText | worker/activities.py:292-397 | the same for asking: the question stands in the text, announced, under the identifier the first attempt gave it |
| TextConvergence.AskingRunInText | worker/activities.py:352-397 | in the text too, over any attempts to ask the question that opens is always the same, and its comments number the attempts that posted it without recording that, plus one when the text marks it announced |
| TextConvergence.ReaskedInText | worker/activities.py:578-662 | the same for a question asked again: the revived one is read back, its identifier new |
| TextConvergence.ReaskedKindInText | worker/activities.py:565-600 | and it has the kind of the lost one, the text that says so, no options, and a number past it |
| TextConvergence.EmptyInText | worker/activities.py:618-630 | on any body, an empty answer to the question read as open is reported as empty, reacts twice and writes nothing |
| TextConvergence.VerdictInText | worker/activities.py:526-642 | an answer that gets through in a state a run reaches is reported as what the text holds says |
| TextConvergence.ConfirmInText | worker/activities.py:1008-1091 | an answer to be confirmed that gets through leaves in the text exactly that |
| TextConvergence.ReaskRetryInText | worker/activities.py:578-616 | in the text, a retry of an attempt to ask again comes back as asked again if and only if nothing was written and the new question holds no marker; once the body was written it calls the command late and writes nothing else |
| TextConvergence.RetryConfirmsItselfInText | worker/activities.py:1050-1091 | when a free answer that meets a draft of its question in the text, shown or hidden, or leads to one, and a retry of it both get through, the journal in the text is another one if and only if the answer is a word of confirmation |
| TextConvergence.ClosingInText | worker/activities.py:764-823 | the same for closing by an edit of the body, the decision holding the criterion the gate reads |
| TextConvergence.ClosingRecordsSection | worker/activities.py:822-823 | that criterion is what the search finds in the body if there is no approved block, what it finds in the rest if the block is blank, and else the block, trimmed |
| TextLeftDrafts.FirstYesInText | worker/activities.py:1050-1057 | when a question and a word of confirmation as its first answer both get through, the journal in the text is another one at once if and only if the text held, before the question was asked, a draft shown under the identifier it gets |
| TextLeftDrafts.OnlyOwnDraftInText | shared/questions.py:356-365 | in every run of the code that starts without a draft in the text under an identifier, a free answer decides the question under it only as the model made, in that run, of an answer under it |
| TextLeftDrafts.HiddenDraftInterceptsInText | worker/activities.py:1058-1063 | on any body, a draft under the identifier of the question that was not shown yet is shown in answer to any free text, whatever the model would make of it |
| TextLeftDrafts.TwoYesInText | worker/activities.py:1050-1091 | when a question and two words of confirmation of which the model makes nothing all get through, the journal in the text is another one if and only if the text held a draft under the identifier, shown or not, before the question was asked |
| TextLeftDrafts.DraftDecidesAnotherInText | shared/questions.py:356-365 | from every body without markers, for every kind, two question texts and interpretation without markers and amendments, a run of the code over the text in which the interpretation shown for one question is recorded as the decision on the other |
| TextLeftDrafts.HiddenDraftDecidesAnotherInText | worker/activities.py:990-1005 | from every such body and for the same inputs, a run of the code in which the attempt that drafts is cut short before the flag, the question taken out, and the draft shown for, and then recorded as the decision on, another question |
| OneQuestion.IdNamesOneQuestion | worker/activities.py:602-616 | over the board, in every run in which no edit takes an open question out, two questions open under one identifier, however far apart, have one kind, one text and the same options |
| OneQuestion.NumberDecidesAnother | worker/activities.py:602-616 | over the board, from any issue with nothing decided, for any two questions of one kind and any number of an option of the second, a run in which the first is taken out and the number, given for its identifier, decides the second |
| TextOneQuestion.IdNamesOneQuestionInText | worker/activities.py:602-616 | the same as the first of these for the questions read from the text, in every run of the code |
| TextOneQuestion.NumberDecidesAnotherInText | worker/activities.py:602-616 | a run of the code over the text that does the second, from every body without markers and for all questions without markers |
| Footprint.AttemptTouches | shared/issue_blocks.py:3-6 | however an attempt of any activity is cut short, on a body in order it changes no block but those of question, answers, draft and criterion, and of the text outside the blocks nothing but line ends at its end |
| Footprint.StepLeavesTheRest | worker/activities.py:292-823 | in every run from a body without markers, every step that is not an edit by people leaves the plan and growth blocks to the letter and the text outside the blocks up to line ends at its end |
| PlanGraph.Walk | shared/decomposition.py:110-124 | the recursive walk with its three colours: the grey nodes are exactly the path, so looking a grey node up in the path never fails; it ends, reports a true loop, or closes the node after all it depends on |
| PlanGraph.RejectCycles | shared/decomposition.py:110-127 | a plan of any size passes exactly when its graph has no loop; then there is an order in which every task comes after those it depends on, and otherwise the loop reported is one of the graph |
| PlanGraph.CheckItems | shared/decomposition.py:85-103 | the items pass exactly when every title is not blank, every release is one of `mvp`, `grow`, `support` up to letter case and white space, and every dependency is the index of another item; then they come back in their order, texts trimmed, releases in small letters, dependencies as they were; otherwise the error names a fault that the first faulty item has |
| PlanGraph.ReleaseIff | shared/decomposition.py:67-71 | the release of an item is accepted exactly when, white space around it aside and in small letters, it is one of the three |
| PlanGraph.ItemFault | shared/decomposition.py:86-103 | an item has an error exactly when it is faulty, and then the error names that fault |
| PlanGraph.Validate | shared/decomposition.py:74-107 | a plan passes exactly with one to twenty such items and no loop; an empty plan, and no other, is refused as empty, an oversized one, and no other, as too large, and else the error names a fault of the first faulty item, or a loop of the graph |
| PlanGraph.ScheduleMeansAcyclic | shared/decomposition.py:110-127 | a plan that can be carried out in some order has no loop |
| ReportWindow.Watcher.AlreadyReported | shared/nondeterminism.py:156-170 | a run is passed over exactly when it is among the latest 512 reported; queue and set hold the same identifiers, each once, the latest 512 at most |
| ReportWindow.ToldIsSpaced | shared/nondeterminism.py:156-170 | over any calls, two reports of one run are more than 512 reports apart |
| ReportWindow.ReportedAgain | shared/nondeterminism.py:156-170 | between two reports of one run at least 512 others were reported, all different |
| Lifecycle.ReachableFrom | shared/lifecycle.py:339-350 | for any finite table the search ends, finds exactly the phases some run leads to, and fails exactly when a run leads to a phase the table does not know |
| Lifecycle.MoveIsTransition | shared/lifecycle.py:313-332 | `transition` accepts exactly the moves the runs of the table make |
| Lifecycle.JourneyIsPath | shared/lifecycle.py:313-350 | the runs the search walks over the table are exactly the runs made of moves that `transition` accepts |
| Lifecycle.FinalIsLast | shared/lifecycle.py:63-239 | no run goes on from `released` or `cancelled` |
| Lifecycle.EveryReleaseIsShipped | shared/lifecycle.py:71-239 | every run from `created` to `released` ends with a pull request opened, perhaps reviewed, merged, tested and released |
| Lifecycle.OnlyPeopleCancel | shared/lifecycle.py:71-239 | every transition to `cancelled` is a person's |
| Lifecycle.PeopleCanCancel | shared/lifecycle.py:71-332 | a person can cancel from every phase but the two final ones, from which `transition` accepts nothing |
| Lifecycle.OnlyOutsideShips | shared/lifecycle.py:71-239 | review, merge, test and release are entered only by events from outside |
| Lifecycle.PeopleStartWork | shared/lifecycle.py:71-239 | only a person starts analysis, research or development of a classified issue |
| Lifecycle.PeoplePutBack | shared/lifecycle.py:71-239 | from spam, duplicate, answered, skipped, escalated and failed a person can put the issue back into a phase that is none of these and not final |
| Lifecycle.EveryPhaseIsReached | shared/lifecycle.py:71-239 | every phase is on some run from `created` |
| Lifecycle.EveryPhaseCanShip | shared/lifecycle.py:71-239 | from every phase but `cancelled` some run leads to `released` |
| Lifecycle.PhasesFromCreated | shared/lifecycle.py:339-350 | the search over the table finds every phase |
| PhaseLabels.SetLabels | worker/github_client.py:181-225 | whatever calls fail, the labels after are those before, the wanted ones if the POST took effect, without the stale ones whose removal did; it returns only if the POST did; the POST comes before any removal, and from then on the wanted labels stand at every moment between two calls |
| PhaseLabels.SetPhase | worker/activities.py:1140-1161 | the same with the label of the phase wanted, and those of all other phases and the sign of development stale |
| PhaseLabels.TouchesOnlyPhases | worker/activities.py:1140-1161 | nothing goes but labels of other phases and the sign of development, nothing comes but the target, and a call that returns leaves the target |
| PhaseLabels.PhaseStaysIff | worker/github_client.py:181-225 | a change to a known phase leaves a phase label if and only if its own was posted or was there, or the removal of another did not take effect |
| PhaseLabels.PhaseMayBeLost | worker/github_client.py:213-225 | failures that leave no phase label |
| PhaseLabels.PhaseOfIs | shared/lifecycle.py:295-306 | a label in any case is read as a phase exactly when it is the label of that phase |
| PhaseLabels.PhaseReadIff | shared/lifecycle.py:295-306 | the phase read from a list of labels is that of the only one that reads as a phase; of two such labels, even alike, none is read |
| PhaseLabels.ReadsBack | worker/activities.py:1140-1161 | whatever was there before, a call that returns with no failed removal leaves labels from which exactly the phase set is read |
| Estimation.Risks | worker/estimation.py:156-165 | the risks applied stand, in order, at exactly the places of the list where the rules know the risk named, with what the rules say of it |
| EstimateFormula.FailsBecause | worker/estimation.py:144-153 | with sane rules there is an estimate exactly for a known type of work and artifact, a unit with positive hours and positive function points; else the error names the first of these missing, and never a division or the order of the points |
| EstimateFormula.EstimateIsSound | worker/estimation.py:223-313 | an estimate stops exactly when one method gives more than one plus the largest divergence times the hours of the other, both as reported; else 0 < O < M < P, O < E < P and E is at most its buffered value |
| EstimateFormula.NumbersAre | worker/estimation.py:223-313 | every number reported, from the facts, the rules and the other numbers reported: tests, hours of both methods, divergence, O, M and P in hours, E and its buffer from the three points, and the story points |
| EstimateFormula.PointsAre | worker/estimation.py:191-196 | the story points are the value of the scale whose hours are nearest to M, the first of two, and above the scale its largest |
| EstimateFormula.WorkTypeScales | worker/estimation.py:226-313 | between any two known types of work the hours of both methods, O, M, P, E and its buffer are in the ratio of the coefficients; base, tests, risks, surcharge, divergence and stop are the same |
| EstimateFormula.HoursScaleAll | worker/estimation.py:223-313 | all the hours and the function points taken `k` times, so are base, tests, the hours of both methods, O, M, P, E and its buffer; divergence and stop are the same |
| EstimateFormula.BaseCounts | worker/estimation.py:136-141 | one unit counts with its scaffolding and integration, each unit more adds its hours wherever it stands, and hours below zero count as none |
| EstimateFormula.RiskAdds | worker/estimation.py:156-165 | each risk named, wherever and however often, adds its lower share of the hours to M and its upper share to P, O and the stop staying; an unknown one adds nothing |
| EstimateFormula.MissingAdds | worker/estimation.py:168-180 | with nothing missing there is no surcharge, and each of the four things missing adds its own penalty |
| EstimateFormula.PlainUnit | worker/estimation.py:226-290 | without tests, risks and missing data, one unit of work is worth its hours times the coefficient, O and P that times their factors, and E follows from the three |
| EstimateFormula.ConfidenceIs | worker/estimation.py:183-188 | the confidence is high with full data, medium with the minimum, else low, and one step lower when the methods are more than half of the permitted way apart |
| EstimateFormula.CopyingIsCheap | worker/estimation.py:223-313 | under the rules in use ten hours of copying come to 4.55 hours, M = 0.56875 days and one story point |
| Estimation.StopIgnoresWorkType | worker/estimation.py:226-242 | divergence and stop are the same for every type of work |
| Estimation.NoiseIsDropped | worker/estimation.py:136-141 | a unit of work without positive hours, wherever it stands, changes nothing in the result |
| Estimation.TroubleCosts | worker/estimation.py:156-313 | naming more risks, in any order, or saying less leaves stop and O as they are and makes neither M, P, E, the buffer nor the story points smaller |
| Estimation.PointsGrow | worker/estimation.py:191-196 | story points never fall as hours grow |
| Estimation.RulesAreSane | config/estimation-rules.toml:10-105 | the rules in use are sane |

## Left out

- TextRuns.TextPromises: an edit of the body by a person in the middle of an attempt, which the code does not notice, is not a step of a run.
- TextRuns.TextOnlyWhatWasShown: a comment is modelled by what it shows (question, interpretation, replaced answers), not by its wording or signature.
- Criterion.ExposeKeepsApproved: only for a criterion in the approved block; the search under a heading, its end and the masking of code fences are a parameter, because they are regular expressions of the host language.
- Convergence.ChoiceConverges: says what an attempt leaves that gets through; that one does is up to the host, and to the conditions of `Progress.AnswerReturnsIff`.
- Runs.AnnouncedWasPosted: the comment on a question asked in place of a lost one names no identifier, so of two such questions it does not say which one it was for.
- Footprint.AttemptTouches: which line ends are added at the end of the text outside the blocks is said of one write or cut (`Documents.PerformOutside`), not summed up over an attempt.
- Progress.AnswerReturnsIff: bodies in which a readable block stands inside another one; writing the outer one there removes the inner, so that the condition would have to follow every write.
- OneQuestion.IdNamesOneQuestion: one direction for all runs and a failing run for all inputs when an edit does take a question out; such an edit need not lead to a clash, as when nothing of that kind is asked again.
- Records.DraftRoundTrip: for interpretations made of texts, lists, objects and flags, which is what the code keeps; numbers are kept as written, not as the host language prints them again.
- Json.ParsePrint: no surrogate pairs, no limit on nesting or on the length of numbers.
- Chars.TrailingNumberOfId: digits are the ten decimal ones, not every Unicode digit.
- PlanGraph.Validate: dependencies are integers; an entry of another type, rejected like one out of the list, has no counterpart, and letter case is that of the Latin and Russian alphabets.
- EstimateFormula.NumbersAre: real numbers in place of floating point; the share of each grade, the corridor warnings and the formatting of numbers are not modelled.
- PhaseLabels.SetPhase: `DRY_RUN` and the status codes of the host, of which a missing label counts as removed.
- Forge.Forge.AnswerQuestion: reports of failures to the log; the reading of the comment that holds the answer.
- Workflows, webhooks, authentication, the HTTP clients of other hosts, the language model, search of code, analysis and development stages, label catalogue and report texts: transport, text templates or foreign programs.
- `Watcher.filter`: recognising the message and the guard against re-entry; only the window is modelled.
- `group`, `mvp_oversized` and the release titles of a plan: a lookup by a field, a comparison with a constant and fixed texts, of which nothing holds but what their own lines say.
