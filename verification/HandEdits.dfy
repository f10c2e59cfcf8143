/** Records edited by hand, or written by an older version: what is still read, what is refused, what is never lost. */
module HandEdits {
  import opened Blocks
  import opened Bodies
  import opened Chars
  import opened Fences
  import opened Json
  import opened Records
  import opened Texts
  import opened Words

  // ---------------------------------------------------------------------------------------------
  // One fence or nothing

  lemma FirstMarkBefore(p: string, mark: string, tail: string)
    requires Unfenced(p) && 2 <= |mark| && mark[0] == '\n' && mark[1] == '`'
    ensures First(p + (mark + tail), mark) == |p|
  {
    FirstMark(p, mark);
    var s := p + (mark + tail);
    assert s == (p + mark) + tail;
    HasLeft(p + mark, tail, mark, |p|);
    var f := First(s, mark);
    Letters(s, mark, f);
    assert s[f] == mark[0] && s[f + 1] == mark[1];
    assert forall i :: 0 <= i < |p| ==> s[i] == p[i];
  }

  lemma FenceClosed(p: string, tail: string)
    requires Unfenced(p)
    ensures First(p + ("\n```" + tail), "\n```") == |p|
  {
    FirstMarkBefore(p, "\n```", tail);
  }

  /** A fence that begins right here, with text after it. */
  lemma FenceBefore(p: string, tail: string)
    requires Unfenced(p) && p != "" && !IsSpace(p[0])
    ensures FenceAt("```json\n" + (p + ("\n```" + tail))) == Some((p, tail))
  {
    var body := p + ("\n```" + tail);
    var s := "```json\n" + body;
    var t := "\n" + body;
    assert s[7..] == t;
    assert s[3..] == "json" + t;
    assert "```" <= s && "json" <= s[3..];
    assert body[0] == p[0];
    assert t[1..] == body;
    assert SpaceRun(body) == 0;
    assert SpaceRun(t) == 1;
    FenceClosed(p, tail);
    assert body[..|p|] == p && body[|p| + 4..] == tail;
  }

  lemma Regrouped(header: string, gap: string, open: string, p: string, close: string, tail: string)
    ensures (header + (gap + (open + (p + close)))) + tail == header + (gap + (open + (p + (close + tail))))
  {
  }

  lemma FencesHere(p: string, tail: string)
    requires Unfenced(p) && p != "" && !IsSpace(p[0])
    ensures Fences.Fences("```json\n" + (p + ("\n```" + tail))) == [p] + Fences.Fences(tail)
  {
    FenceBefore(p, tail);
  }

  /** The fence of a rendered record is found, and the search goes on right after it. */
  lemma FencesOfWrap(v: Value, header: string, tail: string)
    requires Textual(v) && NoTick(header)
    ensures Fences.Fences(Wrap(v, header) + tail) == [Print(v, 0)] + Fences.Fences(tail)
  {
    var p := Print(v, 0);
    PrintOpens(v, 0);
    PrintUnfenced(v, 0);
    FencesHere(p, tail);
    Regrouped(header, "\n\n", "```json\n", p, "\n```", tail);
    FencesAfterHeader(header, "```json\n" + (p + ("\n```" + tail)));
  }

  lemma FencesAfterHeader(header: string, s: string)
    requires NoTick(header)
    ensures Fences.Fences(header + ("\n\n" + s)) == Fences.Fences(s)
  {
    FencesAfter(header, "\n\n" + s);
    FencesAfter("\n\n", s);
  }

  /** Two records in one block, whatever stands between them, are no record: neither is taken for the other. */
  lemma TwoRecordsAreNone(v: Value, header: string, between: string, w: Value, header': string)
    requires Textual(v) && NoTick(header) && NoTick(between) && Textual(w) && NoTick(header')
    ensures Unwrap(Some(Wrap(v, header) + (between + Wrap(w, header')))) == None
  {
    FencesOfWrap(v, header, between + Wrap(w, header'));
    FencesAfter(between, Wrap(w, header'));
    FencesOfWrap(w, header', "");
    assert Wrap(w, header') + "" == Wrap(w, header');
  }

  /** Text without a code fence is no record. */
  lemma PlainTextIsNone(text: string)
    requires NoTick(text)
    ensures Unwrap(Some(text)) == None
  {
    FencesAfter(text, "");
    assert text + "" == text;
  }

  // ---------------------------------------------------------------------------------------------
  // A damaged journal is never written over

  /** The content of the journal block is something, and not a list in its only code fence. */
  predicate Unusable(content: string) {
    !AllOf(content, IsSpace)
    && !(|Fences.Fences(content)| == 1 && Loads(Fences.Fences(content)[0]).Some? && Loads(Fences.Fences(content)[0]).value.Arr?)
  }

  lemma CorruptedIff(content: string)
    ensures Corrupted(Some(content)) <==> Unusable(content)
  {
    BlankIff(content);
  }

  /** A decision is refused, and nothing written, exactly when the undamaged journal block holds something unusable. */
  lemma UnusableIsKept(body: string, d: Decision)
    ensures AppendDecision(body, d) == Err(CorruptedJournal) <==>
      Match(body, Answers).Present? && Unusable(Match(body, Answers).content)
  {
    if Match(body, Answers).Present? { CorruptedIff(Match(body, Answers).content); }
    WriteRefuses(body, Answers, RenderJournal(ReadJournal(body) + [d]));
  }

  /** So with any text in the block that is not blank and has no code fence, as after a fence was cut off by hand. */
  lemma TextIsKept(body: string, d: Decision)
    requires Match(body, Answers).Present? && NoTick(Match(body, Answers).content)
    ensures if AllOf(Match(body, Answers).content, IsSpace) then ReadJournal(body) == []
      else AppendDecision(body, d) == Err(CorruptedJournal)
  {
    PlainTextIsNone(Match(body, Answers).content);
    UnusableIsKept(body, d);
  }

  // ---------------------------------------------------------------------------------------------
  // Records with keys missing, doubled or loosely typed

  predicate HasKey(fields: seq<Field>, key: string) {
    exists k :: 0 <= k < |fields| && fields[k].key == key
  }

  /** The value under the key; of several fields with one key the last one counts. */
  ghost predicate Says(fields: seq<Field>, key: string, v: Value) {
    exists k :: 0 <= k < |fields| && fields[k] == Field(key, v) && forall j :: k < j < |fields| ==> fields[j].key != key
  }

  lemma SaysMore(fields: seq<Field>, f: Field, key: string, v: Value)
    requires f.key != key && Says(fields, key, v)
    ensures Says(fields + [f], key, v)
  {
    var k :| 0 <= k < |fields| && fields[k] == Field(key, v) && forall j :: k < j < |fields| ==> fields[j].key != key;
    assert (fields + [f])[k] == Field(key, v);
  }

  lemma {:induction false} GetSays(fields: seq<Field>, key: string)
    ensures match Get(fields, key) case Some(v) => Says(fields, key, v) && HasKey(fields, key) case None => !HasKey(fields, key)
    decreases |fields|
  {
    if fields != [] {
      var n := |fields| - 1;
      GetSays(fields[..n], key);
      assert fields == fields[..n] + [fields[n]];
      if fields[n].key == key {
        assert fields[n] == Field(key, fields[n].value);
      } else if Get(fields, key).Some? {
        SaysMore(fields[..n], fields[n], key, Get(fields, key).value);
      } else {
        assert forall j :: 0 <= j < n ==> fields[j] == fields[..n][j];
      }
    }
  }

  lemma GetIff(fields: seq<Field>, key: string, v: Value)
    ensures Get(fields, key) == Some(v) <==> Says(fields, key, v)
    ensures Get(fields, key) == None <==> !HasKey(fields, key)
  {
    GetSays(fields, key);
  }

  /** A flag: absent or `false` it is not set. */
  ghost predicate Flagged(fields: seq<Field>, key: string, flag: bool) {
    if HasKey(fields, key) then Says(fields, key, Bool(flag)) else !flag
  }

  /** The options: a list of texts, or none at all. */
  ghost predicate Offers(fields: seq<Field>, options: seq<string>) {
    if HasKey(fields, "options") then Says(fields, "options", Strings(options)) else options == []
  }

  lemma OptionsRead(fields: seq<Field>, options: seq<string>)
    requires Offers(fields, options)
    ensures (match Get(fields, "options") case Some(o) => Elements(o) case None => Some([])) == Some(options)
  {
    GetIff(fields, "options", Strings(options));
    StringsTextual(options);
  }

  lemma FlagRead(fields: seq<Field>, key: string, flag: bool)
    requires Flagged(fields, key, flag)
    ensures (match Get(fields, key) case Some(a) => Truthy(a) case None => false) == flag
  {
    GetIff(fields, key, Bool(flag));
  }

  /**
   * A question record in any order of keys and with any others between them is read, and one written before there
   * were options or the flag of announcement counts as one without options that is not announced.
   */
  lemma QuestionRead(fields: seq<Field>, q: Question)
    requires Says(fields, "id", Str(q.id)) && Says(fields, "kind", Str(q.kind)) && Says(fields, "text", Str(q.text))
    requires Offers(fields, q.options) && Flagged(fields, "announced", q.announced)
    ensures QuestionOf(Obj(fields)) == Some(q)
  {
    GetIff(fields, "id", Str(q.id));
    GetIff(fields, "kind", Str(q.kind));
    GetIff(fields, "text", Str(q.text));
    OptionsRead(fields, q.options);
    FlagRead(fields, "announced", q.announced);
  }

  /** Without identifier, kind or text, or in anything but an object, there is no question. */
  lemma QuestionNeeds(v: Value)
    ensures QuestionOf(v).Some? ==> v.Obj? && HasKey(v.fields, "id") && HasKey(v.fields, "kind") && HasKey(v.fields, "text")
  {
    if v.Obj? {
      GetIff(v.fields, "id", Null);
      GetIff(v.fields, "kind", Null);
      GetIff(v.fields, "text", Null);
    }
  }

  /** The entry a record supersedes: none if the key is missing or holds nothing. */
  ghost predicate Replaces(fields: seq<Field>, id: string) {
    if HasKey(fields, "supersedes") then Says(fields, "supersedes", Str(id)) || (Says(fields, "supersedes", Null) && id == "")
    else id == ""
  }

  lemma ReplacesRead(fields: seq<Field>, id: string)
    requires Replaces(fields, id)
    ensures (match Get(fields, "supersedes") case Some(s) => if Truthy(s) then AsText(s) else "" case None => "") == id
  {
    GetIff(fields, "supersedes", Str(id));
    GetIff(fields, "supersedes", Null);
  }

  /** A decision in any order of keys is read; what it supersedes may be left out. */
  lemma DecisionRead(fields: seq<Field>, d: Decision)
    requires Says(fields, "question_id", Str(d.questionId)) && Says(fields, "kind", Str(d.kind))
    requires Says(fields, "question", Str(d.question)) && Says(fields, "answer", Str(d.answer)) && Replaces(fields, d.supersedes)
    ensures DecisionOf(Obj(fields)) == Some(d)
  {
    GetIff(fields, "question_id", Str(d.questionId));
    GetIff(fields, "kind", Str(d.kind));
    GetIff(fields, "question", Str(d.question));
    GetIff(fields, "answer", Str(d.answer));
    ReplacesRead(fields, d.supersedes);
  }

  /** A record of the journal is left out exactly when it is no object or one of the four keys is missing. */
  lemma DecisionNeeds(v: Value)
    ensures DecisionOf(v) == None <==>
      !(v.Obj? && HasKey(v.fields, "question_id") && HasKey(v.fields, "kind") && HasKey(v.fields, "question") && HasKey(v.fields, "answer"))
  {
    if v.Obj? {
      GetIff(v.fields, "question_id", Null);
      GetIff(v.fields, "kind", Null);
      GetIff(v.fields, "question", Null);
      GetIff(v.fields, "answer", Null);
    }
  }

  /** A draft without the flag of announcement counts as not announced. */
  lemma DraftRead(fields: seq<Field>, id: string, raw: seq<Field>, announced: bool)
    requires Says(fields, "question_id", Str(id)) && Says(fields, "interpretation", Obj(raw))
    requires Flagged(fields, "announced", announced)
    ensures DraftOf(Obj(fields)) == Some(Draft(id, Obj(raw), announced))
  {
    GetIff(fields, "question_id", Str(id));
    GetIff(fields, "interpretation", Obj(raw));
    FlagRead(fields, "announced", announced);
  }

  /** A draft that does not say which question it is for, as an older version wrote it, is none. */
  lemma DraftNeeds(v: Value)
    ensures DraftOf(v).Some? ==> v.Obj? && HasKey(v.fields, "question_id") && HasKey(v.fields, "interpretation")
  {
    if v.Obj? {
      GetIff(v.fields, "question_id", Null);
      GetIff(v.fields, "interpretation", Null);
    }
  }

  /** An interpretation without the key of amendments amends nothing; a blank one is none. */
  lemma InterpretationRead(fields: seq<Field>, answer: string)
    requires Says(fields, "answer", Str(answer)) && !HasKey(fields, "amendments")
    ensures Load(Obj(fields)) == if AllOf(answer, IsSpace) then None else Some(Interpretation(answer, []))
  {
    GetIff(fields, "answer", Str(answer));
    GetIff(fields, "amendments", Null);
    BlankIff(answer);
  }

  lemma {:induction false} OneSpoils(items: seq<Value>, k: nat)
    requires k < |items| && AmendmentOf(items[k]) == None
    ensures AmendmentsOf(items) == None
    decreases |items|
  {
    if k < |items| - 1 { OneSpoils(items[..|items| - 1], k); }
  }

  /** One amendment without its identifier or its answer spoils the whole interpretation: nothing is amended by half. */
  lemma AmendmentSpoils(fields: seq<Field>, items: seq<Value>, k: nat)
    requires Says(fields, "amendments", Arr(items)) && k < |items|
    requires !(items[k].Obj? && HasKey(items[k].fields, "question_id") && HasKey(items[k].fields, "answer"))
    ensures Load(Obj(fields)) == None
  {
    GetIff(fields, "amendments", Arr(items));
    if items[k].Obj? {
      GetIff(items[k].fields, "question_id", Null);
      GetIff(items[k].fields, "answer", Null);
    }
    OneSpoils(items, k);
  }

  // ---------------------------------------------------------------------------------------------
  // JSON and identifiers written by hand

  /** Blanks, tabs and line ends between the parts of JSON are passed over, and nothing else is. */
  lemma {:induction false} SpacePassed(w: string, s: string)
    requires forall i :: 0 <= i < |w| ==> w[i] == ' ' || w[i] == '\t' || w[i] == '\n' || w[i] == '\r'
    requires s == "" || (s[0] != ' ' && s[0] != '\t' && s[0] != '\n' && s[0] != '\r')
    ensures SkipWs(w + s) == s
    decreases |w|
  {
    if w == "" {
      assert w + s == s;
    } else {
      assert (w + s)[0] == w[0] && (w + s)[1..] == w[1..] + s;
      SpacePassed(w[1..], s);
    }
  }

  lemma {:induction false} DigitsRead(d: string, tail: string)
    requires AllDigits(d) && (tail == "" || !IsDigit(tail[0]))
    ensures Digits(d + tail) == |d|
    decreases |d|
  {
    if d == "" {
      assert d + tail == tail;
    } else {
      assert (d + tail)[0] == d[0] && (d + tail)[1..] == d[1..] + tail;
      DigitsRead(d[1..], tail);
    }
  }

  /** A number as JSON spells one: no zero before other digits, a fraction or none. */
  predicate Spelled(sign: string, whole: string, fraction: string) {
    && (sign == "" || sign == "-") && whole != "" && AllDigits(whole) && (whole[0] == '0' ==> |whole| == 1)
    && (fraction == "" || (2 <= |fraction| && fraction[0] == '.' && AllDigits(fraction[1..])))
  }

  /** What may follow it. */
  predicate Ends(tail: string) {
    tail == "" || !(IsDigit(tail[0]) || tail[0] == '.' || tail[0] == 'e' || tail[0] == 'E')
  }

  lemma WholeRead(whole: string, rest: string)
    requires Spelled("", whole, "") && (rest == "" || !IsDigit(rest[0]))
    ensures (if whole + rest != "" && (whole + rest)[0] == '0' then 1 else Digits(whole + rest)) == |whole|
  {
    DigitsRead(whole, rest);
  }

  lemma NumberAt(s: string, sign: nat, whole: nat, i: nat, part: nat, j: nat)
    requires sign == (if s != "" && s[0] == '-' then 1 else 0)
    requires (if s[sign..] != "" && s[sign] == '0' then 1 else Digits(s[sign..])) == whole && 0 < whole
    requires i == sign + whole && i <= |s|
    requires (if s[i..] != "" && s[i] == '.' then Digits(s[i + 1..]) else 0) == part
    requires j == (if part == 0 then i else i + 1 + part) && j <= |s|
    requires !(s[j..] != "" && (s[j] == 'e' || s[j] == 'E'))
    ensures NumberLength(s) == j
  {
  }

  lemma FractionRead(s: string, i: nat, fraction: string, tail: string) returns (part: nat)
    requires i <= |s| && s[i..] == fraction + tail && Ends(tail)
    requires fraction != "" ==> 2 <= |fraction| && fraction[0] == '.' && AllDigits(fraction[1..])
    ensures (if s[i..] != "" && s[i] == '.' then Digits(s[i + 1..]) else 0) == part
    ensures i + |fraction| == (if part == 0 then i else i + 1 + part)
  {
    if fraction == "" {
      assert s[i..] == tail;
      part := 0;
    } else {
      assert s[i] == s[i..][0] && s[i + 1..] == fraction[1..] + tail;
      DigitsRead(fraction[1..], tail);
      part := |fraction| - 1;
    }
  }

  /** A number is read to its end, and kept as it was written. */
  lemma NumberRead(sign: string, whole: string, fraction: string, tail: string)
    requires Spelled(sign, whole, fraction) && Ends(tail)
    ensures NumberLength(sign + (whole + (fraction + tail))) == |sign| + |whole| + |fraction|
  {
    var rest := fraction + tail;
    var s := sign + (whole + rest);
    var i := |sign| + |whole|;
    SignRead(sign, whole, rest);
    WholeRead(whole, rest);
    var part := FractionRead(s, i, fraction, tail);
    DropMore(s, i, fraction, tail);
    NumberAt(s, |sign|, |whole|, i, part, i + |fraction|);
  }

  lemma DropMore(s: string, i: nat, a: string, tail: string)
    requires i <= |s| && s[i..] == a + tail
    ensures i + |a| <= |s| && s[i + |a|..] == tail
  {
    assert s[i..][|a|..] == tail;
  }

  lemma SignRead(sign: string, whole: string, rest: string)
    requires Spelled(sign, whole, "")
    ensures var s := sign + (whole + rest);
      && |sign| == (if s != "" && s[0] == '-' then 1 else 0)
      && s[|sign|..] == whole + rest && s[|sign|] == (whole + rest)[0] && s[|sign| + |whole|..] == rest
  {
    var s := sign + (whole + rest);
    assert IsDigit(whole[0]) && s[|sign|] == whole[0];
  }

  /** An identifier with the number in the digits after its last hyphen, a line end left after them or not. */
  ghost predicate Numbered(id: string, head: string, digits: string) {
    digits != "" && AllDigits(digits) && (id == head + "-" + digits || id == head + "-" + digits + "\n")
  }

  lemma NumberedRead(id: string, head: string, digits: string)
    requires Numbered(id, head, digits)
    ensures TrailingNumber(id) == Some(Number(digits))
  {
    var s := head + "-" + digits;
    assert IsDigit(s[|s| - 1]);
    if id != s { assert id[..|id| - 1] == s; }
    TailDigitsAre(head + "-", digits);
    assert s[|s| - |digits|..] == digits && s[|s| - |digits| - 1] == '-';
  }

  lemma NumberedShape(id: string) returns (head: string, digits: string)
    requires TrailingNumber(id).Some?
    ensures Numbered(id, head, digits) && TrailingNumber(id) == Some(Number(digits))
  {
    var s := if id != "" && id[|id| - 1] == '\n' then id[..|id| - 1] else id;
    var k := TailDigits(s);
    head, digits := s[..|s| - k - 1], s[|s| - k..];
    assert s == head + "-" + digits;
    if id != s { assert id == s + "\n"; }
  }

  /** An identifier has a number exactly when it ends so, whoever wrote it. */
  lemma NumberedIff(id: string, n: nat)
    ensures TrailingNumber(id) == Some(n) <==> exists head, digits :: Numbered(id, head, digits) && Number(digits) == n
  {
    if TrailingNumber(id) == Some(n) {
      var head, digits := NumberedShape(id);
    } else if head, digits :| Numbered(id, head, digits) && Number(digits) == n {
      NumberedRead(id, head, digits);
    }
  }
}
