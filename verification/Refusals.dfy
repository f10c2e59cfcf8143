/** Which records cannot be written: exactly those with a marker in one of their texts. */
module Refusals {
  import opened Blocks
  import opened Fences
  import opened Json
  import opened Records
  import opened Texts

  // ---------------------------------------------------------------------------------------------
  // A marker in printed JSON stands in one of its texts

  /** A character that JSON prints as it is. */
  predicate AsItIs(c: char) {
    c != '"' && c != '\\' && ' ' <= c
  }

  ghost predicate AsIs(p: string) {
    forall k :: 0 <= k < |p| ==> AsItIs(p[k])
  }

  ghost predicate Verbatim(p: string) {
    p != "" && p[0] == '<' && AsIs(p)
  }

  ghost predicate NoAngle(a: string) {
    forall i :: 0 <= i < |a| ==> a[i] != '<'
  }

  lemma SkipFree(a: string, b: string, p: string)
    requires p != "" && p[0] == '<' && NoAngle(a)
    ensures FreeOf(a + b, p) <==> FreeOf(b, p)
  {
    if i: int :| Has(a + b, p, i) {
      Letters(a + b, p, i);
      assert (a + b)[i] == p[0];
      assert (a + b)[i..i + |p|] == b[i - |a|..i - |a| + |p|];
      assert Has(b, p, i - |a|);
    }
    if j: int :| Has(b, p, j) { HasRight(a, b, p, j); }
  }

  lemma HasCons(c: char, s: string, p: string, i: int)
    requires 0 < i
    ensures Has([c] + s, p, i) <==> Has(s, p, i - 1)
  {
    if i + |p| <= 1 + |s| {
      var here, there := ([c] + s)[i..i + |p|], s[i - 1..i - 1 + |p|];
      assert forall k :: 0 <= k < |p| ==> here[k] == there[k];
      assert here == there;
    }
  }

  lemma FreeCons(c: char, s: string, p: string)
    requires p != ""
    ensures FreeOf([c] + s, p) <==> !(p <= [c] + s) && FreeOf(s, p)
  {
    assert p <= [c] + s <==> Has([c] + s, p, 0);
    forall i: int | 0 < i ensures Has([c] + s, p, i) <==> Has(s, p, i - 1) { HasCons(c, s, p, i); }
    if j: int :| Has(s, p, j) { assert Has([c] + s, p, j + 1) by { HasCons(c, s, p, j + 1); } }
  }

  /** An escaped text starts with the escape of its first character. */
  lemma EscapeCons(s: string, rest: string) returns (e: string)
    requires s != ""
    ensures Escape(s) + ("\"" + rest) == e + (Escape(s[1..]) + ("\"" + rest))
    ensures e != "" && if AsItIs(s[0]) then e == [s[0]] else e[0] == '\\' && NoAngle(e)
  {
    e := EscapeChar(s[0]);
    EscapeOpens(s[0]);
    Third(e, Escape(s[1..]), "\"" + rest);
  }

  lemma EscapeOpens(c: char)
    ensures if AsItIs(c) then EscapeChar(c) == [c] else EscapeChar(c)[0] == '\\' && NoAngle(EscapeChar(c))
  {
  }

  /** What JSON prints as it is opens an escaped text exactly when it opens the text. */
  lemma {:induction false} PlainPrefix(p: string, s: string, rest: string)
    requires AsIs(p)
    ensures p <= Escape(s) + ("\"" + rest) <==> p <= s
    decreases |p|
  {
    var t := Escape(s) + ("\"" + rest);
    if p != "" {
      if s == "" {
        assert t[0] == '"';
      } else {
        var e := EscapeCons(s, rest);
        PlainPrefix(p[1..], s[1..], rest);
        assert s == [s[0]] + s[1..];
        PrefixStep(p, s[0], e, s[1..], Escape(s[1..]) + ("\"" + rest));
      }
    }
  }

  lemma PrefixStep(p: string, c: char, e: string, s: string, tail: string)
    requires p != "" && AsItIs(p[0]) && e != "" && (if AsItIs(c) then e == [c] else e[0] == '\\')
    requires p[1..] <= tail <==> p[1..] <= s
    ensures p <= e + tail <==> p <= [c] + s
  {
    assert (e + tail)[0] == e[0];
    SamePrefix(p, [c] + s, c, s);
    if e == [c] { SamePrefix(p, e + tail, c, tail); }
  }

  lemma SamePrefix(p: string, s: string, c: char, tail: string)
    requires p != "" && s == [c] + tail
    ensures p <= s <==> p[0] == c && p[1..] <= tail
  {
    if p[0] == c && p[1..] <= tail { assert p == [c] + p[1..]; }
    if p <= s { assert p[1..] == s[1..][..|p| - 1]; }
  }

  lemma {:induction false} EscapedFree(s: string, rest: string, p: string)
    requires Verbatim(p)
    ensures FreeOf(Escape(s) + ("\"" + rest), p) <==> FreeOf(s, p) && FreeOf(rest, p)
    decreases |s|
  {
    if s == "" {
      SkipFree("\"", rest, p);
      assert Escape(s) + ("\"" + rest) == "\"" + rest;
    } else {
      var e := EscapeCons(s, rest);
      EscapedFree(s[1..], rest, p);
      PlainPrefix(p, s, rest);
      assert s == [s[0]] + s[1..];
      FreeStep(p, s[0], e, s[1..], Escape(s[1..]) + ("\"" + rest), FreeOf(rest, p));
    }
  }

  lemma FreeStep(p: string, c: char, e: string, s: string, tail: string, free: bool)
    requires p != "" && p[0] == '<' && (e == [c] || (NoAngle(e) && c != '<'))
    requires p <= e + tail <==> p <= [c] + s
    requires FreeOf(tail, p) <==> FreeOf(s, p) && free
    ensures FreeOf(e + tail, p) <==> FreeOf([c] + s, p) && free
  {
    FreeCons(c, s, p);
    if e == [c] {
      FreeCons(c, tail, p);
    } else {
      SkipFree(e, tail, p);
    }
  }

  lemma QuotedFree(s: string, rest: string, p: string)
    requires Verbatim(p)
    ensures FreeOf(Quote(s) + rest, p) <==> FreeOf(s, p) && FreeOf(rest, p)
  {
    EscapedFree(s, rest, p);
    SkipFree("\"", Escape(s) + ("\"" + rest), p);
    assert Quote(s) + rest == "\"" + (Escape(s) + ("\"" + rest));
  }

  /** None of the texts of a value, keys included, holds `p`. */
  ghost predicate TextsFree(v: Value, p: string) {
    match v
    case Str(s) => FreeOf(s, p)
    case Arr(items) => forall i :: 0 <= i < |items| ==> TextsFree(items[i], p)
    case Obj(fields) => forall i :: 0 <= i < |fields| ==> FreeOf(fields[i].key, p) && TextsFree(fields[i].value, p)
    case _ => true
  }

  lemma {:induction false} PrintFree(v: Value, depth: nat, rest: string, p: string)
    requires Textual(v) && Verbatim(p)
    ensures FreeOf(Print(v, depth) + rest, p) <==> TextsFree(v, p) && FreeOf(rest, p)
    decreases v, 1
  {
    match v
    case Null => SkipFree("null", rest, p);
    case Bool(b) => SkipFree(if b then "true" else "false", rest, p);
    case Str(s) => QuotedFree(s, rest, p);
    case Arr(items) =>
      if items == [] {
        SkipFree("[]", rest, p);
      } else {
        ItemsFree(items, depth, rest, p);
        OpenFree("[", depth, PrintItems(items, depth), rest, p);
      }
    case Obj(fields) =>
      if fields == [] {
        SkipFree("{}", rest, p);
      } else {
        FieldsFree(fields, depth, rest, p);
        OpenFree("{", depth, PrintFields(fields, depth), rest, p);
      }
  }

  /** An opening bracket or a comma, and what follows it on the next line. */
  lemma OpenFree(open: string, depth: nat, inner: string, rest: string, p: string)
    requires Verbatim(p) && NoAngle(open)
    ensures FreeOf((open + (NewLine(depth + 1) + inner)) + rest, p) <==> FreeOf(inner + rest, p)
  {
    var head := open + NewLine(depth + 1);
    assert (open + (NewLine(depth + 1) + inner)) + rest == head + (inner + rest);
    SkipFree(head, inner + rest, p);
  }

  lemma ArrCons(items: seq<Value>, p: string)
    requires items != []
    ensures TextsFree(Arr(items), p) <==> TextsFree(items[0], p) && TextsFree(Arr(items[1..]), p)
  {
    assert forall i :: 0 < i < |items| ==> items[i] == items[1..][i - 1];
  }

  lemma ObjCons(fields: seq<Field>, p: string)
    requires fields != []
    ensures TextsFree(Obj(fields), p) <==>
      FreeOf(fields[0].key, p) && TextsFree(fields[0].value, p) && TextsFree(Obj(fields[1..]), p)
  {
    assert forall i :: 0 < i < |fields| ==> fields[i] == fields[1..][i - 1];
  }

  /** What is printed after the first item. */
  function AfterItem(items: seq<Value>, depth: nat): string
    requires items != []
  {
    if |items| == 1 then NewLine(depth) + "]" else "," + (NewLine(depth + 1) + PrintItems(items[1..], depth))
  }

  function AfterField(fields: seq<Field>, depth: nat): string
    requires fields != []
  {
    if |fields| == 1 then NewLine(depth) + "}" else "," + (NewLine(depth + 1) + PrintFields(fields[1..], depth))
  }

  lemma {:induction false} ItemsFree(items: seq<Value>, depth: nat, rest: string, p: string)
    requires items != [] && Verbatim(p) && forall i :: 0 <= i < |items| ==> Textual(items[i])
    ensures FreeOf(PrintItems(items, depth) + rest, p) <==> TextsFree(Arr(items), p) && FreeOf(rest, p)
    decreases items, 1
  {
    var first, more := Print(items[0], depth + 1), AfterItem(items, depth);
    AfterItemFree(items, depth, rest, p);
    PrintFree(items[0], depth + 1, more + rest, p);
    Third(first, more, rest);
    ArrCons(items, p);
  }

  lemma {:induction false} AfterItemFree(items: seq<Value>, depth: nat, rest: string, p: string)
    requires items != [] && Verbatim(p) && forall i :: 0 <= i < |items| ==> Textual(items[i])
    ensures FreeOf(AfterItem(items, depth) + rest, p) <==> TextsFree(Arr(items[1..]), p) && FreeOf(rest, p)
    decreases items, 0
  {
    if |items| == 1 {
      SkipFree(NewLine(depth) + "]", rest, p);
    } else {
      ItemsFree(items[1..], depth, rest, p);
      OpenFree(",", depth, PrintItems(items[1..], depth), rest, p);
    }
  }

  lemma {:induction false} FieldsFree(fields: seq<Field>, depth: nat, rest: string, p: string)
    requires fields != [] && Verbatim(p) && forall i :: 0 <= i < |fields| ==> Textual(fields[i].value)
    ensures FreeOf(PrintFields(fields, depth) + rest, p) <==> TextsFree(Obj(fields), p) && FreeOf(rest, p)
    decreases fields, 1
  {
    var f, more := fields[0], AfterField(fields, depth);
    AfterFieldFree(fields, depth, rest, p);
    PrintFree(f.value, depth + 1, more + rest, p);
    FieldFree(f.key, Print(f.value, depth + 1), more, rest, p);
    ObjCons(fields, p);
  }

  lemma FieldFree(key: string, value: string, more: string, rest: string, p: string)
    requires Verbatim(p)
    ensures FreeOf(((Quote(key) + (": " + value)) + more) + rest, p) <==> FreeOf(key, p) && FreeOf(value + (more + rest), p)
  {
    var tail := value + (more + rest);
    SkipFree(": ", tail, p);
    QuotedFree(key, ": " + tail, p);
    assert ((Quote(key) + (": " + value)) + more) + rest == Quote(key) + (": " + tail);
  }

  lemma {:induction false} AfterFieldFree(fields: seq<Field>, depth: nat, rest: string, p: string)
    requires fields != [] && Verbatim(p) && forall i :: 0 <= i < |fields| ==> Textual(fields[i].value)
    ensures FreeOf(AfterField(fields, depth) + rest, p) <==> TextsFree(Obj(fields[1..]), p) && FreeOf(rest, p)
    decreases fields, 0
  {
    if |fields| == 1 {
      SkipFree(NewLine(depth) + "}", rest, p);
    } else {
      FieldsFree(fields[1..], depth, rest, p);
      OpenFree(",", depth, PrintFields(fields[1..], depth), rest, p);
    }
  }

  /** Wrapped JSON holds `p` exactly when one of its texts does. */
  lemma WrapFree(v: Value, header: string, p: string)
    requires Textual(v) && Verbatim(p) && NoAngle(header)
    ensures FreeOf(Wrap(v, header), p) <==> TextsFree(v, p)
  {
    var head := header + "\n\n" + "```json\n";
    assert Wrap(v, header) == head + (Print(v, 0) + "\n```");
    SkipFree(head, Print(v, 0) + "\n```", p);
    PrintFree(v, 0, "\n```", p);
    assert "\n```" + "" == "\n```";
    SkipFree("\n```", "", p);
  }

  lemma KeyFree(key: string, p: string)
    requires Verbatim(p) && NoAngle(key)
    ensures FreeOf(key, p)
  {
    SkipFree(key, "", p);
    assert key + "" == key;
  }

  lemma FiveFree(f0: Field, f1: Field, f2: Field, f3: Field, f4: Field, p: string)
    requires FreeOf(f0.key, p) && FreeOf(f1.key, p) && FreeOf(f2.key, p) && FreeOf(f3.key, p) && FreeOf(f4.key, p)
    ensures TextsFree(Obj([f0, f1, f2, f3, f4]), p) <==>
      && TextsFree(f0.value, p) && TextsFree(f1.value, p) && TextsFree(f2.value, p)
      && TextsFree(f3.value, p) && TextsFree(f4.value, p)
  {
    var fields := [f0, f1, f2, f3, f4];
    assert fields[0] == f0 && fields[1] == f1 && fields[2] == f2 && fields[3] == f3 && fields[4] == f4;
  }

  lemma StringsFree(items: seq<string>, p: string)
    ensures TextsFree(Strings(items), p) <==> forall i :: 0 <= i < |items| ==> FreeOf(items[i], p)
  {
    var values := Strings(items).items;
    assert forall i :: 0 <= i < |items| ==> values[i] == Str(items[i]);
    if TextsFree(Strings(items), p) {
      forall i | 0 <= i < |items| ensures FreeOf(items[i], p) { assert TextsFree(values[i], p); }
    }
  }

  lemma QuestionTexts(q: Question, p: string)
    requires Verbatim(p)
    ensures FreeOf(RenderQuestion(q), p) <==>
      FreeOf(q.id, p) && FreeOf(q.kind, p) && FreeOf(q.text, p) && forall i :: 0 <= i < |q.options| ==> FreeOf(q.options[i], p)
  {
    var f0, f1, f2 := Field("id", Str(q.id)), Field("kind", Str(q.kind)), Field("text", Str(q.text));
    var f3, f4 := Field("options", Strings(q.options)), Field("announced", Bool(q.announced));
    KeyFree("id", p);
    KeyFree("kind", p);
    KeyFree("text", p);
    KeyFree("options", p);
    KeyFree("announced", p);
    FiveFree(f0, f1, f2, f3, f4, p);
    StringsFree(q.options, p);
    StringsTextual(q.options);
    FiveTextual(f0, f1, f2, f3, f4);
    WrapFree(Obj([f0, f1, f2, f3, f4]), "## Открытый вопрос контура", p);
  }

  lemma FiveTextual(f0: Field, f1: Field, f2: Field, f3: Field, f4: Field)
    requires Textual(f0.value) && Textual(f1.value) && Textual(f2.value) && Textual(f3.value) && Textual(f4.value)
    ensures Textual(Obj([f0, f1, f2, f3, f4]))
  {
  }

  lemma DecisionTexts(d: Decision, p: string)
    requires Verbatim(p)
    ensures TextsFree(DecisionValue(d), p) <==>
      FreeOf(d.questionId, p) && FreeOf(d.kind, p) && FreeOf(d.question, p) && FreeOf(d.answer, p) && FreeOf(d.supersedes, p)
  {
    KeyFree("question_id", p);
    KeyFree("kind", p);
    KeyFree("question", p);
    KeyFree("answer", p);
    KeyFree("supersedes", p);
    FiveFree(Field("question_id", Str(d.questionId)), Field("kind", Str(d.kind)), Field("question", Str(d.question)),
             Field("answer", Str(d.answer)), Field("supersedes", Str(d.supersedes)), p);
  }

  lemma JournalTexts(ds: seq<Decision>, p: string)
    requires Verbatim(p)
    ensures FreeOf(RenderJournal(ds), p) <==> forall k :: 0 <= k < |ds| ==> TextsFree(DecisionValue(ds[k]), p)
  {
    DecisionsRoundTrip(ds);
    WrapFree(JournalValue(ds), "## Решения по задаче", p);
    JournalValueFree(ds, p);
  }

  lemma JournalValueFree(ds: seq<Decision>, p: string)
    ensures TextsFree(JournalValue(ds), p) <==> forall k :: 0 <= k < |ds| ==> TextsFree(DecisionValue(ds[k]), p)
  {
    var items := JournalValue(ds).items;
    assert forall k :: 0 <= k < |ds| ==> items[k] == DecisionValue(ds[k]);
    if TextsFree(JournalValue(ds), p) {
      forall k | 0 <= k < |ds| ensures TextsFree(DecisionValue(ds[k]), p) { assert TextsFree(items[k], p); }
    }
  }

  // ---------------------------------------------------------------------------------------------
  // Markers

  lemma LabelAsIs(n: Name)
    ensures AsIs(Label(n))
  {
  }

  lemma MarkIsPlain(n: Name, o: bool)
    ensures Verbatim(Mark(n, o))
  {
    LabelAsIs(n);
    var a, z := "<!-- harness:", if o then ":start -->" else ":end -->";
    assert AsIs(a) && AsIs(z);
    PlainJoin(a, Label(n), z);
  }

  lemma PlainJoin(a: string, b: string, z: string)
    requires AsIs(a) && AsIs(b) && AsIs(z) && a != "" && a[0] == '<'
    ensures Verbatim(a + b + z)
  {
    var s := a + b + z;
    forall k | 0 <= k < |s| ensures AsItIs(s[k]) {
      assert s[k] == if k < |a| then a[k] else if k < |a| + |b| then b[k - |a|] else z[k - |a| - |b|];
    }
  }

  ghost predicate QuestionUnmarked(q: Question) {
    Unmarked(q.id) && Unmarked(q.kind) && Unmarked(q.text) && forall i :: 0 <= i < |q.options| ==> Unmarked(q.options[i])
  }

  ghost predicate DecisionUnmarked(d: Decision) {
    Unmarked(d.questionId) && Unmarked(d.kind) && Unmarked(d.question) && Unmarked(d.answer) && Unmarked(d.supersedes)
  }

  /** A question can be written into a body unless one of its texts holds a marker. */
  lemma QuestionUnmarkedIff(q: Question)
    ensures Unmarked(RenderQuestion(q)) <==> QuestionUnmarked(q)
  {
    forall n: Name, o: bool
      ensures FreeOf(RenderQuestion(q), Mark(n, o)) <==>
        FreeOf(q.id, Mark(n, o)) && FreeOf(q.kind, Mark(n, o)) && FreeOf(q.text, Mark(n, o)) &&
        forall i :: 0 <= i < |q.options| ==> FreeOf(q.options[i], Mark(n, o))
    {
      MarkIsPlain(n, o);
      QuestionTexts(q, Mark(n, o));
    }
  }

  /** A journal can be written unless one of the texts of its decisions holds a marker. */
  lemma JournalUnmarkedIff(ds: seq<Decision>)
    ensures Unmarked(RenderJournal(ds)) <==> forall k :: 0 <= k < |ds| ==> DecisionUnmarked(ds[k])
  {
    forall n: Name, o: bool
      ensures FreeOf(RenderJournal(ds), Mark(n, o)) <==> forall k :: 0 <= k < |ds| ==> DecisionFree(ds[k], Mark(n, o))
    {
      MarkIsPlain(n, o);
      JournalTexts(ds, Mark(n, o));
      forall k | 0 <= k < |ds| ensures TextsFree(DecisionValue(ds[k]), Mark(n, o)) <==> DecisionFree(ds[k], Mark(n, o)) {
        DecisionTexts(ds[k], Mark(n, o));
      }
    }
    forall k | 0 <= k < |ds|
      ensures DecisionUnmarked(ds[k]) <==> forall n: Name, o: bool :: DecisionFree(ds[k], Mark(n, o))
    {
    }
  }

  ghost predicate DecisionFree(d: Decision, p: string) {
    FreeOf(d.questionId, p) && FreeOf(d.kind, p) && FreeOf(d.question, p) && FreeOf(d.answer, p) && FreeOf(d.supersedes, p)
  }

  ghost predicate InterpretationUnmarked(i: Interpretation) {
    && Unmarked(i.answer)
    && forall k :: 0 <= k < |i.amendments| ==> Unmarked(i.amendments[k].questionId) && Unmarked(i.amendments[k].answer)
  }

  lemma AmendmentTexts(a: Amendment, p: string)
    requires Verbatim(p)
    ensures TextsFree(AmendmentValue(a), p) <==> FreeOf(a.questionId, p) && FreeOf(a.answer, p)
  {
    var fields := AmendmentValue(a).fields;
    KeyFree("question_id", p);
    KeyFree("answer", p);
    assert fields[0] == Field("question_id", Str(a.questionId)) && fields[1] == Field("answer", Str(a.answer));
  }

  lemma DumpTexts(i: Interpretation, p: string)
    requires Verbatim(p)
    ensures TextsFree(Dump(i), p) <==> InterpretationFree(i, p)
  {
    var fields := Dump(i).fields;
    var items := fields[1].value.items;
    KeyFree("answer", p);
    KeyFree("amendments", p);
    assert TextsFree(Dump(i), p) <==> TextsFree(fields[0].value, p) && TextsFree(fields[1].value, p);
    forall k | 0 <= k < |i.amendments|
      ensures items[k] == AmendmentValue(i.amendments[k])
      ensures TextsFree(items[k], p) <==> FreeOf(i.amendments[k].questionId, p) && FreeOf(i.amendments[k].answer, p)
    {
      AmendmentTexts(i.amendments[k], p);
    }
  }

  ghost predicate InterpretationFree(i: Interpretation, p: string) {
    && FreeOf(i.answer, p)
    && forall k :: 0 <= k < |i.amendments| ==> FreeOf(i.amendments[k].questionId, p) && FreeOf(i.amendments[k].answer, p)
  }

  lemma DraftTexts(id: string, i: Interpretation, announced: bool, p: string)
    requires Verbatim(p)
    ensures FreeOf(RenderDraft(Draft(id, Dump(i), announced)), p) <==> FreeOf(id, p) && InterpretationFree(i, p)
  {
    DumpLoad(i);
    DumpTexts(i, p);
    DraftFields(id, Dump(i), announced, p);
  }

  lemma DraftFields(id: string, i: Value, announced: bool, p: string)
    requires Verbatim(p) && i.Obj? && Textual(i)
    ensures FreeOf(RenderDraft(Draft(id, i, announced)), p) <==> FreeOf(id, p) && TextsFree(i, p)
  {
    var f0, f1, f2 := Field("question_id", Str(id)), Field("interpretation", i), Field("announced", Bool(announced));
    DraftKeys(p);
    ThreeFree(f0, f1, f2, p);
    WrapFree(Obj([f0, f1, f2]), "## Ожидает подтверждения", p);
  }

  lemma DraftKeys(p: string)
    requires Verbatim(p)
    ensures FreeOf("question_id", p) && FreeOf("interpretation", p) && FreeOf("announced", p)
  {
    KeyFree("question_id", p);
    KeyFree("interpretation", p);
    KeyFree("announced", p);
  }

  lemma ThreeFree(f0: Field, f1: Field, f2: Field, p: string)
    requires FreeOf(f0.key, p) && FreeOf(f1.key, p) && FreeOf(f2.key, p)
    requires Textual(f0.value) && Textual(f1.value) && Textual(f2.value)
    ensures Textual(Obj([f0, f1, f2]))
    ensures TextsFree(Obj([f0, f1, f2]), p) <==> TextsFree(f0.value, p) && TextsFree(f1.value, p) && TextsFree(f2.value, p)
  {
    var fields := [f0, f1, f2];
    assert fields[0] == f0 && fields[1] == f1 && fields[2] == f2;
  }

  /** A draft can be written unless its identifier or a text of its interpretation holds a marker. */
  lemma DraftUnmarkedIff(id: string, i: Interpretation, announced: bool)
    ensures Unmarked(RenderDraft(Draft(id, Dump(i), announced))) <==> Unmarked(id) && InterpretationUnmarked(i)
  {
    forall n: Name, o: bool
      ensures FreeOf(RenderDraft(Draft(id, Dump(i), announced)), Mark(n, o)) <==>
        FreeOf(id, Mark(n, o)) && InterpretationFree(i, Mark(n, o))
    {
      MarkIsPlain(n, o);
      DraftTexts(id, i, announced, Mark(n, o));
    }
    assert InterpretationUnmarked(i) <==> forall n: Name, o: bool :: InterpretationFree(i, Mark(n, o));
  }
}
