/** The question, the journal of decisions, the draft interpretation: their JSON form and the way back. */
module Records {
  import opened Chars
  import opened Fences
  import opened Json
  import opened Texts

  datatype Question = Question(id: string, kind: string, text: string, options: seq<string>, announced: bool)

  datatype Decision = Decision(questionId: string, kind: string, question: string, answer: string, supersedes: string)

  datatype Amendment = Amendment(questionId: string, answer: string)

  datatype Interpretation = Interpretation(answer: string, amendments: seq<Amendment>)

  /** An interpretation waiting for confirmation; `interpretation` is the raw JSON object. */
  datatype Draft = Draft(questionId: string, interpretation: Value, announced: bool)

  // ---------------------------------------------------------------------------------------------
  // Reading loosely typed values

  /** The value of a key; the last of several wins. */
  function Get(fields: seq<Field>, key: string): Option<Value> {
    if fields == [] then None
    else if fields[|fields| - 1].key == key then Some(fields[|fields| - 1].value)
    else Get(fields[..|fields| - 1], key)
  }

  function AsText(v: Value): string {
    match v
    case Str(s) => s
    case Null => "None"
    case Bool(b) => if b then "True" else "False"
    case Num(lexeme) => lexeme
    case _ => Print(v, 0)
  }

  predicate NonZero(lexeme: string) {
    lexeme != "" && lexeme[0] != 'e' && lexeme[0] != 'E' &&
    ('1' <= lexeme[0] <= '9' || lexeme[0] == 'N' || lexeme[0] == 'I' || NonZero(lexeme[1..]))
  }

  predicate Truthy(v: Value) {
    match v
    case Null => false
    case Bool(b) => b
    case Num(lexeme) => NonZero(lexeme)
    case Str(s) => s != ""
    case Arr(items) => items != []
    case Obj(fields) => fields != []
  }

  function AllAsText(items: seq<Value>): seq<string> {
    seq(|items|, i requires 0 <= i < |items| => AsText(items[i]))
  }

  /** What iterating over a value yields, each as text; nothing when it cannot be iterated over. */
  function Elements(v: Value): Option<seq<string>> {
    match v
    case Arr(items) => Some(AllAsText(items))
    case Str(s) => Some(seq(|s|, i requires 0 <= i < |s| => [s[i]]))
    case Obj(fields) => Some(seq(|fields|, i requires 0 <= i < |fields| => fields[i].key))
    case _ => None
  }

  function Strings(items: seq<string>): Value {
    Arr(seq(|items|, i requires 0 <= i < |items| => Str(items[i])))
  }

  // ---------------------------------------------------------------------------------------------
  // Questions

  function RenderQuestion(q: Question): string {
    Wrap(Obj([Field("id", Str(q.id)), Field("kind", Str(q.kind)), Field("text", Str(q.text)),
              Field("options", Strings(q.options)), Field("announced", Bool(q.announced))]),
         "## Открытый вопрос контура")
  }

  function QuestionOf(v: Value): Option<Question> {
    if !v.Obj? then None
    else
      var options := match Get(v.fields, "options") case Some(o) => Elements(o) case None => Some([]);
      var announced := match Get(v.fields, "announced") case Some(a) => Truthy(a) case None => false;
      match (Get(v.fields, "id"), Get(v.fields, "kind"), Get(v.fields, "text"), options)
      case (Some(id), Some(kind), Some(text), Some(opts)) =>
        Some(Question(AsText(id), AsText(kind), AsText(text), opts, announced))
      case _ => None
  }

  function ParseQuestion(payload: Option<string>): Option<Question> {
    match Unwrap(payload) case Some(v) => QuestionOf(v) case None => None
  }

  lemma GetLast(fields: seq<Field>, f: Field, key: string)
    ensures Get(fields + [f], key) == if f.key == key then Some(f.value) else Get(fields, key)
  {
    assert (fields + [f])[..|fields|] == fields;
  }

  lemma StringsTextual(items: seq<string>)
    ensures Textual(Strings(items)) && Elements(Strings(items)) == Some(items)
  {
    assert AllAsText(Strings(items).items) == items;
  }

  /** A question of any texts comes back exactly as it was rendered. */
  lemma QuestionRoundTrip(q: Question)
    ensures ParseQuestion(Some(RenderQuestion(q))) == Some(q)
  {
    var f0, f1, f2 := Field("id", Str(q.id)), Field("kind", Str(q.kind)), Field("text", Str(q.text));
    var f3, f4 := Field("options", Strings(q.options)), Field("announced", Bool(q.announced));
    var fields := [f0, f1, f2, f3, f4];
    StringsTextual(q.options);
    GetFive(f0, f1, f2, f3, f4);
    UnwrapWrap(Obj(fields), "## Открытый вопрос контура");
  }

  lemma GetFive(f0: Field, f1: Field, f2: Field, f3: Field, f4: Field)
    requires f0.key != f1.key && f0.key != f2.key && f0.key != f3.key && f0.key != f4.key
    requires f1.key != f2.key && f1.key != f3.key && f1.key != f4.key
    requires f2.key != f3.key && f2.key != f4.key && f3.key != f4.key
    ensures var fields := [f0, f1, f2, f3, f4];
      Get(fields, f0.key) == Some(f0.value) && Get(fields, f1.key) == Some(f1.value) &&
      Get(fields, f2.key) == Some(f2.value) && Get(fields, f3.key) == Some(f3.value) &&
      Get(fields, f4.key) == Some(f4.value)
  {
    GetInFive(f0, f1, f2, f3, f4, f0.key);
    GetInFive(f0, f1, f2, f3, f4, f1.key);
    GetInFive(f0, f1, f2, f3, f4, f2.key);
    GetInFive(f0, f1, f2, f3, f4, f3.key);
    GetInFive(f0, f1, f2, f3, f4, f4.key);
  }

  lemma GetInThree(f0: Field, f1: Field, f2: Field, key: string)
    ensures Get([f0, f1], key) == if f1.key == key then Some(f1.value) else if f0.key == key then Some(f0.value) else None
    ensures Get([f0, f1, f2], key) == if f2.key == key then Some(f2.value) else Get([f0, f1], key)
  {
    GetLast([f0, f1], f2, key);
    GetLast([f0], f1, key);
    GetLast([], f0, key);
    assert [f0, f1] + [f2] == [f0, f1, f2];
    assert [f0] + [f1] == [f0, f1];
    assert [] + [f0] == [f0];
  }

  lemma GetInFive(f0: Field, f1: Field, f2: Field, f3: Field, f4: Field, key: string)
    ensures Get([f0, f1, f2, f3, f4], key) ==
      if f4.key == key then Some(f4.value) else if f3.key == key then Some(f3.value)
      else if f2.key == key then Some(f2.value) else if f1.key == key then Some(f1.value)
      else if f0.key == key then Some(f0.value) else None
  {
    GetLast([f0, f1, f2, f3], f4, key);
    GetLast([f0, f1, f2], f3, key);
    GetLast([f0, f1], f2, key);
    GetLast([f0], f1, key);
    GetLast([], f0, key);
    assert [f0, f1, f2, f3] + [f4] == [f0, f1, f2, f3, f4];
    assert [f0, f1, f2] + [f3] == [f0, f1, f2, f3];
    assert [f0, f1] + [f2] == [f0, f1, f2];
    assert [f0] + [f1] == [f0, f1];
    assert [] + [f0] == [f0];
  }

  // ---------------------------------------------------------------------------------------------
  // The journal

  function DecisionValue(d: Decision): Value {
    Obj([Field("question_id", Str(d.questionId)), Field("kind", Str(d.kind)), Field("question", Str(d.question)),
         Field("answer", Str(d.answer)), Field("supersedes", Str(d.supersedes))])
  }

  function JournalValue(ds: seq<Decision>): Value {
    Arr(seq(|ds|, i requires 0 <= i < |ds| => DecisionValue(ds[i])))
  }

  function RenderJournal(ds: seq<Decision>): string {
    Wrap(JournalValue(ds), "## Решения по задаче")
  }

  function DecisionOf(v: Value): Option<Decision> {
    if !v.Obj? then None
    else
      var supersedes := match Get(v.fields, "supersedes") case Some(s) => if Truthy(s) then AsText(s) else "" case None => "";
      match (Get(v.fields, "question_id"), Get(v.fields, "kind"), Get(v.fields, "question"), Get(v.fields, "answer"))
      case (Some(id), Some(kind), Some(question), Some(answer)) =>
        Some(Decision(AsText(id), AsText(kind), AsText(question), AsText(answer), supersedes))
      case _ => None
  }

  /** The readable records of a list, malformed ones left out. */
  function DecisionsOf(items: seq<Value>): seq<Decision> {
    if items == [] then []
    else
      var n := |items| - 1;
      match DecisionOf(items[n])
      case Some(d) => DecisionsOf(items[..n]) + [d]
      case None => DecisionsOf(items[..n])
  }

  function JournalOf(data: Option<Value>): seq<Decision> {
    match data case Some(Arr(items)) => DecisionsOf(items) case _ => []
  }

  function ParsedJournal(payload: Option<string>): seq<Decision> {
    JournalOf(Unwrap(payload))
  }

  /** `at` names the places of the readable records, all of them and in order, and `result` holds what they say. */
  ghost predicate ReadableRecords(items: seq<Value>, result: seq<Decision>, at: seq<nat>) {
    && |at| == |result|
    && (forall k :: 0 <= k < |at| ==> at[k] < |items| && DecisionOf(items[at[k]]) == Some(result[k]))
    && (forall j, k :: 0 <= j < k < |at| ==> at[j] < at[k])
    && (forall i: nat :: i < |items| && DecisionOf(items[i]).Some? ==> i in at)
  }

  lemma ReadableRecordsMore(items: seq<Value>, result: seq<Decision>, at: seq<nat>, item: Value)
    requires ReadableRecords(items, result, at)
    ensures match DecisionOf(item)
      case Some(d) => ReadableRecords(items + [item], result + [d], at + [|items|])
      case None => ReadableRecords(items + [item], result, at)
  {
    var more := items + [item];
    assert more[|items|] == item && forall i :: 0 <= i < |items| ==> more[i] == items[i];
    var longer := at + [|items|];
    assert longer[|at|] == |items| && forall k :: 0 <= k < |at| ==> longer[k] == at[k];
  }

  lemma NextRecord(items: seq<Value>, i: nat, result: seq<Decision>, at: seq<nat>)
    requires i < |items| && ReadableRecords(items[..i], result, at) && result == DecisionsOf(items[..i])
    ensures match DecisionOf(items[i])
      case Some(d) => ReadableRecords(items[..i + 1], result + [d], at + [i]) && result + [d] == DecisionsOf(items[..i + 1])
      case None => ReadableRecords(items[..i + 1], result, at) && result == DecisionsOf(items[..i + 1])
  {
    assert items[..i + 1][..i] == items[..i] && items[..i + 1] == items[..i] + [items[i]];
    ReadableRecordsMore(items[..i], result, at, items[i]);
  }

  /** The list in the block, if it holds one in its only fence. */
  function ListOf(payload: Option<string>): seq<Value> {
    match Unwrap(payload) case Some(Arr(items)) => items case _ => []
  }

  /** The readable records of the list, each at its place and in order, the malformed ones left out. */
  method ParseJournal(payload: Option<string>) returns (result: seq<Decision>, ghost at: seq<nat>)
    ensures ReadableRecords(ListOf(payload), result, at)
    ensures result == ParsedJournal(payload)
  {
    var data := Unwrap(payload);
    result, at := [], [];
    if data.None? || !data.value.Arr? { return; }
    var items := data.value.items;
    for i := 0 to |items|
      invariant ReadableRecords(items[..i], result, at)
      invariant result == DecisionsOf(items[..i])
    {
      NextRecord(items, i, result, at);
      var d := DecisionOf(items[i]);
      if d.Some? { result, at := result + [d.value], at + [i]; }
    }
    assert items[..|items|] == items;
  }

  lemma DecisionRoundTrip(d: Decision)
    ensures DecisionOf(DecisionValue(d)) == Some(d) && Textual(DecisionValue(d))
  {
    GetFive(Field("question_id", Str(d.questionId)), Field("kind", Str(d.kind)), Field("question", Str(d.question)),
            Field("answer", Str(d.answer)), Field("supersedes", Str(d.supersedes)));
  }

  lemma JournalTextual(ds: seq<Decision>)
    ensures Textual(JournalValue(ds))
  {
    forall i | 0 <= i < |ds| ensures Textual(JournalValue(ds).items[i]) { DecisionRoundTrip(ds[i]); }
  }

  lemma {:induction false} DecisionsRoundTrip(ds: seq<Decision>)
    ensures DecisionsOf(JournalValue(ds).items) == ds && Textual(JournalValue(ds))
    decreases |ds|
  {
    JournalTextual(ds);
    if ds != [] {
      var n := |ds| - 1;
      DecisionsRoundTrip(ds[..n]);
      DecisionRoundTrip(ds[n]);
      assert JournalValue(ds).items[..n] == JournalValue(ds[..n]).items;
      assert ds == ds[..n] + [ds[n]];
    }
  }

  /** A journal of any length and any texts comes back exactly as it was rendered. */
  lemma JournalRoundTrip(ds: seq<Decision>)
    ensures ParsedJournal(Some(RenderJournal(ds))) == ds
  {
    DecisionsRoundTrip(ds);
    UnwrapWrap(JournalValue(ds), "## Решения по задаче");
    ParsedList(Some(RenderJournal(ds)), JournalValue(ds).items);
  }

  lemma ParsedList(payload: Option<string>, items: seq<Value>)
    requires Unwrap(payload) == Some(Arr(items))
    ensures ParsedJournal(payload) == DecisionsOf(items)
  {
  }

  // ---------------------------------------------------------------------------------------------
  // Drafts and interpretations

  function RenderDraft(d: Draft): string {
    Wrap(Obj([Field("question_id", Str(d.questionId)), Field("interpretation", d.interpretation),
              Field("announced", Bool(d.announced))]),
         "## Ожидает подтверждения")
  }

  function DraftOf(v: Value): Option<Draft> {
    if !v.Obj? then None
    else
      var announced := match Get(v.fields, "announced") case Some(a) => Truthy(a) case None => false;
      match (Get(v.fields, "question_id"), Get(v.fields, "interpretation"))
      case (Some(id), Some(Obj(fields))) => Some(Draft(AsText(id), Obj(fields), announced))
      case _ => None
  }

  function ParseDraft(payload: Option<string>): Option<Draft> {
    match Unwrap(payload) case Some(v) => DraftOf(v) case None => None
  }

  lemma DraftRoundTrip(d: Draft)
    requires d.interpretation.Obj? && Textual(d.interpretation)
    ensures ParseDraft(Some(RenderDraft(d))) == Some(d)
  {
    var f0, f1, f2 := Field("question_id", Str(d.questionId)), Field("interpretation", d.interpretation), Field("announced", Bool(d.announced));
    var fields := [f0, f1, f2];
    GetInThree(f0, f1, f2, "question_id");
    GetInThree(f0, f1, f2, "interpretation");
    GetInThree(f0, f1, f2, "announced");
    UnwrapWrap(Obj(fields), "## Ожидает подтверждения");
  }

  function AmendmentValue(a: Amendment): Value {
    Obj([Field("question_id", Str(a.questionId)), Field("answer", Str(a.answer))])
  }

  /** The interpretation as the JSON object kept in a draft. */
  function Dump(i: Interpretation): Value {
    Obj([Field("answer", Str(i.answer)),
         Field("amendments", Arr(seq(|i.amendments|, k requires 0 <= k < |i.amendments| => AmendmentValue(i.amendments[k]))))])
  }

  function AmendmentOf(v: Value): Option<Amendment> {
    if !v.Obj? then None
    else
      match (Get(v.fields, "question_id"), Get(v.fields, "answer"))
      case (Some(Str(id)), Some(Str(answer))) => Some(Amendment(id, answer))
      case _ => None
  }

  /** All amendments of a list; one malformed amendment spoils the list. */
  function AmendmentsOf(items: seq<Value>): Option<seq<Amendment>> {
    if items == [] then Some([])
    else
      match (AmendmentsOf(items[..|items| - 1]), AmendmentOf(items[|items| - 1]))
      case (Some(more), Some(a)) => Some(more + [a])
      case _ => None
  }

  /** The interpretation kept in a draft, provided it decides the question at all. */
  function Load(v: Value): Option<Interpretation> {
    if !v.Obj? then None
    else
      var amendments := match Get(v.fields, "amendments")
        case Some(Arr(items)) => AmendmentsOf(items)
        case Some(_) => None
        case None => Some([]);
      match (Get(v.fields, "answer"), amendments)
      case (Some(Str(answer)), Some(list)) => if Trim(answer) == "" then None else Some(Interpretation(answer, list))
      case _ => None
  }

  lemma AmendmentRoundTrip(a: Amendment)
    ensures AmendmentOf(AmendmentValue(a)) == Some(a) && Textual(AmendmentValue(a))
  {
    var f0, f1 := Field("question_id", Str(a.questionId)), Field("answer", Str(a.answer));
    GetInThree(f0, f1, f1, "question_id");
    GetInThree(f0, f1, f1, "answer");
  }

  lemma {:induction false} AmendmentsRoundTrip(items: seq<Value>, list: seq<Amendment>)
    requires |items| == |list| && forall k :: 0 <= k < |list| ==> items[k] == AmendmentValue(list[k])
    ensures AmendmentsOf(items) == Some(list) && forall k :: 0 <= k < |items| ==> Textual(items[k])
    decreases |list|
  {
    if list != [] {
      var n := |list| - 1;
      AmendmentsRoundTrip(items[..n], list[..n]);
      AmendmentRoundTrip(list[n]);
      forall k | 0 <= k < |items| ensures Textual(items[k]) { AmendmentRoundTrip(list[k]); }
      assert list == list[..n] + [list[n]];
    }
  }

  /** An interpretation survives being kept in a draft exactly when its answer is not blank. */
  lemma DumpLoad(i: Interpretation)
    ensures Dump(i).Obj? && Textual(Dump(i))
    ensures Load(Dump(i)) == if Trim(i.answer) == "" then None else Some(i)
  {
    var items := seq(|i.amendments|, k requires 0 <= k < |i.amendments| => AmendmentValue(i.amendments[k]));
    var f0, f1 := Field("answer", Str(i.answer)), Field("amendments", Arr(items));
    AmendmentsRoundTrip(items, i.amendments);
    GetInThree(f0, f1, f1, "answer");
    GetInThree(f0, f1, f1, "amendments");
  }
}
