/** What a command of a person says: an option by its number, a confirmation, or the identifier of a question. */
module Commands {
  import opened Chars
  import opened Journal
  import opened Protocol
  import opened Records
  import opened Texts
  import opened Words

  // ---------------------------------------------------------------------------------------------
  // Confirmations

  /** The words that confirm. */
  predicate YesWord(w: string) {
    || w == "да" || w == "ага" || w == "угу" || w == "yes" || w == "y" || w == "ок" || w == "окей" || w == "ok"
    || w == "okay" || w == "подтверждаю" || w == "верно" || w == "точно" || w == "согласен" || w == "согласна" || w == "+"
  }

  lemma YesWords(w: string)
    ensures w in CONFIRMATIONS <==> YesWord(w)
  {
  }

  /** A blank, a tab, or one of the marks `.!?,;:`. */
  predicate IsMark(c: char) {
    c == ' ' || c == '\t' || c == '.' || c == '!' || c == '?' || c == ',' || c == ';' || c == ':'
  }

  lemma MarksAreTail(s: string)
    ensures AllOf(s, IsMark) <==> AllOf(s, IsTailMark)
  {
  }

  lemma LowerMarks(s: string)
    ensures AllOf(Lower(s), IsTailMark) <==> AllOf(s, IsTailMark)
  {
    LowerAt(s);
    forall i | 0 <= i < |s| ensures IsTailMark(Lower(s)[i]) <==> IsTailMark(s[i]) { LowerTail(s[i]); }
  }

  lemma LowerTail(c: char)
    ensures IsTailMark(LowerChar(c)) <==> IsTailMark(c)
  {
  }

  /** A text without white space at its ends confirms by what is left without marks. */
  lemma ConfirmsBy(answer: string)
    requires Bare(answer, IsSpace)
    ensures IsConfirmation(answer) <==> Stripped(Lower(answer), IsTailMark) in CONFIRMATIONS
  {
    StrippedOf("", answer, "", IsSpace);
    assert "" + answer + "" == answer;
  }

  /** White space around it makes no difference. */
  lemma SpaceDoesNotMatter(x: string, answer: string, y: string)
    requires AllOf(x, IsSpace) && AllOf(y, IsSpace)
    ensures IsConfirmation(x + answer + y) <==> IsConfirmation(answer)
  {
    StripAround(x, answer, y, IsSpace);
  }

  /** Small and capital letters make no difference. */
  lemma CaseDoesNotMatter(answer: string)
    ensures IsConfirmation(Lower(answer)) <==> IsConfirmation(answer)
  {
    TrimLower(answer);
    LowerTwice(Trim(answer));
  }

  lemma TrimIsBare(s: string)
    ensures Bare(Trim(s), IsSpace) && Trim(Trim(s)) == Trim(s)
  {
    var a, b := StrippedShape(s, IsSpace);
    StrippedOf("", Trim(s), "", IsSpace);
    assert "" + Trim(s) + "" == Trim(s);
  }

  /** Marks put around a text, in any number, make no difference. */
  lemma MarksDoNotMatter(u: string, answer: string, v: string)
    requires AllOf(u, IsMark) && AllOf(v, IsMark) && Bare(answer, IsSpace)
    ensures IsConfirmation(u + answer + v) <==> IsConfirmation(answer)
  {
    var whole := u + answer + v;
    MarksAreTail(u);
    MarksAreTail(v);
    ConfirmsBy(answer);
    if answer == "" {
      MarksAlone(u + v);
      MarksAlone("");
      assert whole == u + v;
    } else {
      var u', v' := TrimAround(u, answer, v);
      LowerThree(u', answer, v');
      LowerMarks(u');
      LowerMarks(v');
      StripAround(Lower(u'), Lower(answer), Lower(v'), IsTailMark);
    }
  }

  /** Marks alone confirm nothing. */
  lemma MarksAlone(s: string)
    requires AllOf(s, IsTailMark)
    ensures !IsConfirmation(s)
  {
    var a, b := StrippedShape(s, IsSpace);
    var t := Trim(s);
    AllJoin(a + t, b, IsTailMark);
    AllJoin(a, t, IsTailMark);
    LowerMarks(t);
    StrippedOf(Lower(t), "", "", IsTailMark);
    assert Lower(t) + "" + "" == Lower(t);
    YesWords("");
  }

  /** What trimming leaves of the marks around a text that begins and ends with something else than white space. */
  lemma TrimAround(u: string, answer: string, v: string) returns (u': string, v': string)
    requires AllOf(u, IsTailMark) && AllOf(v, IsTailMark) && answer != "" && Bare(answer, IsSpace)
    ensures Trim(u + answer + v) == u' + answer + v' && AllOf(u', IsTailMark) && AllOf(v', IsTailMark)
  {
    var a := TrimLeftShape(u, IsSpace);
    var b := TrimRightShape(v, IsSpace);
    u', v' := TrimLeft(u, IsSpace), TrimRight(v, IsSpace);
    AllJoin(a, u', IsTailMark);
    AllJoin(v', b, IsTailMark);
    Nested(a, u', answer, v', b);
    var t := u' + answer + v';
    assert t[0] == (if u' != "" then u'[0] else answer[0]);
    assert t[|t| - 1] == (if v' != "" then v'[|v'| - 1] else answer[|answer| - 1]);
    StrippedOf(a, t, b, IsSpace);
    assert a + t + b == u + answer + v;
  }

  /** A word without marks at its ends confirms exactly when it is, in some case of letters, one of the fifteen. */
  lemma ConfirmationWords(w: string)
    requires Bare(w, IsSpace) && Bare(w, IsMark)
    ensures IsConfirmation(w) <==> YesWord(Lower(w))
  {
    ConfirmsBy(w);
    LowerAt(w);
    if w != "" {
      LowerTail(w[0]);
      LowerTail(w[|w| - 1]);
    }
    StrippedOf("", Lower(w), "", IsTailMark);
    assert "" + Lower(w) + "" == Lower(w);
    YesWords(Lower(w));
  }

  /** Among them the word the comment asks for, however it is written. */
  lemma DaConfirms()
    ensures IsConfirmation("да") && IsConfirmation("Да.")
  {
    LowerAt("Да");
    assert Lower("Да") == "да";
    LowerAt("да");
    assert Lower("да") == "да";
    ConfirmationWords("да");
    ConfirmationWords("Да");
    MarksDoNotMatter("", "Да", ".");
    assert "" + "Да" + "." == "Да.";
  }

  /** A text is a confirmation exactly when it is one of the words, with marks around it and then white space. */
  lemma ConfirmationIff(answer: string)
    ensures IsConfirmation(answer) <==> exists w: string :: YesWord(Lower(w)) && Dressed(answer, w)
  {
    if IsConfirmation(answer) {
      var w := ConfirmingWord(answer);
    } else if w: string :| YesWord(Lower(w)) && Dressed(answer, w) {
      DressedConfirms(answer, w);
      assert false;
    }
  }

  /** The word, with marks around it, and white space around that. */
  ghost predicate Dressed(answer: string, w: string) {
    exists u: string, v: string :: AllOf(u, IsMark) && AllOf(v, IsMark) && Within(answer, u + w + v, IsSpace)
  }

  lemma WordIsBare(w: string)
    requires YesWord(Lower(w))
    ensures w != "" && Bare(w, IsSpace) && Bare(w, IsMark)
  {
    YesEnds(Lower(w));
    LowerAt(w);
    LowerSpace(w[0]);
    LowerSpace(w[|w| - 1]);
    LowerTail(w[0]);
    LowerTail(w[|w| - 1]);
  }

  lemma YesEnds(w: string)
    requires YesWord(w)
    ensures w != "" && Bare(w, IsSpace) && Bare(w, IsTailMark)
  {
  }

  lemma DressedConfirms(answer: string, w: string)
    requires YesWord(Lower(w)) && Dressed(answer, w)
    ensures IsConfirmation(answer)
  {
    WordIsBare(w);
    ConfirmationWords(w);
    var u: string, v: string :| AllOf(u, IsMark) && AllOf(v, IsMark) && Within(answer, u + w + v, IsSpace);
    MarksDoNotMatter(u, w, v);
    var a: string, b: string :| Words.Around(answer, a, u + w + v, b, IsSpace);
    SpaceDoesNotMatter(a, u + w + v, b);
  }

  lemma ConfirmingWord(answer: string) returns (w: string)
    requires IsConfirmation(answer)
    ensures YesWord(Lower(w)) && Dressed(answer, w)
  {
    var t := Trim(answer);
    var a, b := StrippedShape(answer, IsSpace);
    var u, v := StrippedShape(Lower(t), IsTailMark);
    var x, y;
    x, w, y := LowerParts(t, u, Stripped(Lower(t), IsTailMark), v);
    LowerMarks(x);
    LowerMarks(y);
    MarksAreTail(x);
    MarksAreTail(y);
    YesWords(Lower(w));
    assert Words.Around(answer, a, x + w + y, b, IsSpace);
  }

  /** The parts of a text of which these are the small letters. */
  lemma LowerParts(t: string, u: string, m: string, v: string) returns (x: string, w: string, y: string)
    requires Lower(t) == u + m + v
    ensures t == x + w + y && Lower(x) == u && Lower(w) == m && Lower(y) == v
  {
    LowerAt(t);
    x, y := t[..|u|], t[|t| - |v|..];
    w := t[|u|..|t| - |v|];
    assert t == x + w + y;
    LowerThree(x, w, y);
    LowerAt(x);
    LowerAt(y);
    SameParts(Lower(x), Lower(w), Lower(y), u, m, v);
  }

  lemma SameParts(a: string, b: string, c: string, x: string, y: string, z: string)
    requires a + b + c == x + y + z && |a| == |x| && |c| == |z|
    ensures a == x && b == y && c == z
  {
    var s := a + b + c;
    assert s[..|a|] == a && s[..|x|] == x;
    assert s[|a|..|a| + |b|] == b && s[|x|..|x| + |y|] == y;
    assert s[|a| + |b|..] == c && s[|x| + |y|..] == z;
  }

  // ---------------------------------------------------------------------------------------------
  // The kind an identifier speaks of

  predicate NoHyphen(s: string) {
    forall i :: 0 <= i < |s| ==> s[i] != '-'
  }

  lemma {:induction false} LastHyphenAt(kind: string, tail: string)
    requires NoHyphen(tail)
    ensures LastHyphen(kind + "-" + tail) == |kind|
    decreases |tail|
  {
    var s := kind + "-" + tail;
    if tail == "" {
      assert s[|s| - 1] == '-';
    } else {
      var n := |tail| - 1;
      assert s[..|s| - 1] == kind + "-" + tail[..n] && s[|s| - 1] == tail[n];
      LastHyphenAt(kind, tail[..n]);
    }
  }

  lemma {:induction false} NoHyphenNone(s: string)
    requires NoHyphen(s)
    ensures LastHyphen(s) == -1
    decreases |s|
  {
    if s != "" { NoHyphenNone(s[..|s| - 1]); }
  }

  /** The kind is all before the last hyphen, a text without one is its own kind, and none is the kind of an answer. */
  lemma KindIs(kind: string, tail: string)
    requires NoHyphen(tail)
    ensures KindOf(kind + "-" + tail) == if kind == "" then "answer" else kind
    ensures KindOf(tail) == if tail == "" then "answer" else tail
  {
    var id := kind + "-" + tail;
    LastHyphenAt(kind, tail);
    assert id[..|kind|] == kind;
    NoHyphenNone(tail);
  }

  /** The kind of an identifier the code made is the kind it was made for. */
  lemma KindOfMade(kind: string, n: nat)
    requires kind != ""
    ensures KindOf(MakeId(kind, n)) == kind
  {
    assert AllDigits(Decimal(n));
    KindIs(kind, Decimal(n));
  }

  /** The question asked in place of a lost one is of its kind, without options, and numbered past it and past all others. */
  lemma RevivedIs(j: seq<Decision>, kind: string, n: nat)
    requires kind != ""
    ensures Revived(j, MakeId(kind, n)) == Question(MakeId(kind, Max(MaxUsed(j, kind), n) + 1), kind,
      "Вопрос пропал из тела задачи — прежние варианты недействительны.", [], false)
  {
    var lost := Decision(MakeId(kind, n), kind, "", "", "");
    KindOfMade(kind, n);
    TrailingNumberOfId(kind, n);
    assert (j + [lost])[..|j|] == j;
  }

  /** The open question, announced, is the one asked in place of the `n`th of this kind. */
  predicate InPlaceOfKind(open: Option<Question>, j: seq<Decision>, kind: string, n: nat) {
    && open.Some? && open.value.kind == kind && open.value.id == MakeId(kind, Max(MaxUsed(j, kind), n) + 1)
    && open.value.text == "Вопрос пропал из тела задачи — прежние варианты недействительны."
    && open.value.options == [] && open.value.announced
  }

  lemma RevivedOpen(open: Option<Question>, j: seq<Decision>, id: string, kind: string, n: nat)
    requires kind != "" && id == MakeId(kind, n) && open == Some(Revived(j, id).(announced := true))
    ensures InPlaceOfKind(open, j, kind, n)
  {
    RevivedIs(j, kind, n);
  }

  // ---------------------------------------------------------------------------------------------
  // Options by number

  lemma {:induction false} DecimalLength(k: nat, digits: nat)
    requires 1 <= digits && k < Power(digits)
    ensures |Decimal(k)| <= digits
    decreases digits
  {
    if 10 <= k { DecimalLength(k / 10, digits - 1); }
  }

  /** Ten to the power of `digits`. */
  function Power(digits: nat): nat {
    if digits == 0 then 1 else 10 * Power(digits - 1)
  }

  /** The number of an option, written plainly, chooses that option. */
  lemma NumberIsChoice(k: nat, n: nat)
    requires 1 <= k <= n && k <= 9999
    ensures Trim(Decimal(k)) == Decimal(k) && IsChoice(Decimal(k), n) && Number(Decimal(k)) == k
  {
    var s := Decimal(k);
    assert Power(4) == 10000;
    DecimalLength(k, 4);
    NumberOfDecimal(k);
    assert !IsSpace(s[0]) && !IsSpace(s[|s| - 1]) by { assert IsDigit(s[0]) && IsDigit(s[|s| - 1]); }
    TrimIsItself(s);
  }

  lemma TrimIsItself(s: string)
    requires Bare(s, IsSpace)
    ensures Trim(s) == s
  {
    StrippedOf("", s, "", IsSpace);
    assert "" + s + "" == s;
  }

  predicate Zeros(s: string) {
    forall i :: 0 <= i < |s| ==> s[i] == '0'
  }

  /** Digits are some zeros and the plain form of their number, if that is not zero. */
  lemma {:induction false} DigitsShape(s: string) returns (z: string)
    requires AllDigits(s) && 1 <= Number(s)
    ensures Zeros(z) && s == z + Decimal(Number(s))
    decreases |s|
  {
    var n := |s| - 1;
    var last := [s[n]];
    if Number(s[..n]) == 0 {
      z := s[..n];
      ZeroDigits(z);
      assert Decimal(Number(s)) == last;
    } else {
      z := DigitsShape(s[..n]);
      DecimalMore(Number(s[..n]), s[n]);
      assert z + (Decimal(Number(s[..n])) + last) == s[..n] + last;
    }
    assert s == s[..n] + last;
  }

  lemma DecimalMore(k: nat, c: char)
    requires 1 <= k && IsDigit(c)
    ensures Decimal(10 * k + (c as int - '0' as int)) == Decimal(k) + [c]
  {
    var n := 10 * k + (c as int - '0' as int);
    assert n / 10 == k && n % 10 == c as int - '0' as int;
  }

  lemma {:induction false} ZeroDigits(s: string)
    requires AllDigits(s) && Number(s) == 0
    ensures Zeros(s)
    decreases |s|
  {
    if s != "" { ZeroDigits(s[..|s| - 1]); }
  }

  /** A choice is the number of an option, with zeros before it or none, of at most four digits. */
  lemma ChoiceIff(answer: string, n: nat)
    ensures IsChoice(answer, n) <==>
      |answer| <= 4 && exists k: nat, z: string :: 1 <= k <= n && Zeros(z) && answer == z + Decimal(k)
  {
    if IsChoice(answer, n) {
      var z := DigitsShape(answer);
      assert 1 <= Number(answer) <= n && answer == z + Decimal(Number(answer));
    }
    if |answer| <= 4 && exists k: nat, z: string :: 1 <= k <= n && Zeros(z) && answer == z + Decimal(k) {
      var k: nat, z: string :| 1 <= k <= n && Zeros(z) && answer == z + Decimal(k);
      NumberAfterZeros(z, k);
    }
  }

  lemma NumberAfterZeros(z: string, k: nat)
    requires Zeros(z)
    ensures AllDigits(z + Decimal(k)) && Number(z + Decimal(k)) == k
  {
    assert AllDigits(Decimal(k));
    NumberJoin(z, Decimal(k));
    NumberOfDecimal(k);
  }

  lemma {:induction false} NumberJoin(z: string, s: string)
    requires Zeros(z) && AllDigits(s)
    ensures AllDigits(z + s) && Number(z + s) == Number(s)
    decreases |s|
  {
    var t := z + s;
    assert forall i :: 0 <= i < |t| ==> t[i] == if i < |z| then z[i] else s[i - |z|];
    if s == "" {
      assert t == z;
      NumberOfZeros(z);
    } else {
      var n := |s| - 1;
      NumberJoin(z, s[..n]);
      assert t[..|t| - 1] == z + s[..n] && t[|t| - 1] == s[n];
    }
  }

  lemma {:induction false} NumberOfZeros(z: string)
    requires Zeros(z)
    ensures AllDigits(z) && Number(z) == 0
    decreases |z|
  {
    if z != "" { NumberOfZeros(z[..|z| - 1]); }
  }

  // ---------------------------------------------------------------------------------------------
  // What the comment with an interpretation shows

  /** `k` is the last place of the identifier in the journal. */
  predicate LastUnder(j: seq<Decision>, id: string, k: nat) {
    k < |j| && j[k].questionId == id && forall i :: k < i < |j| ==> j[i].questionId != id
  }

  /** Of an entry to be amended it shows the answer of the last entry under its identifier, or a dash if there is none. */
  lemma WasAnswerIs(j: seq<Decision>, id: string)
    ensures forall k: nat :: LastUnder(j, id, k) ==> WasAnswer(j, id) == j[k].answer
    ensures !Known(j, id) ==> WasAnswer(j, id) == "—"
  {
  }

  /** The comment names the question, the interpretation, and for each amendment in order the answer it replaces. */
  lemma ShownSays(q: string, i: Interpretation, j: seq<Decision>)
    ensures var c := Shown(q, i, j);
      && c.ShownComment? && c.questionId == q && c.interpretation == i && |c.was| == |i.amendments|
      && forall k, m: nat :: 0 <= k < |i.amendments| && LastUnder(j, i.amendments[k].questionId, m) ==> c.was[k] == j[m].answer
  {
    forall k, m: nat | 0 <= k < |i.amendments| && LastUnder(j, i.amendments[k].questionId, m)
      ensures Shown(q, i, j).was[k] == j[m].answer
    {
      WasAnswerIs(j, i.amendments[k].questionId);
    }
  }
}
