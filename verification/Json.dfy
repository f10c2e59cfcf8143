/** JSON as the records are written (indent 2, no ASCII escaping) and as it is read back. */
module Json {
  import opened Chars
  import opened Texts

  datatype Value =
    | Null
    | Bool(b: bool)
    | Num(lexeme: string)
    | Str(s: string)
    | Arr(items: seq<Value>)
    | Obj(fields: seq<Field>)

  datatype Field = Field(key: string, value: Value)

  // ---------------------------------------------------------------------------------------------
  // Printing

  function Hex(d: nat): char
    requires d < 16
  {
    "0123456789abcdef"[d]
  }

  function EscapeChar(c: char): string {
    if c == '"' then "\\\""
    else if c == '\\' then "\\\\"
    else if c == '\n' then "\\n"
    else if c == '\r' then "\\r"
    else if c == '\t' then "\\t"
    else if c == '\U{0C}' then "\\f"
    else if c == '\U{08}' then "\\b"
    else if c < ' ' then "\\u00" + [Hex(c as int / 16), Hex(c as int % 16)]
    else [c]
  }

  function Escape(s: string): string {
    if s == "" then "" else EscapeChar(s[0]) + Escape(s[1..])
  }

  function Quote(s: string): string {
    "\"" + (Escape(s) + "\"")
  }

  function Spaces(n: nat): string {
    seq(n, _ => ' ')
  }

  function NewLine(depth: nat): string {
    "\n" + Spaces(2 * depth)
  }

  function Print(v: Value, depth: nat): string
    decreases v, 1
  {
    match v
    case Null => "null"
    case Bool(b) => if b then "true" else "false"
    case Num(lexeme) => lexeme
    case Str(s) => Quote(s)
    case Arr(items) => if items == [] then "[]" else "[" + (NewLine(depth + 1) + PrintItems(items, depth))
    case Obj(fields) => if fields == [] then "{}" else "{" + (NewLine(depth + 1) + PrintFields(fields, depth))
  }

  /** The items of an array at `depth`, up to and with the closing bracket. */
  function PrintItems(items: seq<Value>, depth: nat): string
    requires items != []
    decreases items, 0
  {
    Print(items[0], depth + 1) + if |items| == 1 then NewLine(depth) + "]"
      else "," + (NewLine(depth + 1) + PrintItems(items[1..], depth))
  }

  function PrintFields(fields: seq<Field>, depth: nat): string
    requires fields != []
    decreases fields, 0
  {
    var value := Print(fields[0].value, depth + 1);
    (Quote(fields[0].key) + (": " + value)) + if |fields| == 1 then NewLine(depth) + "}"
      else "," + (NewLine(depth + 1) + PrintFields(fields[1..], depth))
  }

  // ---------------------------------------------------------------------------------------------
  // Parsing

  predicate IsWs(c: char) {
    c == ' ' || c == '\t' || c == '\n' || c == '\r'
  }

  function SkipWs(s: string): (r: string)
    ensures |r| <= |s|
  {
    if s != "" && IsWs(s[0]) then SkipWs(s[1..]) else s
  }

  function HexValue(c: char): Option<nat> {
    if '0' <= c <= '9' then Some(c as int - '0' as int)
    else if 'a' <= c <= 'f' then Some(c as int - 'a' as int + 10)
    else if 'A' <= c <= 'F' then Some(c as int - 'A' as int + 10)
    else None
  }

  /** The character named by four hexadecimal digits, if they name one. */
  function HexChar(s: string): Option<char>
    requires 4 <= |s|
  {
    match (HexValue(s[0]), HexValue(s[1]), HexValue(s[2]), HexValue(s[3]))
    case (Some(a), Some(b), Some(c), Some(d)) =>
      var n := a * 4096 + b * 256 + c * 16 + d;
      if n < 0xD800 || 0xE000 <= n <= 0xFFFF then Some(n as char) else None
    case _ => None
  }

  function SimpleEscape(c: char): Option<char> {
    if c == '"' || c == '\\' || c == '/' then Some(c)
    else if c == 'b' then Some('\U{08}')
    else if c == 'f' then Some('\U{0C}')
    else if c == 'n' then Some('\n')
    else if c == 'r' then Some('\r')
    else if c == 't' then Some('\t')
    else None
  }

  /** One character of a string literal, and what follows it. */
  function ParseChar(s: string): (r: Option<(char, string)>)
    requires s != ""
    ensures r.Some? ==> |r.value.1| < |s|
  {
    if s[0] == '\\' then
      if |s| < 2 then None
      else if s[1] == 'u' then
        if |s| < 6 then None
        else match HexChar(s[2..6]) case Some(c) => Some((c, s[6..])) case None => None
      else match SimpleEscape(s[1]) case Some(c) => Some((c, s[2..])) case None => None
    else if s[0] < ' ' then None
    else Some((s[0], s[1..]))
  }

  /** The rest of a string literal after its opening quote. */
  function ParseString(s: string): (r: Option<(string, string)>)
    ensures r.Some? ==> |r.value.1| < |s|
    decreases |s|
  {
    if s == "" then None
    else if s[0] == '"' then Some(("", s[1..]))
    else
      match ParseChar(s)
      case None => None
      case Some((c, more)) =>
        match ParseString(more)
        case None => None
        case Some((t, rest)) => Some(([c] + t, rest))
  }

  function Digits(s: string): (n: nat)
    ensures n <= |s|
  {
    if s != "" && '0' <= s[0] <= '9' then 1 + Digits(s[1..]) else 0
  }

  /** Length of the number at the head of `s`; zero when there is none. */
  function NumberLength(s: string): (n: nat)
    ensures n <= |s|
  {
    var sign := if s != "" && s[0] == '-' then 1 else 0;
    var whole := if s[sign..] != "" && s[sign] == '0' then 1 else Digits(s[sign..]);
    if whole == 0 then 0
    else
      var i := sign + whole;
      var part := if s[i..] != "" && s[i] == '.' then Digits(s[i + 1..]) else 0;
      var j := if part == 0 then i else i + 1 + part;
      if s[j..] != "" && (s[j] == 'e' || s[j] == 'E') then
        var k := if s[j + 1..] != "" && (s[j + 1] == '+' || s[j + 1] == '-') then j + 2 else j + 1;
        if Digits(s[k..]) == 0 then j else k + Digits(s[k..])
      else j
  }

  function ParseWord(s: string): (r: Option<(Value, string)>)
    ensures r.Some? ==> |r.value.1| < |s|
  {
    if "null" <= s then Some((Null, s[4..]))
    else if "true" <= s then Some((Bool(true), s[4..]))
    else if "false" <= s then Some((Bool(false), s[5..]))
    else if NumberLength(s) != 0 then Some((Num(s[..NumberLength(s)]), s[NumberLength(s)..]))
    else if "NaN" <= s then Some((Num("NaN"), s[3..]))
    else if "Infinity" <= s then Some((Num("Infinity"), s[8..]))
    else if "-Infinity" <= s then Some((Num("-Infinity"), s[9..]))
    else None
  }

  function ParseValue(s: string): (r: Option<(Value, string)>)
    ensures r.Some? ==> |r.value.1| < |s|
    decreases |s|, 1
  {
    if s == "" then None
    else if s[0] == '"' then
      match ParseString(s[1..]) case None => None case Some((t, rest)) => Some((Str(t), rest))
    else if s[0] == '[' then
      var t := SkipWs(s[1..]);
      if t != "" && t[0] == ']' then Some((Arr([]), t[1..]))
      else match ParseItems(t) case None => None case Some((items, rest)) => Some((Arr(items), rest))
    else if s[0] == '{' then
      var t := SkipWs(s[1..]);
      if t != "" && t[0] == '}' then Some((Obj([]), t[1..]))
      else match ParseFields(t) case None => None case Some((fields, rest)) => Some((Obj(fields), rest))
    else ParseWord(s)
  }

  function ParseItems(s: string): (r: Option<(seq<Value>, string)>)
    ensures r.Some? ==> |r.value.1| < |s|
    decreases |s|, 2
  {
    match ParseValue(s)
    case None => None
    case Some((v, more)) =>
      var t := SkipWs(more);
      if t != "" && t[0] == ']' then Some(([v], t[1..]))
      else if t != "" && t[0] == ',' then
        match ParseItems(SkipWs(t[1..]))
        case None => None
        case Some((vs, rest)) => Some(([v] + vs, rest))
      else None
  }

  /** One key, its colon and its value. */
  function ParseField(s: string): (r: Option<(Field, string)>)
    ensures r.Some? ==> |r.value.1| < |s|
    decreases |s|, 2
  {
    if s == "" || s[0] != '"' then None
    else
      match ParseString(s[1..])
      case None => None
      case Some((key, more)) =>
        var colon := SkipWs(more);
        if colon == "" || colon[0] != ':' then None
        else
          match ParseValue(SkipWs(colon[1..]))
          case None => None
          case Some((v, rest)) => Some((Field(key, v), rest))
  }

  function ParseFields(s: string): (r: Option<(seq<Field>, string)>)
    ensures r.Some? ==> |r.value.1| < |s|
    decreases |s|, 3
  {
    match ParseField(s)
    case None => None
    case Some((f, more)) =>
      var t := SkipWs(more);
      if t != "" && t[0] == '}' then Some(([f], t[1..]))
      else if t != "" && t[0] == ',' then
        match ParseFields(SkipWs(t[1..]))
        case None => None
        case Some((fs, rest)) => Some(([f] + fs, rest))
      else None
  }

  /** The value a whole text stands for, white space around it aside. */
  function Loads(s: string): Option<Value> {
    match ParseValue(SkipWs(s))
    case None => None
    case Some((v, rest)) => if SkipWs(rest) == "" then Some(v) else None
  }

  // ---------------------------------------------------------------------------------------------
  // Reading back what was printed

  /** A value without numbers: the records hold texts, flags, lists and objects. */
  predicate Textual(v: Value)
    decreases v
  {
    match v
    case Num(_) => false
    case Arr(items) => forall i :: 0 <= i < |items| ==> Textual(items[i])
    case Obj(fields) => forall i :: 0 <= i < |fields| ==> Textual(fields[i].value)
    case _ => true
  }

  lemma HexOfDigit(d: nat)
    requires d < 16
    ensures HexValue(Hex(d)) == Some(d)
  {
  }

  /** A control character without a short form of its own. */
  lemma ParseHex(c: char, tail: string)
    requires c < ' '
    ensures ParseChar("\\u00" + [Hex(c as int / 16), Hex(c as int % 16)] + tail) == Some((c, tail))
  {
    var digits := "00" + [Hex(c as int / 16), Hex(c as int % 16)];
    HexOfDigit(0);
    HexOfDigit(c as int / 16);
    HexOfDigit(c as int % 16);
    assert HexChar(digits) == Some(c);
    var s := "\\u00" + [Hex(c as int / 16), Hex(c as int % 16)] + tail;
    assert s[2..6] == digits && s[6..] == tail;
  }

  /** A character written after a backslash. */
  lemma ParseSimple(x: char, c: char, tail: string)
    requires SimpleEscape(x) == Some(c) && x != 'u'
    ensures ParseChar(['\\', x] + tail) == Some((c, tail))
  {
    assert (['\\', x] + tail)[2..] == tail;
  }

  lemma ParsePlain(c: char, tail: string)
    requires ' ' <= c && c != '\\'
    ensures ParseChar([c] + tail) == Some((c, tail))
  {
    assert ([c] + tail)[1..] == tail;
  }

  lemma ParseEscapedChar(c: char, tail: string)
    ensures ParseChar(EscapeChar(c) + tail) == Some((c, tail)) && EscapeChar(c)[0] != '"'
  {
    var e := EscapeChar(c);
    if |e| == 1 {
      ParsePlain(c, tail);
    } else if |e| == 2 {
      ParseSimple(e[1], c, tail);
      assert e == ['\\', e[1]];
    } else {
      ParseHex(c, tail);
    }
  }

  /** One escaped character before a text that is parsed. */
  lemma ParseMore(c: char, tail: string, t: string, rest: string)
    requires ParseString(tail) == Some((t, rest))
    ensures ParseString(EscapeChar(c) + tail) == Some(([c] + t, rest))
  {
    ParseEscapedChar(c, tail);
    ParseOne(EscapeChar(c) + tail, c, tail);
  }

  lemma ParseOne(s: string, c: char, tail: string)
    requires s != "" && s[0] != '"' && ParseChar(s) == Some((c, tail)) && ParseString(tail).Some?
    ensures ParseString(s) == Some(([c] + ParseString(tail).value.0, ParseString(tail).value.1))
  {
  }

  lemma EscapeFirst(s: string, end: string)
    requires s != ""
    ensures Escape(s) + end == EscapeChar(s[0]) + (Escape(s[1..]) + end) && [s[0]] + s[1..] == s
  {
    Associate(EscapeChar(s[0]), Escape(s[1..]), end);
  }

  lemma {:induction false} ParseEscaped(s: string, rest: string)
    ensures ParseString(Escape(s) + ("\"" + rest)) == Some((s, rest))
    decreases |s|
  {
    var end := "\"" + rest;
    if s == "" {
      assert Escape(s) + end == end;
      assert end[1..] == rest;
    } else {
      var tail := Escape(s[1..]) + end;
      ParseEscaped(s[1..], rest);
      ParseMore(s[0], tail, s[1..], rest);
      EscapeFirst(s, end);
    }
  }

  lemma ParseQuoted(s: string, rest: string)
    ensures var t := Quote(s) + rest; t != "" && t[0] == '"' && ParseString(t[1..]) == Some((s, rest))
  {
    ParseEscaped(s, rest);
    QuoteParts(Escape(s), rest);
    AfterOne('"', Escape(s) + ("\"" + rest));
  }

  lemma QuoteParts(e: string, rest: string)
    ensures ("\"" + (e + "\"")) + rest == ['"'] + (e + ("\"" + rest))
  {
  }

  /** A printed value opens with a character that is neither white space nor a separator. */
  ghost predicate Opens(p: string) {
    p != "" && !IsWs(p[0]) && !IsSpace(p[0]) && p[0] != ']' && p[0] != '}' && p[0] != ',' && p[0] != ':' && p[0] != '`'
  }

  lemma PrintOpens(v: Value, depth: nat)
    requires Textual(v)
    ensures Opens(Print(v, depth))
  {
  }

  lemma ItemsOpen(items: seq<Value>, depth: nat)
    requires items != [] && Textual(items[0])
    ensures Opens(PrintItems(items, depth))
  {
    PrintOpens(items[0], depth + 1);
  }

  lemma FieldsOpen(fields: seq<Field>, depth: nat)
    requires fields != []
    ensures Opens(PrintFields(fields, depth)) && PrintFields(fields, depth)[0] == '"'
  {
  }

  lemma {:induction false} SkipSpaces(n: nat, x: string)
    requires x != "" && !IsWs(x[0])
    ensures SkipWs(Spaces(n) + x) == x
  {
    if n == 0 {
      assert Spaces(0) + x == x;
    } else {
      SkipSpaces(n - 1, x);
      assert (Spaces(n) + x)[1..] == Spaces(n - 1) + x;
    }
  }

  lemma SkipNewLine(depth: nat, x: string)
    requires x != "" && !IsWs(x[0])
    ensures SkipWs(NewLine(depth) + x) == x
  {
    SkipSpaces(2 * depth, x);
    assert (NewLine(depth) + x)[1..] == Spaces(2 * depth) + x;
  }

  lemma Third(a: string, b: string, c: string)
    ensures (a + b) + c == a + (b + c)
  {
  }

  lemma AfterOne(c: char, s: string)
    ensures ([c] + s)[0] == c && ([c] + s)[1..] == s
  {
  }

  lemma WordsParse(rest: string)
    ensures ParseValue("null" + rest) == Some((Null, rest))
    ensures ParseValue("true" + rest) == Some((Bool(true), rest))
    ensures ParseValue("false" + rest) == Some((Bool(false), rest))
  {
    assert ("null" + rest)[4..] == rest;
    assert ("true" + rest)[4..] == rest;
    assert ("false" + rest)[5..] == rest;
  }

  /** Parsing what was printed gives the value back and stops right after it, whatever follows. */
  lemma {:induction false} ParsePrint(v: Value, depth: nat, rest: string)
    requires Textual(v)
    ensures ParseValue(Print(v, depth) + rest) == Some((v, rest))
    decreases v, 1
  {
    match v
    case Null => WordsParse(rest);
    case Bool(_) => WordsParse(rest);
    case Str(s) => ParseQuoted(s, rest);
    case Arr(items) =>
      if items == [] {
        Third("[", "]", rest);
        AfterOne('[', "]" + rest);
        AfterOne(']', rest);
      } else {
        ParsePrintItems(items, depth, rest);
        ItemsOpen(items, depth);
        OpenedItems(depth + 1, PrintItems(items, depth), items, rest);
      }
    case Obj(fields) =>
      if fields == [] {
        Third("{", "}", rest);
        AfterOne('{', "}" + rest);
        AfterOne('}', rest);
      } else {
        ParsePrintFields(fields, depth, rest);
        FieldsOpen(fields, depth);
        OpenedFields(depth + 1, PrintFields(fields, depth), fields, rest);
      }
  }

  /** After an opening bracket, skipping white space leads to the first item. */
  lemma OpenedList(c: char, depth: nat, p: string, rest: string)
    requires Opens(p)
    ensures var s := ([c] + (NewLine(depth) + p)) + rest;
      s != "" && s[0] == c && SkipWs(s[1..]) == p + rest && (p + rest)[0] == p[0]
  {
    Third([c], NewLine(depth) + p, rest);
    Third(NewLine(depth), p, rest);
    AfterOne(c, NewLine(depth) + (p + rest));
    SkipNewLine(depth, p + rest);
  }

  lemma OpenedItems(depth: nat, p: string, items: seq<Value>, rest: string)
    requires Opens(p) && ParseItems(p + rest) == Some((items, rest))
    ensures ParseValue(("[" + (NewLine(depth) + p)) + rest) == Some((Arr(items), rest))
  {
    OpenedList('[', depth, p, rest);
  }

  lemma OpenedFields(depth: nat, p: string, fields: seq<Field>, rest: string)
    requires Opens(p) && ParseFields(p + rest) == Some((fields, rest))
    ensures ParseValue(("{" + (NewLine(depth) + p)) + rest) == Some((Obj(fields), rest))
  {
    OpenedList('{', depth, p, rest);
  }

  /** After an item: the closing bracket on its own line. */
  lemma ClosedList(depth: nat, c: char, rest: string)
    requires !IsWs(c)
    ensures var t := SkipWs((NewLine(depth) + [c]) + rest); t != "" && t[0] == c && t[1..] == rest
  {
    Third(NewLine(depth), [c], rest);
    SkipNewLine(depth, [c] + rest);
    AfterOne(c, rest);
  }

  /** After an item: a comma and the next item on its own line. */
  lemma NextItem(depth: nat, p: string, rest: string)
    requires Opens(p)
    ensures var s := ("," + (NewLine(depth) + p)) + rest;
      s != "" && s[0] == ',' && SkipWs(s) == s && SkipWs(s[1..]) == p + rest
  {
    Third(",", NewLine(depth) + p, rest);
    Third(NewLine(depth), p, rest);
    AfterOne(',', NewLine(depth) + (p + rest));
    SkipNewLine(depth, p + rest);
  }

  lemma {:induction false} ParsePrintItems(items: seq<Value>, depth: nat, rest: string)
    requires items != [] && forall i :: 0 <= i < |items| ==> Textual(items[i])
    ensures ParseItems(PrintItems(items, depth) + rest) == Some((items, rest))
    decreases items, 0
  {
    var first := Print(items[0], depth + 1);
    assert [items[0]] + items[1..] == items;
    if |items| == 1 {
      var tail := NewLine(depth) + "]";
      ParsePrint(items[0], depth + 1, tail + rest);
      Third(first, tail, rest);
      ClosedList(depth, ']', rest);
      assert [items[0]] == items;
    } else {
      var p := PrintItems(items[1..], depth);
      var tail := "," + (NewLine(depth + 1) + p);
      ParsePrint(items[0], depth + 1, tail + rest);
      Third(first, tail, rest);
      ItemsOpen(items[1..], depth);
      NextItem(depth + 1, p, rest);
      ParsePrintItems(items[1..], depth, rest);
    }
  }

  lemma {:induction false} ParsePrintFields(fields: seq<Field>, depth: nat, rest: string)
    requires fields != [] && forall i :: 0 <= i < |fields| ==> Textual(fields[i].value)
    ensures ParseFields(PrintFields(fields, depth) + rest) == Some((fields, rest))
    decreases fields, 0
  {
    var f := fields[0];
    var first := Quote(f.key) + (": " + Print(f.value, depth + 1));
    assert [f] + fields[1..] == fields;
    if |fields| == 1 {
      var tail := NewLine(depth) + "}";
      ParsePrint(f.value, depth + 1, tail + rest);
      ParsePrintField(f, depth, tail + rest);
      Third(first, tail, rest);
      ClosedList(depth, '}', rest);
      assert [f] == fields;
    } else {
      var p := PrintFields(fields[1..], depth);
      var tail := "," + (NewLine(depth + 1) + p);
      ParsePrint(f.value, depth + 1, tail + rest);
      ParsePrintField(f, depth, tail + rest);
      Third(first, tail, rest);
      FieldsOpen(fields[1..], depth);
      NextItem(depth + 1, p, rest);
      ParsePrintFields(fields[1..], depth, rest);
    }
  }

  lemma ParsePrintField(f: Field, depth: nat, rest: string)
    requires Textual(f.value) && ParseValue(Print(f.value, depth + 1) + rest) == Some((f.value, rest))
    ensures ParseField((Quote(f.key) + (": " + Print(f.value, depth + 1))) + rest) == Some((f, rest))
  {
    var p := Print(f.value, depth + 1);
    PrintOpens(f.value, depth + 1);
    Third(Quote(f.key), ": " + p, rest);
    Third(": ", p, rest);
    ParseQuoted(f.key, ": " + (p + rest));
    var x := p + rest;
    assert x[0] == p[0] && SkipWs(x) == x;
    assert (": " + x)[1..] == [' '] + x;
    AfterOne(' ', x);
    assert SkipWs([' '] + x) == x;
    assert (": " + x)[0] == ':';
    assert SkipWs(": " + x) == ": " + x;
  }

  lemma LoadsPrint(v: Value)
    requires Textual(v)
    ensures Loads(Print(v, 0)) == Some(v)
  {
    ParsePrint(v, 0, "");
    PrintOpens(v, 0);
    assert Print(v, 0) + "" == Print(v, 0);
  }

  // ---------------------------------------------------------------------------------------------
  // No code fence can open inside printed JSON

  /** Every line end in `p` is followed, within `p`, by something other than a backtick. */
  ghost predicate Unfenced(p: string) {
    forall i :: 0 <= i < |p| && p[i] == '\n' ==> i + 1 < |p| && p[i + 1] != '`'
  }

  lemma UnfencedJoin(a: string, b: string)
    requires Unfenced(a) && Unfenced(b)
    ensures Unfenced(a + b)
  {
    var s := a + b;
    forall i | 0 <= i < |s| && s[i] == '\n' ensures i + 1 < |s| && s[i + 1] != '`' {
      if i < |a| { assert a[i] == '\n'; } else { assert b[i - |a|] == '\n'; }
    }
  }

  lemma UnfencedLine(depth: nat, p: string)
    requires Unfenced(p) && p != "" && p[0] != '`'
    ensures Unfenced(NewLine(depth) + p)
  {
    var s := NewLine(depth) + p;
    forall i | 0 <= i < |s| && s[i] == '\n' ensures i + 1 < |s| && s[i + 1] != '`' {
      if |NewLine(depth)| <= i { assert p[i - |NewLine(depth)|] == '\n'; }
    }
  }

  lemma {:induction false} UnfencedEscape(s: string)
    ensures forall i :: 0 <= i < |Escape(s)| ==> Escape(s)[i] != '\n'
    decreases |s|
  {
    if s != "" {
      UnfencedEscape(s[1..]);
      assert forall i :: 0 <= i < |EscapeChar(s[0])| ==> EscapeChar(s[0])[i] != '\n';
    }
  }

  lemma UnfencedQuote(s: string)
    ensures Unfenced(Quote(s))
  {
    UnfencedEscape(s);
  }

  /** A line of printed JSON never starts with a code fence, whatever texts it holds. */
  lemma {:induction false} PrintUnfenced(v: Value, depth: nat)
    requires Textual(v)
    ensures Unfenced(Print(v, depth))
    decreases v, 1
  {
    match v
    case Null =>
    case Bool(_) =>
    case Str(s) => UnfencedQuote(s);
    case Arr(items) =>
      if items != [] {
        ItemsUnfenced(items, depth);
        ItemsOpen(items, depth);
        UnfencedLine(depth + 1, PrintItems(items, depth));
        UnfencedJoin("[", NewLine(depth + 1) + PrintItems(items, depth));
      }
    case Obj(fields) =>
      if fields != [] {
        FieldsUnfenced(fields, depth);
        FieldsOpen(fields, depth);
        UnfencedLine(depth + 1, PrintFields(fields, depth));
        UnfencedJoin("{", NewLine(depth + 1) + PrintFields(fields, depth));
      }
  }

  lemma {:induction false} ItemsUnfenced(items: seq<Value>, depth: nat)
    requires items != [] && forall i :: 0 <= i < |items| ==> Textual(items[i])
    ensures Unfenced(PrintItems(items, depth))
    decreases items, 0
  {
    var first := Print(items[0], depth + 1);
    PrintUnfenced(items[0], depth + 1);
    if |items| == 1 {
      UnfencedLine(depth, "]");
      UnfencedJoin(first, NewLine(depth) + "]");
    } else {
      var p := PrintItems(items[1..], depth);
      ItemsUnfenced(items[1..], depth);
      ItemsOpen(items[1..], depth);
      UnfencedLine(depth + 1, p);
      UnfencedJoin(",", NewLine(depth + 1) + p);
      UnfencedJoin(first, "," + (NewLine(depth + 1) + p));
    }
  }

  lemma {:induction false} FieldsUnfenced(fields: seq<Field>, depth: nat)
    requires fields != [] && forall i :: 0 <= i < |fields| ==> Textual(fields[i].value)
    ensures Unfenced(PrintFields(fields, depth))
    decreases fields, 0
  {
    var f := fields[0];
    var first := Quote(f.key) + (": " + Print(f.value, depth + 1));
    PrintUnfenced(f.value, depth + 1);
    UnfencedQuote(f.key);
    UnfencedJoin(": ", Print(f.value, depth + 1));
    UnfencedJoin(Quote(f.key), ": " + Print(f.value, depth + 1));
    if |fields| == 1 {
      UnfencedLine(depth, "}");
      UnfencedJoin(first, NewLine(depth) + "}");
    } else {
      var p := PrintFields(fields[1..], depth);
      FieldsUnfenced(fields[1..], depth);
      FieldsOpen(fields[1..], depth);
      UnfencedLine(depth + 1, p);
      UnfencedJoin(",", NewLine(depth + 1) + p);
      UnfencedJoin(first, "," + (NewLine(depth + 1) + p));
    }
  }
}
