/** White space, decimal numbers and letter case. */
module Chars {
  import opened Texts

  predicate IsSpace(c: char) {
    || '\U{09}' <= c <= '\U{0D}' || '\U{1C}' <= c <= ' ' || c == '\U{85}' || c == '\U{A0}' || c == '\U{1680}'
    || '\U{2000}' <= c <= '\U{200A}' || c == '\U{2028}' || c == '\U{2029}' || c == '\U{202F}' || c == '\U{205F}'
    || c == '\U{3000}'
  }

  function TrimLeft(s: string, drop: char -> bool): string {
    if s != "" && drop(s[0]) then TrimLeft(s[1..], drop) else s
  }

  function TrimRight(s: string, drop: char -> bool): string {
    if s != "" && drop(s[|s| - 1]) then TrimRight(s[..|s| - 1], drop) else s
  }

  /** The text without white space around it. */
  function Trim(s: string): string {
    TrimRight(TrimLeft(s, IsSpace), IsSpace)
  }

  /** Small letters for the Latin and the Russian alphabet. */
  function LowerChar(c: char): char {
    if 'A' <= c <= 'Z' || 'А' <= c <= 'Я' then (c as int + 32) as char
    else if c == 'Ё' then 'ё'
    else c
  }

  function Lower(s: string): string {
    if s == "" then "" else [LowerChar(s[0])] + Lower(s[1..])
  }

  predicate IsDigit(c: char) {
    '0' <= c <= '9'
  }

  predicate AllDigits(s: string) {
    forall i :: 0 <= i < |s| ==> IsDigit(s[i])
  }

  /** The number a run of decimal digits stands for. */
  function Number(s: string): nat
    requires AllDigits(s)
  {
    if s == "" then 0 else 10 * Number(s[..|s| - 1]) + (s[|s| - 1] as int - '0' as int)
  }

  function Decimal(n: nat): (s: string)
    ensures s != "" && AllDigits(s)
  {
    var last := [('0' as int + n % 10) as char];
    if n < 10 then last else Decimal(n / 10) + last
  }

  lemma {:induction false} NumberOfDecimal(n: nat)
    ensures Number(Decimal(n)) == n
  {
    var s := Decimal(n);
    if n < 10 {
      assert s[..|s| - 1] == "";
    } else {
      NumberOfDecimal(n / 10);
      assert s[..|s| - 1] == Decimal(n / 10);
    }
  }

  /** Length of the run of digits that ends `s`. */
  function TailDigits(s: string): (k: nat)
    ensures k <= |s| && AllDigits(s[|s| - k..])
    ensures k < |s| ==> !IsDigit(s[|s| - k - 1])
  {
    if s != "" && IsDigit(s[|s| - 1]) then
      var t := s[..|s| - 1];
      var k := TailDigits(t);
      assert s[|s| - k - 1..] == t[|t| - k..] + [s[|s| - 1]];
      k + 1
    else 0
  }

  /** The number after the last hyphen, when nothing but digits (and at most one line end) follows that hyphen. */
  function TrailingNumber(id: string): Option<nat> {
    var s := if id != "" && id[|id| - 1] == '\n' then id[..|id| - 1] else id;
    var k := TailDigits(s);
    if 0 < k < |s| && s[|s| - k - 1] == '-' then Some(Number(s[|s| - k..])) else None
  }

  /** The identifier of the `n`th question of a kind. */
  function MakeId(kind: string, n: nat): string {
    kind + "-" + Decimal(n)
  }

  lemma {:induction false} TailDigitsAre(head: string, digits: string)
    requires head != "" && !IsDigit(head[|head| - 1]) && AllDigits(digits)
    ensures TailDigits(head + digits) == |digits|
    decreases |digits|
  {
    if digits == "" {
      assert head + digits == head;
    } else {
      var n := |digits| - 1;
      TailDigitsAre(head, digits[..n]);
      assert (head + digits)[..|head| + n] == head + digits[..n];
    }
  }

  lemma TrailingNumberOfId(kind: string, n: nat)
    ensures TrailingNumber(MakeId(kind, n)) == Some(n)
  {
    var head, digits := kind + "-", Decimal(n);
    var id := MakeId(kind, n);
    assert id == head + digits;
    assert id[|id| - 1] == digits[|digits| - 1];
    TailDigitsAre(head, digits);
    assert id[|id| - |digits|..] == digits;
    assert id[|id| - |digits| - 1] == head[|head| - 1];
    NumberOfDecimal(n);
  }

  lemma MakeIdInjective(kind: string, n: nat, kind': string, n': nat)
    requires MakeId(kind, n) == MakeId(kind', n')
    ensures kind == kind' && n == n'
  {
    TrailingNumberOfId(kind, n);
    TrailingNumberOfId(kind', n');
    KindOfId(kind, Decimal(n));
    KindOfId(kind', Decimal(n'));
  }

  lemma KindOfId(kind: string, digits: string)
    ensures var id := kind + "-" + digits; |digits| < |id| && id[..|id| - |digits| - 1] == kind
  {
  }
}
