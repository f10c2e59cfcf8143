/** What trimming and small letters do to a text, said by its characters. */
module Words {
  import opened Chars

  predicate AllOf(s: string, drop: char -> bool) {
    forall i :: 0 <= i < |s| ==> drop(s[i])
  }

  lemma AllJoin(a: string, b: string, drop: char -> bool)
    ensures AllOf(a + b, drop) <==> AllOf(a, drop) && AllOf(b, drop)
  {
    var s := a + b;
    assert forall i :: 0 <= i < |a| ==> s[i] == a[i];
    assert forall i :: 0 <= i < |b| ==> s[|a| + i] == b[i];
  }

  /** Nothing to take off at either end. */
  predicate Bare(t: string, drop: char -> bool) {
    t == "" || (!drop(t[0]) && !drop(t[|t| - 1]))
  }

  /** `t` is `s` with such characters, and nothing else, taken off at both ends. */
  ghost predicate Within(s: string, t: string, drop: char -> bool) {
    exists a: string, b: string :: Around(s, a, t, b, drop)
  }

  predicate Around(s: string, a: string, t: string, b: string, drop: char -> bool) {
    s == a + t + b && AllOf(a, drop) && AllOf(b, drop)
  }

  lemma {:induction false} TrimLeftOf(a: string, t: string, drop: char -> bool)
    requires AllOf(a, drop) && (t == "" || !drop(t[0]))
    ensures TrimLeft(a + t, drop) == t
    decreases |a|
  {
    if a == "" {
      assert a + t == t;
    } else {
      assert (a + t)[1..] == a[1..] + t && (a + t)[0] == a[0];
      TrimLeftOf(a[1..], t, drop);
    }
  }

  lemma {:induction false} TrimRightOf(t: string, b: string, drop: char -> bool)
    requires AllOf(b, drop) && (t == "" || !drop(t[|t| - 1]))
    ensures TrimRight(t + b, drop) == t
    decreases |b|
  {
    if b == "" {
      assert t + b == t;
    } else {
      var n := |b| - 1;
      assert (t + b)[..|t| + n] == t + b[..n] && (t + b)[|t| + n] == b[n];
      TrimRightOf(t, b[..n], drop);
    }
  }

  function Stripped(s: string, drop: char -> bool): string {
    TrimRight(TrimLeft(s, drop), drop)
  }

  lemma StrippedOf(a: string, t: string, b: string, drop: char -> bool)
    requires AllOf(a, drop) && AllOf(b, drop) && Bare(t, drop)
    ensures Stripped(a + t + b, drop) == t
  {
    if t == "" {
      assert a + t + b == (a + b) + "" && AllOf(a + b, drop);
      TrimLeftOf(a + b, "", drop);
    } else {
      assert a + t + b == a + (t + b) && (t + b)[0] == t[0];
      TrimLeftOf(a, t + b, drop);
      TrimRightOf(t, b, drop);
    }
  }

  lemma {:induction false} TrimLeftShape(s: string, drop: char -> bool) returns (a: string)
    ensures s == a + TrimLeft(s, drop) && AllOf(a, drop)
    ensures TrimLeft(s, drop) == "" || !drop(TrimLeft(s, drop)[0])
    decreases |s|
  {
    a := "";
    if s != "" && drop(s[0]) {
      var rest := TrimLeftShape(s[1..], drop);
      a := [s[0]] + rest;
      assert s == [s[0]] + s[1..];
    }
  }

  lemma {:induction false} TrimRightShape(s: string, drop: char -> bool) returns (b: string)
    ensures s == TrimRight(s, drop) + b && AllOf(b, drop)
    ensures TrimRight(s, drop) == "" || !drop(TrimRight(s, drop)[|TrimRight(s, drop)| - 1])
    decreases |s|
  {
    b := "";
    if s != "" && drop(s[|s| - 1]) {
      var n := |s| - 1;
      var rest := TrimRightShape(s[..n], drop);
      b := rest + [s[n]];
      assert s == s[..n] + [s[n]];
    }
  }

  lemma StrippedShape(s: string, drop: char -> bool) returns (a: string, b: string)
    ensures Around(s, a, Stripped(s, drop), b, drop) && Bare(Stripped(s, drop), drop)
  {
    var l, t := TrimLeft(s, drop), Stripped(s, drop);
    a := TrimLeftShape(s, drop);
    b := TrimRightShape(l, drop);
    assert a + (t + b) == a + t + b;
    if t != "" { assert t[0] == l[0]; }
  }

  /** Two ways to take such characters off come to the same. */
  lemma StrippedIff(s: string, t: string, drop: char -> bool)
    ensures Stripped(s, drop) == t <==> Bare(t, drop) && Within(s, t, drop)
  {
    var a, b := StrippedShape(s, drop);
    if Bare(t, drop) && Within(s, t, drop) {
      var x: string, y: string :| Around(s, x, t, y, drop);
      StrippedOf(x, t, y, drop);
    }
  }

  /** Trimmed is what stands between the white space at both ends. */
  lemma TrimIff(s: string, t: string)
    ensures Trim(s) == t <==> Bare(t, IsSpace) && Within(s, t, IsSpace)
  {
    StrippedIff(s, t, IsSpace);
  }

  /** Blank is a text of white space alone. */
  lemma BlankIff(s: string)
    ensures Trim(s) == "" <==> AllOf(s, IsSpace)
  {
    var a, b := StrippedShape(s, IsSpace);
    if Trim(s) == "" { assert s == a + b; } else { assert Trim(s)[0] == s[|a|]; }
  }

  /** More of them at the ends make no difference. */
  lemma StripAround(u: string, s: string, v: string, drop: char -> bool)
    requires AllOf(u, drop) && AllOf(v, drop)
    ensures Stripped(u + s + v, drop) == Stripped(s, drop)
  {
    var a, b := StrippedShape(s, drop);
    var t := Stripped(s, drop);
    StrippedOf(u + a, t, b + v, drop);
    Nested(u, a, t, b, v);
  }

  lemma Nested(u: string, a: string, t: string, b: string, v: string)
    ensures u + (a + t + b) + v == (u + a) + t + (b + v)
  {
  }

  // ---------------------------------------------------------------------------------------------
  // Small letters

  /** Letter by letter. */
  lemma {:induction false} LowerAt(s: string)
    ensures |Lower(s)| == |s| && forall i :: 0 <= i < |s| ==> Lower(s)[i] == LowerChar(s[i])
    decreases |s|
  {
    if s != "" { LowerAt(s[1..]); }
  }

  lemma LowerJoin(a: string, b: string)
    ensures Lower(a + b) == Lower(a) + Lower(b)
  {
    LowerAt(a);
    LowerAt(b);
    LowerAt(a + b);
  }

  lemma LowerThree(a: string, b: string, c: string)
    ensures Lower(a + b + c) == Lower(a) + Lower(b) + Lower(c)
  {
    LowerJoin(a, b);
    LowerJoin(a + b, c);
  }

  lemma LowerTwice(s: string)
    ensures Lower(Lower(s)) == Lower(s)
  {
    LowerAt(s);
    LowerAt(Lower(s));
  }

  /** Every capital letter of the two alphabets has its own small one, and no other character changes. */
  lemma LowerLetters(c: char)
    ensures 'A' <= c <= 'Z' ==> 'a' <= LowerChar(c) <= 'z' && LowerChar(c) as int - 'a' as int == c as int - 'A' as int
    ensures 'А' <= c <= 'Я' ==> 'а' <= LowerChar(c) <= 'я' && LowerChar(c) as int - 'а' as int == c as int - 'А' as int
    ensures c == 'Ё' ==> LowerChar(c) == 'ё'
    ensures !('A' <= c <= 'Z') && !('А' <= c <= 'Я') && c != 'Ё' ==> LowerChar(c) == c
  {
  }

  /** Blanks, tabs and line ends are white space; letters, digits and the signs a command may hold are not. */
  lemma SpacesAre(c: char)
    ensures c == ' ' || c == '\t' || c == '\n' || c == '\r' ==> IsSpace(c)
    ensures '!' <= c <= '~' || 'А' <= c <= 'я' || c == 'Ё' || c == 'ё' ==> !IsSpace(c)
  {
  }

  /** The characters the host language takes for white space. */
  const WHITE: set<int> :=
    {0x09, 0x0A, 0x0B, 0x0C, 0x0D, 0x1C, 0x1D, 0x1E, 0x1F, 0x20, 0x85, 0xA0, 0x1680, 0x2000, 0x2001, 0x2002, 0x2003, 0x2004,
     0x2005, 0x2006, 0x2007, 0x2008, 0x2009, 0x200A, 0x2028, 0x2029, 0x202F, 0x205F, 0x3000}

  lemma SpaceIff(c: char)
    ensures IsSpace(c) <==> c as int in WHITE
  {
  }

  lemma LowerSpace(c: char)
    ensures IsSpace(LowerChar(c)) <==> IsSpace(c)
  {
  }

  /** White space has no case. */
  lemma LowerAllSpace(s: string)
    ensures AllOf(Lower(s), IsSpace) <==> AllOf(s, IsSpace)
  {
    LowerAt(s);
    forall i | 0 <= i < |s| ensures IsSpace(Lower(s)[i]) <==> IsSpace(s[i]) { LowerSpace(s[i]); }
  }

  lemma TrimLower(s: string)
    ensures Trim(Lower(s)) == Lower(Trim(s))
  {
    var a, b := StrippedShape(s, IsSpace);
    var t := Trim(s);
    LowerThree(a, t, b);
    LowerAllSpace(a);
    LowerAllSpace(b);
    LowerBare(t);
    StrippedOf(Lower(a), Lower(t), Lower(b), IsSpace);
  }

  lemma LowerBare(t: string)
    requires Bare(t, IsSpace)
    ensures Bare(Lower(t), IsSpace)
  {
    LowerAt(t);
    if t != "" {
      LowerSpace(t[0]);
      LowerSpace(t[|t| - 1]);
    }
  }
}
