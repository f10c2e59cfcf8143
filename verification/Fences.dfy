/** A value kept as JSON inside one code fence under a heading. */
module Fences {
  import opened Chars
  import opened Json
  import opened Texts

  function Wrap(v: Value, header: string): string {
    header + ("\n\n" + ("```json\n" + (Print(v, 0) + "\n```")))
  }

  function SpaceRun(s: string): (n: nat)
    ensures n <= |s|
  {
    if s != "" && IsSpace(s[0]) then 1 + SpaceRun(s[1..]) else 0
  }

  /**
   * The payload that starts after the last line end among the first `w` characters
   * that has a closing fence after it, and the text after that fence.
   */
  function Payload(s: string, w: nat): (r: Option<(string, string)>)
    requires w <= |s|
    ensures r.Some? ==> |r.value.1| <= |s|
  {
    if w == 0 then None
    else
      var close := First(s[w..], "\n```");
      if s[w - 1] == '\n' && 0 <= close then Some((s[w..][..close], s[w..][close + 4..]))
      else Payload(s, w - 1)
  }

  /** A fenced payload that starts right here. */
  function FenceAt(s: string): (r: Option<(string, string)>)
    ensures r.Some? ==> |r.value.1| < |s|
  {
    if "```" <= s then
      var t := if "json" <= s[3..] then s[7..] else s[3..];
      Payload(t, SpaceRun(t))
    else None
  }

  /** All fenced payloads of a text, from the left. */
  function Fences(s: string): seq<string>
    decreases |s|
  {
    if s == "" then []
    else
      match FenceAt(s)
      case Some((payload, rest)) => [payload] + Fences(rest)
      case None => Fences(s[1..])
  }

  /** The value in the only code fence of a block. */
  function Unwrap(payload: Option<string>): Option<Value> {
    if payload.None? || payload.value == "" then None
    else
      var fences := Fences(payload.value);
      if |fences| != 1 then None else Loads(fences[0])
  }

  predicate NoTick(s: string) {
    forall i :: 0 <= i < |s| ==> s[i] != '`'
  }

  lemma {:induction false} FencesAfter(a: string, s: string)
    requires NoTick(a)
    ensures Fences(a + s) == Fences(s)
    decreases |a|
  {
    if a == "" {
      assert a + s == s;
    } else {
      assert (a + s)[0] == a[0];
      assert "```"[0] == '`';
      assert (a + s)[1..] == a[1..] + s;
      FencesAfter(a[1..], s);
    }
  }

  /** In text whose lines never open with a backtick, the closing fence is the one put after it. */
  lemma FirstMark(p: string, mark: string)
    requires Unfenced(p) && 2 <= |mark| && mark[0] == '\n' && mark[1] == '`'
    ensures First(p + mark, mark) == |p|
  {
    var s := p + mark;
    HasRight(p, mark, mark, 0);
    assert Has(s, mark, |p|);
    var f := First(s, mark);
    Letters(s, mark, f);
    assert s[f] == mark[0] && s[f + 1] == mark[1];
    assert forall i :: 0 <= i < |p| ==> s[i] == p[i];
  }

  lemma FirstFence(p: string)
    requires Unfenced(p)
    ensures First(p + "\n```", "\n```") == |p|
  {
    FirstMark(p, "\n```");
  }

  lemma FenceAround(p: string)
    requires Unfenced(p) && p != "" && !IsSpace(p[0])
    ensures FenceAt("```json\n" + (p + "\n```")) == Some((p, ""))
  {
    var s, body := "```json\n" + (p + "\n```"), p + "\n```";
    var t := "\n" + body;
    assert s[7..] == t;
    assert s[3..] == "json" + t;
    assert "```" <= s && "json" <= s[3..];
    assert body[0] == p[0];
    assert t[1..] == body;
    assert SpaceRun(body) == 0;
    assert SpaceRun(t) == 1;
    FirstFence(p);
    assert body[..|p|] == p && body[|p| + 4..] == "";
  }

  /** What was wrapped is unwrapped: one fence is found, and the value in it is the value that was put there. */
  lemma UnwrapWrap(v: Value, header: string)
    requires Textual(v) && NoTick(header)
    ensures Unwrap(Some(Wrap(v, header))) == Some(v)
  {
    var p := Print(v, 0);
    var s := "```json\n" + (p + "\n```");
    PrintOpens(v, 0);
    PrintUnfenced(v, 0);
    FenceAround(p);
    FencesAfter(header, "\n\n" + s);
    FencesAfter("\n\n", s);
    assert Fences(s) == [p] + Fences("") == [p];
    LoadsPrint(v);
  }
}
