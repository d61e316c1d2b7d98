/**
 * extractCodeAndExplanation: the code blocks of a completion and the text before the first
 * fence. The code-block pattern is ```(?:jsx?|tsx?|css|scss|html)?\n([\s\S]*?)``` with the
 * global flag: an opening fence, an optional language name, a line feed, and the shortest body
 * that reaches a closing fence.
 */
module ResponseParser {
  import opened Wrappers
  import opened Text

  const Fence := "```"

  /** The language names the pattern accepts after an opening fence, in the order it tries
      them (x? is greedy, so "jsx" before "js"); the empty name stands for the skipped group. */
  const Languages := ["jsx", "js", "tsx", "ts", "css", "scss", "html", ""]

  /** The index where a block's body starts when an opening fence, a language name and a line
      feed begin at p. At most one language name can be followed by the line feed, so the
      order of the alternatives does not change the outcome. */
  function BodyStart(s: string, p: nat): (r: Option<nat>)
    ensures r.Some? ==> p + 4 <= r.value <= |s|
  {
    if !OccursAt(s, Fence, p) then None
    else LanguageFrom(s, p + 3, 0)
  }

  function LanguageFrom(s: string, q: nat, k: nat): (r: Option<nat>)
    requires k <= |Languages|
    ensures r.Some? ==> q + 1 <= r.value <= |s|
    decreases |Languages| - k
  {
    if k == |Languages| then None
    else if OccursAt(s, Languages[k] + "\n", q) then Some(q + |Languages[k]| + 1)
    else LanguageFrom(s, q, k + 1)
  }

  datatype BlockMatch = BlockMatch(end: nat, body: string)

  /** The pattern matched at exactly position p: the lazy body ends at the first fence after
      the body's start. */
  function MatchBlockAt(s: string, p: nat): (r: Option<BlockMatch>)
    ensures r.Some? ==> p < r.value.end <= |s|
    ensures r.Some? ==> !Contains(r.value.body, Fence)
  {
    match BodyStart(s, p)
    case None => None
    case Some(b) =>
      match IndexOf(s, Fence, b)
      case None => None
      case Some(e) =>
        BodyHasNoFence(s, b, e);
        Some(BlockMatch(e + 3, s[b..e]))
  }

  lemma OccursInSlice(s: string, b: nat, e: nat, pat: string, j: int)
    requires b <= e <= |s| && OccursAt(s[b..e], pat, j)
    ensures OccursAt(s, pat, b + j)
  {
    var t := s[b..e];
    forall m | 0 <= m < |pat| ensures s[b + j + m] == pat[m] {
      assert pat[m] == t[j..j + |pat|][m] == t[j + m];
    }
    assert s[b + j..b + j + |pat|] == pat;
  }

  /** The text between b and the first fence at or after b holds no fence. */
  lemma BodyHasNoFence(s: string, b: nat, e: nat)
    requires b <= e <= |s|
    requires forall j :: b <= j < e ==> !OccursAt(s, Fence, j)
    ensures !Contains(s[b..e], Fence)
  {
    var t := s[b..e];
    ContainsIff(t, Fence);
    forall j | OccursAt(t, Fence, j) ensures false {
      OccursInSlice(s, b, e, Fence, j);
    }
  }

  /** The bodies the global pattern captures from `from` on. */
  function BlocksFrom(s: string, from: nat): seq<string>
    decreases |s| - from
  {
    if from >= |s| then []
    else match MatchBlockAt(s, from)
      case Some(m) => [m.body] + BlocksFrom(s, m.end)
      case None => BlocksFrom(s, from + 1)
  }

  /** The exec loop that collects the code blocks. */
  method ScanBlocks(s: string) returns (blocks: seq<string>)
    ensures blocks == BlocksFrom(s, 0)
  {
    blocks := [];
    var pos := 0;
    while pos < |s|
      invariant 0 <= pos <= |s|
      invariant blocks + BlocksFrom(s, pos) == BlocksFrom(s, 0)
      decreases |s| - pos
    {
      var m := MatchBlockAt(s, pos);
      if m.Some? {
        blocks := blocks + [m.value.body];
        pos := m.value.end;
      } else {
        pos := pos + 1;
      }
    }
  }

  datatype Extraction = Extraction(code: string, explanation: string)

  /** The code is the blocks joined by a blank line. The explanation is the whole response,
      unless there is a block and the first fence is past the start: then it is the trimmed
      text before that fence (which need not be the fence of the first block). */
  function Extract(response: string): Extraction {
    var blocks := BlocksFrom(response, 0);
    if blocks == [] then Extraction("", response)
    else
      var code := Join(blocks, "\n\n");
      match IndexOf(response, Fence, 0)
      case Some(i) => if i > 0 then Extraction(code, Trim(response[..i])) else Extraction(code, response)
      case None => Extraction(code, response)
  }

  method ExtractCodeAndExplanation(response: string) returns (code: string, explanation: string)
    ensures Extraction(code, explanation) == Extract(response)
  {
    var blocks := ScanBlocks(response);
    code := "";
    explanation := response;
    if |blocks| > 0 {
      code := Join(blocks, "\n\n");
      var first := IndexOf(response, Fence, 0);
      if first.Some? && first.value > 0 {
        explanation := Trim(response[..first.value]);
      }
    }
  }

  /** A response without a fence has no code, and its explanation is the response itself. */
  lemma {:induction false} NoFenceNoCode(s: string, from: nat)
    requires !Contains(s, Fence)
    ensures BlocksFrom(s, from) == []
    decreases |s| - from
  {
    ContainsIff(s, Fence);
    if from < |s| {
      NoFenceNoCode(s, from + 1);
    }
  }

  /** The layout the service is asked for: an explanation, then one fenced block. */
  function Render(explanation: string, language: string, code: string): string {
    explanation + Fence + language + "\n" + code + Fence
  }

  /** In a rendered response the first fence is the one after the explanation. */
  lemma RenderFirstFence(explanation: string, language: string, code: string)
    requires '`' !in explanation
    ensures var s, p := Render(explanation, language, code), |explanation|;
      && IndexOf(s, Fence, 0) == Some(p)
      && (forall j :: 0 <= j < p ==> MatchBlockAt(s, j).None?)
  {
    var s := Render(explanation, language, code);
    var p := |explanation|;
    assert s == explanation + (Fence + language + "\n" + code + Fence);
    assert s[p..p + 3] == Fence;
    forall j | 0 <= j < p ensures !OccursAt(s, Fence, j) {
      assert s[j] == explanation[j];
    }
    IndexOfIs(s, Fence, 0, p);
  }

  /** In a rendered response the block opened after the explanation runs to the end. */
  lemma RenderBlock(explanation: string, language: string, code: string)
    requires language in Languages
    requires '`' !in code
    ensures var s := Render(explanation, language, code);
      MatchBlockAt(s, |explanation|) == Some(BlockMatch(|s|, code))
  {
    var s := Render(explanation, language, code);
    var p := |explanation|;
    var b := p + 3 + |language| + 1;
    var e := b + |code|;
    RenderLayout(explanation, language, code);
    BodyStartIs(s, p, language);
    FenceAfterCode(s, b, code);
    MatchBlockIs(s, p, b, e);
    assert s[b..e] == code && e + 3 == |s|;
  }

  lemma BodyStartIs(s: string, p: nat, language: string)
    requires language in Languages
    requires p + 3 <= |s| && s[p..p + 3] == Fence && OccursAt(s, language + "\n", p + 3)
    ensures BodyStart(s, p) == Some(p + 3 + |language| + 1)
  {
    LanguageChosen(s, p + 3, language);
  }

  /** Where the pieces of a rendered response lie. */
  lemma RenderLayout(explanation: string, language: string, code: string)
    ensures var s, p := Render(explanation, language, code), |explanation|;
      var b := p + 3 + |language| + 1;
      && |s| == b + |code| + 3
      && s[p..p + 3] == Fence && OccursAt(s, language + "\n", p + 3)
      && s[b..b + |code|] == code && OccursAt(s, Fence, b + |code|)
  {
    var s := Render(explanation, language, code);
    var p := |explanation|;
    var open := Fence + language + "\n";
    var b := p + |open|;
    var e := b + |code|;
    var rest := code + Fence;
    assert s == explanation + open + rest;
    assert s[p..b] == open;
    assert open[..3] == Fence && open[3..] == language + "\n";
    assert s[b..] == rest;
    assert rest[..|code|] == code && rest[|code|..] == Fence;
  }

  /** Code without backquotes is closed by the first fence after it. */
  lemma FenceAfterCode(s: string, b: nat, code: string)
    requires b + |code| <= |s| && s[b..b + |code|] == code && '`' !in code
    requires OccursAt(s, Fence, b + |code|)
    ensures IndexOf(s, Fence, b) == Some(b + |code|)
  {
    forall j | b <= j < b + |code| ensures !OccursAt(s, Fence, j) {
      assert s[j] == code[j - b];
    }
    IndexOfIs(s, Fence, b, b + |code|);
  }


  lemma MatchBlockIs(s: string, p: nat, b: nat, e: nat)
    requires BodyStart(s, p) == Some(b) && IndexOf(s, Fence, b) == Some(e)
    ensures MatchBlockAt(s, p) == Some(BlockMatch(e + 3, s[b..e]))
  {
  }

  /** Rendering then extracting gives back the code and the trimmed explanation, for every
      accepted language name, an explanation without backquotes and code without backquotes. */
  lemma RenderExtract(explanation: string, language: string, code: string)
    requires language in Languages
    requires '`' !in explanation && '`' !in code
    ensures var r := Extract(Render(explanation, language, code));
      r.code == code
      && r.explanation == (if explanation == "" then Render(explanation, language, code) else Trim(explanation))
  {
    var s := Render(explanation, language, code);
    var p := |explanation|;
    RenderFirstFence(explanation, language, code);
    RenderBlock(explanation, language, code);
    SkipToMatch(s, 0, p);
    assert BlocksFrom(s, p) == [code] + BlocksFrom(s, |s|);
    assert BlocksFrom(s, 0) == [code];
    assert s[..p] == explanation;
  }

  /** The search for the first occurrence from `from` stops at e when nothing matches before. */
  lemma {:induction false} IndexOfIs(s: string, pat: string, from: nat, e: nat)
    requires from <= e && OccursAt(s, pat, e)
    requires forall j :: from <= j < e ==> !OccursAt(s, pat, j)
    ensures IndexOf(s, pat, from) == Some(e)
    decreases e - from
  {
    if from < e {
      IndexOfIs(s, pat, from + 1, e);
    }
  }

  /** The scan skips positions where no block starts. */
  lemma {:induction false} SkipToMatch(s: string, from: nat, p: nat)
    requires from <= p < |s|
    requires forall j :: from <= j < p ==> MatchBlockAt(s, j).None?
    ensures BlocksFrom(s, from) == BlocksFrom(s, p)
    decreases p - from
  {
    if from < p {
      SkipToMatch(s, from + 1, p);
    }
  }

  lemma LanguageChosen(s: string, q: nat, language: string)
    requires language in Languages
    requires OccursAt(s, language + "\n", q)
    ensures LanguageFrom(s, q, 0) == Some(q + |language| + 1)
  {
    var k :| 0 <= k < |Languages| && Languages[k] == language;
    assert forall i :: 0 <= i < k ==> !OccursAt(s, Languages[i] + "\n", q) by {
      forall i | 0 <= i < k ensures !OccursAt(s, Languages[i] + "\n", q) {
        LanguagesExclusive(s, q, i, k);
      }
    }
    LanguageFromSkips(s, q, 0, k);
  }

  lemma {:induction false} LanguageFromSkips(s: string, q: nat, i: nat, k: nat)
    requires i <= k < |Languages|
    requires forall j :: i <= j < k ==> !OccursAt(s, Languages[j] + "\n", q)
    requires OccursAt(s, Languages[k] + "\n", q)
    ensures LanguageFrom(s, q, i) == Some(q + |Languages[k]| + 1)
    decreases k - i
  {
    if i < k {
      LanguageFromSkips(s, q, i + 1, k);
    }
  }

  /** No two language names can both be followed by a line feed at the same place. */
  lemma LanguagesExclusive(s: string, q: nat, i: nat, k: nat)
    requires i < k < |Languages|
    requires OccursAt(s, Languages[k] + "\n", q)
    ensures !OccursAt(s, Languages[i] + "\n", q)
  {
    var x, y := Languages[i], Languages[k];
    assert x != y && '\n' !in x && '\n' !in y;
    var a := x + "\n";
    if q + |a| <= |s| {
      var d: nat;
      if |x| < |y| {
        d := |x|;
        assert s[q + d] == y[d] != a[d];
      } else if |y| < |x| {
        d := |y|;
        assert s[q + d] == '\n' != x[d] == a[d];
      } else {
        d :| 0 <= d < |x| && x[d] != y[d];
        assert s[q + d] == y[d];
      }
      assert s[q..q + |a|][d] != a[d];
    }
  }
}
