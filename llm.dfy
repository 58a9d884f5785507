/** The two string helpers of `lazygit_ai/core/llm.py` that do not talk to a
    model: the diff excerpt placed in the prompt, and the cleaning of the
    model's reply, with the rule that a reply equal to the rule-based
    message counts as no enhancement. */
module Llm {
  import opened Text

  // ---------------------------------------------------------------------
  // The diff excerpt of the prompt
  // ---------------------------------------------------------------------

  const MaxPromptLines: nat := 100
  const MaxPromptLineLength: nat := 200
  const TruncatedMarker: string := "... (truncated)"

  /** A diff line the prompt keeps: not a binary-file notice, at most 200 chars. */
  predicate Printable(line: string) {
    !Contains(line, "Binary files") && |line| <= MaxPromptLineLength
  }

  /** The printable lines, in order. */
  function Kept(lines: seq<string>): (r: seq<string>)
    ensures |r| <= |lines|
    ensures forall j :: 0 <= j < |r| ==> Printable(r[j])
    decreases |lines|
  {
    if lines == [] then []
    else
      var last := lines[|lines| - 1];
      Kept(lines[..|lines| - 1]) + (if Printable(last) then [last] else [])
  }

  /** `a` is `b` with some elements left out, order kept. */
  predicate Subsequence(a: seq<string>, b: seq<string>)
    decreases |b|
  {
    a == [] ||
    (b != [] &&
      ((a[|a| - 1] == b[|b| - 1] && Subsequence(a[..|a| - 1], b[..|b| - 1]))
       || Subsequence(a, b[..|b| - 1])))
  }

  /** The kept lines are an order-preserving subsequence of the diff's lines. */
  lemma {:induction false} KeptIsSubsequence(lines: seq<string>)
    ensures Subsequence(Kept(lines), lines)
    decreases |lines|
  {
    if lines != [] {
      var init := lines[..|lines| - 1];
      KeptIsSubsequence(init);
      var k := Kept(lines);
      if Printable(lines[|lines| - 1]) {
        assert k == Kept(init) + [lines[|lines| - 1]];
        assert k[..|k| - 1] == Kept(init);
        assert k[|k| - 1] == lines[|lines| - 1];
      } else {
        assert k == Kept(init);
      }
    }
  }

  /** A prefix of a subsequence is a subsequence. */
  lemma {:induction false} SubsequencePrefix(a: seq<string>, b: seq<string>, n: nat)
    requires Subsequence(a, b) && n <= |a|
    ensures Subsequence(a[..n], b)
    decreases |b|, |a| - n
  {
    if n == |a| {
      assert a[..n] == a;
    } else if n > 0 {
      assert b != [];
      if a[|a| - 1] == b[|b| - 1] && Subsequence(a[..|a| - 1], b[..|b| - 1]) {
        SubsequencePrefix(a[..|a| - 1], b[..|b| - 1], n);
        assert a[..|a| - 1][..n] == a[..n];
      } else {
        SubsequencePrefix(a, b[..|b| - 1], n);
      }
      SubsequenceDropLast(a[..n], b);
    }
  }

  /** A subsequence of all but the last element is a subsequence of the whole. */
  lemma SubsequenceDropLast(a: seq<string>, b: seq<string>)
    requires b != [] && Subsequence(a, b[..|b| - 1])
    ensures Subsequence(a, b)
  {
  }

  /** The kept lines of a prefix are a prefix of the kept lines. */
  lemma {:induction false} KeptPrefix(lines: seq<string>, i: nat)
    requires i <= |lines|
    ensures |Kept(lines[..i])| <= |Kept(lines)|
    ensures Kept(lines[..i]) == Kept(lines)[..|Kept(lines[..i])|]
    decreases |lines| - i
  {
    if i == |lines| {
      assert lines[..i] == lines;
    } else {
      KeptPrefix(lines, i + 1);
      assert lines[..i + 1][..i] == lines[..i];
    }
  }

  /** The lines of the excerpt: the first 100 printable lines, and the
      marker when a further printable line exists. */
  function PromptLines(lines: seq<string>): (r: seq<string>)
    ensures |r| <= MaxPromptLines + 1
    ensures |Kept(lines)| <= MaxPromptLines ==> r == Kept(lines)
    ensures |Kept(lines)| > MaxPromptLines ==>
      |r| == MaxPromptLines + 1 && r[..MaxPromptLines] == Kept(lines)[..MaxPromptLines] && r[MaxPromptLines] == TruncatedMarker
  {
    var k := Kept(lines);
    if |k| > MaxPromptLines then k[..MaxPromptLines] + [TruncatedMarker] else k
  }

  /** Every line of the excerpt is a printable line of the diff, in diff
      order, apart from the final marker. */
  lemma PromptLinesFromDiff(lines: seq<string>)
    ensures var r := PromptLines(lines);
      var body := if |Kept(lines)| > MaxPromptLines then r[..MaxPromptLines] else r;
      Subsequence(body, lines) && forall j :: 0 <= j < |body| ==> Printable(body[j])
  {
    KeptIsSubsequence(lines);
    if |Kept(lines)| > MaxPromptLines {
      SubsequencePrefix(Kept(lines), lines, MaxPromptLines);
    }
  }

  lemma KeptSnoc(lines: seq<string>, i: nat)
    requires i < |lines|
    ensures Kept(lines[..i + 1]) == Kept(lines[..i]) + (if Printable(lines[i]) then [lines[i]] else [])
  {
    assert lines[..i + 1][..i] == lines[..i];
  }

  /** A printable line after 100 kept ones: the excerpt ends with the marker. */
  lemma TruncatedAt(lines: seq<string>, i: nat)
    requires i < |lines| && |Kept(lines[..i])| == MaxPromptLines && Printable(lines[i])
    ensures PromptLines(lines) == Kept(lines[..i]) + [TruncatedMarker]
  {
    KeptSnoc(lines, i);
    KeptPrefix(lines, i + 1);
    var k := Kept(lines);
    assert k[..MaxPromptLines] == Kept(lines[..i + 1])[..MaxPromptLines];
    assert Kept(lines[..i + 1])[..MaxPromptLines] == Kept(lines[..i]);
  }

  /** `_format_diff_for_prompt`. */
  method FormatDiffForPrompt(stagedDiff: string) returns (prompt: string)
    ensures stagedDiff == "" ==> prompt == "No staged changes"
    ensures stagedDiff != "" ==> prompt == Join(PromptLines(Split(stagedDiff, '\n')), "\n")
  {
    if stagedDiff == "" {
      return "No staged changes";
    }
    var lines := Split(stagedDiff, '\n');
    var cleaned: seq<string> := [];
    var i := 0;
    while i < |lines|
      invariant 0 <= i <= |lines|
      invariant cleaned == Kept(lines[..i]) && |cleaned| <= MaxPromptLines
    {
      var line := lines[i];
      KeptSnoc(lines, i);
      if Contains(line, "Binary files") || |line| > 200 {
        i := i + 1;
        continue;
      }
      if |cleaned| >= 100 {
        TruncatedAt(lines, i);
        cleaned := cleaned + [TruncatedMarker];
        break;
      }
      cleaned := cleaned + [line];
      i := i + 1;
    }
    if i == |lines| {
      assert lines[..i] == lines;
    }
    return Join(cleaned, "\n");
  }

  // ---------------------------------------------------------------------
  // Cleaning the reply
  // ---------------------------------------------------------------------

  const Fence: string := "```"

  /** Left-to-right removal never leaves a fence at the front when the input
      does not start with a backtick. */
  lemma {:induction false} FenceFreeFirst(u: string)
    requires u != [] && u[0] != '`'
    ensures ReplaceAll(u, Fence, "") != [] && ReplaceAll(u, Fence, "")[0] == u[0]
  {
    if |u| >= 3 {
      assert u[..3] != Fence;
    }
  }

  /** `s.replace("```", "")` contains no fence. */
  lemma {:induction false} ReplaceRemovesFences(s: string)
    ensures !Contains(ReplaceAll(s, Fence, ""), Fence)
    decreases |s|
  {
    var r := ReplaceAll(s, Fence, "");
    if |s| < 3 {
      NoFenceInShort(s);
    } else if s[..3] == Fence {
      ReplaceRemovesFences(s[3..]);
      assert r == ReplaceAll(s[3..], Fence, "");
    } else {
      var tail := ReplaceAll(s[1..], Fence, "");
      ReplaceRemovesFences(s[1..]);
      assert r == [s[0]] + tail;
      assert r[1..] == tail;
      if s[0] != '`' {
        assert r[0] != '`';
      } else if s[1] != '`' {
        FenceFreeFirst(s[1..]);
        assert r[1] != '`';
      } else {
        assert s[2] != '`' by { assert s[..3] != Fence; }
        FenceFreeFirst(s[2..]);
        if |s[1..]| >= 3 {
          assert s[1..][..3] != Fence;
          assert s[1..][1..] == s[2..];
          assert tail == [s[1]] + ReplaceAll(s[2..], Fence, "");
        } else {
          assert tail == s[1..];
        }
        assert r[2] != '`';
      }
      assert !StartsWith(r, Fence);
    }
  }

  /** A string shorter than the fence cannot contain it. */
  lemma NoFenceInShort(s: string)
    requires |s| < 3
    ensures !Contains(s, Fence)
    decreases |s|
  {
    if |s| > 0 { NoFenceInShort(s[1..]); }
  }

  /** A substring of a fence-free string is fence-free. */
  lemma NoFenceInSlice(s: string, i: nat, j: nat)
    requires i <= j <= |s| && !Contains(s, Fence)
    ensures !Contains(s[i..j], Fence)
  {
    if Contains(s[i..j], Fence) { ContainsSlice(s, i, j, Fence); }
  }

  /** The first line `s.split("\n")[0]`, as a prefix of `s`. */
  lemma FirstLineIsPrefix(s: string)
    ensures Split(s, '\n')[0] == s[..|Split(s, '\n')[0]|]
  {
    var i := IndexOf(s, '\n');
    if i < 0 { assert s[..|s|] == s; }
  }

  /** `_clean_response`: quotes, fences and everything after the first line
      go, and the rest is stripped. */
  function CleanResponse(response: string): (r: string)
    ensures '\n' !in r
    ensures r == [] || (!IsSpace(r[0]) && !IsSpace(r[|r| - 1]))
    ensures !Contains(r, Fence)
  {
    var unquoted := StripChars(response, {'"', '\''});
    var unfenced := Strip(ReplaceAll(unquoted, Fence, ""));
    var first := Split(unfenced, '\n')[0];
    CleanResponseFacts(unquoted, unfenced, first);
    Strip(first)
  }

  lemma CleanResponseFacts(unquoted: string, unfenced: string, first: string)
    requires unfenced == Strip(ReplaceAll(unquoted, Fence, ""))
    requires first == Split(unfenced, '\n')[0]
    ensures '\n' !in first && !Contains(first, Fence)
    ensures '\n' !in Strip(first) && !Contains(Strip(first), Fence)
  {
    ReplaceRemovesFences(unquoted);
    if Contains(unfenced, Fence) { StripKeepsOnlyInput(ReplaceAll(unquoted, Fence, ""), Fence); }
    FirstLineIsPrefix(unfenced);
    NoFenceInSlice(unfenced, 0, |first|);
    assert unfenced[0..|first|] == first;
    assert first in Split(unfenced, '\n');
    if Contains(Strip(first), Fence) { StripKeepsOnlyInput(first, Fence); }
    StripOnlyDrops(first);
  }

  /** Whatever `strip()` keeps is a slice of its input. */
  lemma StripOnlyDrops(s: string)
    ensures forall c :: c in Strip(s) ==> c in s
  {
    var r := Strip(s);
    forall c | c in r ensures c in s {
      var k :| 0 <= k < |r| && r[k] == c;
      assert Contains(r, [c]) by { ContainsAt(r, k, [c]); }
      StripKeepsOnlyInput(s, [c]);
      ContainsChar(s, c);
    }
  }

  lemma {:induction false} ContainsAt(s: string, k: nat, sub: string)
    requires k + |sub| <= |s| && s[k..k + |sub|] == sub
    ensures Contains(s, sub)
    decreases k
  {
    if k > 0 {
      assert s[1..][k - 1..k - 1 + |sub|] == sub;
      ContainsAt(s[1..], k - 1, sub);
    }
  }

  lemma {:induction false} ContainsChar(s: string, c: char)
    requires Contains(s, [c])
    ensures c in s
    decreases |s|
  {
    if !StartsWith(s, [c]) {
      ContainsChar(s[1..], c);
    } else {
      assert s[0] == c;
    }
  }

  /** What a provider returns for a raw reply: the cleaned reply, or None when
      it equals the rule-based message (lines 142, 204 and 267 of llm.py). */
  function EnhancedMessage(reply: string, ruleMessage: string): (r: Option<string>)
    ensures r != Some(ruleMessage)
    ensures r.Some? ==> '\n' !in r.value && !Contains(r.value, Fence)
    ensures r.None? <==> CleanResponse(Strip(reply)) == ruleMessage
  {
    var cleaned := CleanResponse(Strip(reply));
    if cleaned != ruleMessage then Some(cleaned) else None
  }
}
