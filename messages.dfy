/** The string helpers of `EnhancedRuleEngine` in `lazygit_ai/core/rules.py`
    that shape a commit message: commit types, scope formatting, the cleaning
    of descriptions and comments, the verb check, truncation, the
    conventional-commit format and its validation, and the suggestions. */
module Messages {
  import opened Text
  import opened GitOutput

  // ---------------------------------------------------------------------
  // Commit types
  // ---------------------------------------------------------------------

  /** The types a conventional header may carry, in the order of the
      validation pattern. */
  const CommitTypes: seq<string> := ["feat", "fix", "docs", "style", "refactor", "perf", "test", "chore", "release"]

  /** The branch-type aliases `_normalize_commit_type` knows. */
  const TypeMapping: map<string, string> := map[
    "feat" := "feat", "feature" := "feat",
    "fix" := "fix", "bugfix" := "fix", "hotfix" := "fix",
    "docs" := "docs", "documentation" := "docs",
    "test" := "test", "testing" := "test",
    "refactor" := "refactor", "refactoring" := "refactor",
    "style" := "style", "styling" := "style",
    "perf" := "perf", "performance" := "perf",
    "chore" := "chore", "maintenance" := "chore",
    "release" := "release"]

  lemma MappingIntoCommitTypes()
    ensures forall k :: k in TypeMapping ==> TypeMapping[k] in CommitTypes
  {
  }

  /** `_normalize_commit_type`: the alias of the lower-cased branch type, or
      `feat` for one it does not know; always a conventional type. */
  function NormalizeCommitType(branchType: string): (r: string)
    ensures r in CommitTypes
    ensures Lower(branchType) in TypeMapping ==> r == TypeMapping[Lower(branchType)]
    ensures Lower(branchType) !in TypeMapping ==> r == "feat"
  {
    MappingIntoCommitTypes();
    var k := Lower(branchType);
    if k in TypeMapping then TypeMapping[k] else "feat"
  }

  /** A string without upper-case letters is its own `lower()`. */
  lemma LowerOfLowerCase(s: string)
    requires forall i :: 0 <= i < |s| ==> !IsUpper(s[i])
    ensures Lower(s) == s
  {
  }

  /** Every conventional type normalises to itself, so normalising twice is
      normalising once. */
  lemma NormalizeIdempotent(branchType: string)
    ensures NormalizeCommitType(NormalizeCommitType(branchType)) == NormalizeCommitType(branchType)
  {
    var t := NormalizeCommitType(branchType);
    assert forall i :: 0 <= i < |t| ==> !IsUpper(t[i]);
    LowerOfLowerCase(t);
    assert t in TypeMapping && TypeMapping[t] == t;
  }

  // ---------------------------------------------------------------------
  // Scopes
  // ---------------------------------------------------------------------

  /** `str.title()` on ASCII: a letter is upper-cased when it starts a run of
      letters and lower-cased otherwise. */
  function Title(s: string): (r: string)
    ensures |r| == |s|
    ensures forall i :: 0 <= i < |s| ==>
      r[i] == (if !IsLetter(s[i]) then s[i]
               else if i == 0 || !IsLetter(s[i - 1]) then UpperChar(s[i])
               else LowerChar(s[i]))
  {
    seq(|s|, i requires 0 <= i < |s| =>
      if !IsLetter(s[i]) then s[i]
      else if i == 0 || !IsLetter(s[i - 1]) then UpperChar(s[i])
      else LowerChar(s[i]))
  }

  predicate IsSeparator(c: char) { c == ' ' || c == '_' || c == '-' }

  /** The characters of `s` other than blanks, `_` and `-`, in order. */
  function DropSeparators(s: string): string
    decreases |s|
  {
    if s == [] then []
    else if IsSeparator(s[|s| - 1]) then DropSeparators(s[..|s| - 1])
    else DropSeparators(s[..|s| - 1]) + [s[|s| - 1]]
  }

  lemma DropSeparatorsSnoc(s: string, c: char)
    ensures DropSeparators(s + [c]) == DropSeparators(s) + (if IsSeparator(c) then [] else [c])
  {
    assert (s + [c])[..|s|] == s;
  }

  /** Removing the blanks, then `_`, then `-` one after the other keeps
      exactly the other characters, in order. */
  lemma {:induction false} RemoveSeparators(s: string)
    ensures RemoveChar(RemoveChar(RemoveChar(s, ' '), '_'), '-') == DropSeparators(s)
    decreases |s|
  {
    if s != [] {
      var init, c := s[..|s| - 1], s[|s| - 1];
      var a := RemoveChar(init, ' ');
      var b := RemoveChar(a, '_');
      assert s == init + [c];
      RemoveSeparators(init);
      RemoveCharSnoc(init, c, ' ');
      if c == ' ' {
        assert RemoveChar(s, ' ') == a;
      } else {
        RemoveCharSnoc(a, c, '_');
        if c == '_' {
          assert RemoveChar(a + [c], '_') == b;
        } else {
          RemoveCharSnoc(b, c, '-');
        }
      }
    }
  }

  /** `_format_scope` for the configured `scope_style`: lower case, with `_`
      and blanks turned into `-` for kebab-case, or title-cased with blanks,
      `_` and `-` removed for camelCase. */
  function FormatScope(scope: string, style: string): (r: string)
    ensures style != "camelCase" ==> |r| == |scope| && forall i :: 0 <= i < |r| ==> !IsUpper(r[i])
    ensures style == "kebab-case" ==> '_' !in r && ' ' !in r
    ensures style == "kebab-case" ==> forall i :: 0 <= i < |r| ==>
      r[i] == (if scope[i] == '_' || scope[i] == ' ' then '-' else LowerChar(scope[i]))
    ensures style == "camelCase" ==> ' ' !in r && '_' !in r && '-' !in r && |r| <= |scope|
    ensures style == "camelCase" ==> r == DropSeparators(Title(Lower(scope)))
    ensures style != "kebab-case" && style != "camelCase" ==> r == Lower(scope)
  {
    var low := Lower(scope);
    RemoveSeparators(Title(low));
    if style == "lowercase" then low
    else if style == "kebab-case" then ReplaceChar(ReplaceChar(low, '_', '-'), ' ', '-')
    else if style == "camelCase" then RemoveChar(RemoveChar(RemoveChar(Title(low), ' '), '_'), '-')
    else low
  }

  /** Outside camelCase, formatting a formatted scope changes nothing. */
  lemma FormatScopeIdempotent(scope: string, style: string)
    requires style != "camelCase"
    ensures FormatScope(FormatScope(scope, style), style) == FormatScope(scope, style)
  {
    var r := FormatScope(scope, style);
    LowerOfLowerCase(r);
  }

  /** Removing a character other than the first keeps the first. */
  lemma RemoveKeepsFirst(s: string, a: char)
    requires s != [] && s[0] != a
    ensures RemoveChar(s, a) != [] && RemoveChar(s, a)[0] == s[0]
  {
  }

  /** The camelCase style capitalises the first letter as well, so a scope
      that starts with a letter comes out starting with an upper-case letter
      (`user_auth` gives `UserAuth`). */
  lemma CamelCaseStartsUpper(scope: string)
    requires scope != [] && IsLetter(scope[0])
    ensures var r := FormatScope(scope, "camelCase"); r != [] && IsUpper(r[0])
  {
    var t := Title(Lower(scope));
    assert IsUpper(t[0]);
    RemoveKeepsFirst(t, ' ');
    RemoveKeepsFirst(RemoveChar(t, ' '), '_');
    RemoveKeepsFirst(RemoveChar(RemoveChar(t, ' '), '_'), '-');
  }

  /** The camelCase example of the scope formatter: `USER_AUTH` becomes
      `UserAuth`. */
  lemma CamelCaseUserAuth()
    ensures FormatScope("USER_AUTH", "camelCase") == "UserAuth"
  {
    LowerUserAuth();
    TitleUserAuth();
    DropUserAuth();
  }

  lemma LowerUserAuth()
    ensures Lower("USER_AUTH") == "user_auth"
  {
  }

  lemma TitleUserAuth()
    ensures Title("user_auth") == "User_Auth"
  {
  }

  lemma DropUserAuth()
    ensures DropSeparators("User_Auth") == "UserAuth"
  {
    assert "User_Auth" == "User" + ("_" + "Auth");
    DropSeparatorsAppend("User", "_" + "Auth");
    DropSeparatorsAppend("_", "Auth");
    DropSeparatorsSnoc("", '_');
    assert "" + ['_'] == "_";
    DropSeparatorsPlain("User");
    DropSeparatorsPlain("Auth");
  }

  /** Dropping separators works piecewise. */
  lemma {:induction false} DropSeparatorsAppend(a: string, b: string)
    ensures DropSeparators(a + b) == DropSeparators(a) + DropSeparators(b)
    decreases |b|
  {
    if b == [] {
      assert a + b == a;
    } else {
      var b', c := b[..|b| - 1], b[|b| - 1];
      assert b == b' + [c];
      assert a + b == (a + b') + [c];
      DropSeparatorsAppend(a, b');
      DropSeparatorsSnoc(a + b', c);
      DropSeparatorsSnoc(b', c);
    }
  }

  /** Text without separators is left as it is. */
  lemma {:induction false} DropSeparatorsPlain(s: string)
    requires forall i :: 0 <= i < |s| ==> !IsSeparator(s[i])
    ensures DropSeparators(s) == s
    decreases |s|
  {
    if s != [] {
      var init := s[..|s| - 1];
      assert s == init + [s[|s| - 1]];
      DropSeparatorsPlain(init);
      DropSeparatorsSnoc(init, s[|s| - 1]);
    }
  }

  /** `_extract_scope_from_path`: the lower-cased first directory of a path
      with a directory, nothing for a bare file name. */
  function ExtractScopeFromPath(path: string): (r: Option<string>)
    ensures r.Some? <==> '/' in path
    ensures r.Some? ==> '/' !in r.value && StartsWith(Lower(path), r.value + "/")
  {
    if '/' in path then
      var seg := FirstSegment(path);
      FirstSegmentPrefix(path);
      assert Lower(path)[..|seg| + 1] == Lower(seg) + "/";
      Some(Lower(seg))
    else None
  }

  lemma FirstSegmentPrefix(path: string)
    requires '/' in path
    ensures |FirstSegment(path)| < |path| && StartsWith(path, FirstSegment(path) + "/")
  {
    var i := IndexOf(path, '/');
    assert i >= 0;
  }

  /** The scope of `dir/rest` is `dir`, lower-cased. */
  lemma ExtractScopeOfJoined(dir: string, rest: string)
    requires '/' !in dir
    ensures ExtractScopeFromPath(dir + "/" + rest) == Some(Lower(dir))
  {
    var p := dir + "/" + rest;
    var k := IndexOf(p, '/');
    assert p[|dir|] == '/';
    assert forall j :: 0 <= j < |dir| ==> p[j] == dir[j];
    assert k == |dir|;
    assert p[..k] == dir;
  }

  // ---------------------------------------------------------------------
  // Verbs
  // ---------------------------------------------------------------------

  /** The verbs a description may start with (also the imperative verbs). */
  const Verbs: seq<string> := [
    "add", "update", "fix", "remove", "refactor", "improve", "enhance",
    "implement", "create", "delete", "modify", "change", "optimize",
    "clean", "format", "style", "test", "document", "configure",
    "bump", "upgrade", "downgrade", "replace", "rename", "move"]

  /** The alternatives of the five `(?:a|b|c)\s+(.+)` action patterns. */
  const ActionGroups: seq<seq<string>> := [
    ["add", "create", "new"], ["update", "modify", "change"], ["fix", "resolve", "solve"],
    ["remove", "delete", "drop"], ["improve", "enhance", "optimize"]]

  predicate StartsWithAny(s: string, words: seq<string>) {
    exists i :: 0 <= i < |words| && StartsWith(s, words[i])
  }

  /** `\s+.+` matched at the start: whitespace, then (after backtracking over
      the whitespace run) a character other than a newline. */
  predicate RunThenChar(s: string)
    decreases |s|
  {
    |s| >= 2 && IsSpace(s[0]) && (s[1] != '\n' || RunThenChar(s[1..]))
  }

  /** `re.match` of one of the action patterns. */
  predicate ActionPhrase(s: string) {
    exists g, w :: 0 <= g < |ActionGroups| && 0 <= w < |ActionGroups[g]| &&
      StartsWith(s, ActionGroups[g][w]) && RunThenChar(s[|ActionGroups[g][w]|..])
  }

  /** What `_ensure_verb_start` accepts as already starting with a verb. */
  predicate StartsWithVerb(t: string) {
    StartsWithAny(Lower(t), Verbs) || ActionPhrase(Lower(t))
  }

  /** A prefix without upper-case letters survives `lower()`. */
  lemma LowerKeepsPrefix(s: string, p: string)
    requires StartsWith(s, p) && forall i :: 0 <= i < |p| ==> !IsUpper(p[i])
    ensures StartsWith(Lower(s), p)
  {
    assert Lower(s)[..|p|] == p;
  }

  /** A text that begins with the lower-case verb at `Verbs[i]` starts with a verb. */
  lemma VerbPrefixStartsWithVerb(s: string, i: nat)
    requires i < |Verbs| && StartsWith(s, Verbs[i])
    ensures StartsWithVerb(s)
  {
    LowerKeepsPrefix(s, Verbs[i]);
  }

  /** `_ensure_verb_start`: the text when it already starts with a verb,
      otherwise the text behind `update `; either way the result starts with
      a verb. */
  function EnsureVerbStart(t: string): (r: string)
    ensures StartsWithVerb(r)
    ensures r == t <==> StartsWithVerb(t)
    ensures r != t ==> r == "update " + t
  {
    if StartsWithVerb(t) then t
    else
      var u := "update " + t;
      LowerKeepsPrefix(u, Verbs[1]);
      u
  }

  /** A second `_ensure_verb_start` leaves the text alone. */
  lemma EnsureVerbStartIdempotent(t: string)
    ensures EnsureVerbStart(EnsureVerbStart(t)) == EnsureVerbStart(t)
  {
  }

  // ---------------------------------------------------------------------
  // Descriptions of the pattern generators
  // ---------------------------------------------------------------------

  const FileDescriptions: map<string, string> := map[
    "docs" := "update documentation", "tests" := "add tests", "config" := "update configuration",
    "style" := "improve styling", "deps" := "update dependencies"]

  /** File names too generic to be named in the description. */
  const NamelessFiles: seq<string> := ["README.md", "requirements.txt", "package.json"]

  function FileBase(fileType: string): (r: string)
    ensures StartsWith(r, "update") || StartsWith(r, "add") || StartsWith(r, "improve")
  {
    if fileType in FileDescriptions then FileDescriptions[fileType] else "update code"
  }

  /** A string that starts with one of three verbs starts with a verb. */
  lemma CommonVerbStart(r: string, base: string)
    requires StartsWith(base, "update") || StartsWith(base, "add") || StartsWith(base, "improve")
    requires StartsWith(r, base)
    ensures StartsWithVerb(r)
  {
    if StartsWith(base, "update") {
      assert r[..6] == base[..6];
      LowerKeepsPrefix(r, Verbs[1]);
    } else if StartsWith(base, "add") {
      assert r[..3] == base[..3];
      LowerKeepsPrefix(r, Verbs[0]);
    } else {
      assert r[..7] == base[..7];
      LowerKeepsPrefix(r, Verbs[5]);
    }
  }

  /** `_generate_file_description`: the description of the file type,
      naming the file unless the name is empty or a generic one; it starts
      with a verb. */
  function GenerateFileDescription(fileType: string, fileName: string): (r: string)
    ensures StartsWith(r, FileBase(fileType)) && StartsWithVerb(r)
    ensures |r| > |FileBase(fileType)| <==> fileName != "" && fileName !in NamelessFiles
    ensures |r| > |FileBase(fileType)| ==> r[|FileBase(fileType)|..] == " for " + fileName
  {
    var base := FileBase(fileType);
    if fileName != "" && fileName !in NamelessFiles then
      NamedFileDescription(base, fileName);
      base + " for " + fileName
    else
      CommonVerbStart(base, base);
      base
  }

  lemma NamedFileDescription(base: string, fileName: string)
    requires StartsWith(base, "update") || StartsWith(base, "add") || StartsWith(base, "improve")
    ensures StartsWith(base + " for " + fileName, base) && StartsWithVerb(base + " for " + fileName)
    ensures (base + " for " + fileName)[|base|..] == " for " + fileName
  {
    var r := base + " for " + fileName;
    assert r[..|base|] == base;
    CommonVerbStart(r, base);
  }

  const DiffDescriptions: map<string, string> := map[
    "fix" := "fix issues", "feat" := "add new features", "refactor" := "refactor code",
    "perf" := "improve performance", "style" := "improve code style"]

  /** `_generate_diff_description`: a fixed phrase per pattern type,
      `update code` for any other type; the context argument is not used. */
  function GenerateDiffDescription(patternType: string): (r: string)
    ensures patternType in DiffDescriptions ==> r == DiffDescriptions[patternType]
    ensures patternType !in DiffDescriptions ==> r == "update code"
    ensures StartsWithVerb(r)
  {
    var r := if patternType in DiffDescriptions then DiffDescriptions[patternType] else "update code";
    DiffDescriptionVerb(r);
    r
  }

  lemma DiffDescriptionVerb(r: string)
    requires r in DiffDescriptions.Values || r == "update code"
    ensures StartsWithVerb(r)
  {
    FixIssuesVerb();
    AddFeaturesVerb();
    RefactorCodeVerb();
    ImproveVerb("improve performance");
    ImproveVerb("improve code style");
    UpdateCodeVerb();
  }

  lemma FixIssuesVerb() ensures StartsWithVerb("fix issues") {
    var d := "fix issues";
    assert d[..3] == "fix";
    VerbPrefixStartsWithVerb(d, 2);
  }

  lemma AddFeaturesVerb() ensures StartsWithVerb("add new features") {
    var d := "add new features";
    assert d[..3] == "add";
    VerbPrefixStartsWithVerb(d, 0);
  }

  lemma RefactorCodeVerb() ensures StartsWithVerb("refactor code") {
    var d := "refactor code";
    assert d[..8] == "refactor";
    VerbPrefixStartsWithVerb(d, 4);
  }

  lemma ImproveVerb(d: string)
    requires |d| >= 7 && d[..7] == "improve"
    ensures StartsWithVerb(d)
  {
    VerbPrefixStartsWithVerb(d, 5);
  }

  lemma UpdateCodeVerb() ensures StartsWithVerb("update code") {
    var d := "update code";
    assert d[..6] == "update";
    VerbPrefixStartsWithVerb(d, 1);
  }

  // ---------------------------------------------------------------------
  // Cleaning descriptions and comments
  // ---------------------------------------------------------------------

  const MarkerWords: seq<string> := ["todo", "fix", "bug"]

  /** Length of a leading `TODO`, `FIX` or `BUG`, in any case, or 0. */
  function MarkerLength(t: string): (n: nat)
    ensures n <= |t|
  {
    var low := Lower(t);
    if StartsWith(low, "todo") then 4
    else if StartsWith(low, "fix") || StartsWith(low, "bug") then 3
    else 0
  }

  predicate HasMarker(t: string) { MarkerLength(t) > 0 }

  /** Drops the leading run of `:` and whitespace. */
  function SkipSeparators(s: string): (r: string)
    ensures |r| <= |s| && r == s[|s| - |r|..]
    ensures r == [] || (r[0] != ':' && !IsSpace(r[0]))
    decreases |s|
  {
    if s != [] && (s[0] == ':' || IsSpace(s[0])) then SkipSeparators(s[1..]) else s
  }

  /** `re.sub(r"^(TODO|FIX|BUG)[:\s]*", "", t, flags=re.IGNORECASE)`. */
  function DropMarker(t: string): (r: string)
    ensures |r| <= |t| && r == t[|t| - |r|..]
    ensures !HasMarker(t) ==> r == t
    ensures HasMarker(t) ==> r == [] || (r[0] != ':' && !IsSpace(r[0]))
  {
    var n := MarkerLength(t);
    if n == 0 then t else SkipSeparators(t[n..])
  }

  lemma {:induction false} SkipSeparatorsOf(seps: string, body: string)
    requires forall i :: 0 <= i < |seps| ==> seps[i] == ':' || IsSpace(seps[i])
    requires body == [] || (body[0] != ':' && !IsSpace(body[0]))
    ensures SkipSeparators(seps + body) == body
    decreases |seps|
  {
    if seps == [] {
      assert seps + body == body;
    } else {
      assert (seps + body)[1..] == seps[1..] + body;
      SkipSeparatorsOf(seps[1..], body);
    }
  }

  /** A marker word in any case and its separators are removed, and nothing
      else. */
  lemma DropMarkerOf(marker: string, seps: string, body: string)
    requires Lower(marker) in MarkerWords
    requires forall i :: 0 <= i < |seps| ==> seps[i] == ':' || IsSpace(seps[i])
    requires body == [] || (body[0] != ':' && !IsSpace(body[0]))
    ensures DropMarker(marker + seps + body) == body
  {
    var rest := seps + body;
    assert marker + seps + body == marker + rest;
    MarkerLengthOf(marker, rest);
    DropMarkerAt(marker + rest, |marker|);
    assert (marker + rest)[|marker|..] == rest;
    SkipSeparatorsOf(seps, body);
  }

  lemma DropMarkerAt(t: string, n: nat)
    requires MarkerLength(t) == n > 0
    ensures DropMarker(t) == SkipSeparators(t[n..])
  {
  }

  /** A leading marker word, in any case, is measured exactly. */
  lemma MarkerLengthOf(marker: string, rest: string)
    requires Lower(marker) in MarkerWords
    ensures MarkerLength(marker + rest) == |marker|
  {
    var t := marker + rest;
    var low := Lower(t);
    assert low[..|marker|] == Lower(marker);
    if Lower(marker) == "todo" {
      assert StartsWith(low, "todo");
    } else {
      assert low[0] == Lower(marker)[0] != 't';
      assert !StartsWith(low, "todo");
      assert StartsWith(low, "fix") || StartsWith(low, "bug");
    }
  }

  /** The first character upper-cased, the rest kept. */
  function Capitalize(t: string): (r: string)
    ensures |r| == |t|
    ensures t != [] ==> r[0] == UpperChar(t[0]) && r[1..] == t[1..]
  {
    if t == [] then [] else [UpperChar(t[0])] + t[1..]
  }

  /** Capitalising a trimmed, collapsed text keeps it trimmed and collapsed. */
  lemma CapitalizeKeeps(t: string)
    requires t == [] || (!IsSpace(t[0]) && !IsSpace(t[|t| - 1]))
    requires Collapsed(t)
    ensures var r := Capitalize(t);
      (r == [] || (!IsSpace(r[0]) && !IsSpace(r[|r| - 1]) && !IsLower(r[0]))) && Collapsed(r)
  {
    var r := Capitalize(t);
    if t != [] {
      assert !IsSpace(r[0]);
      forall i | 0 <= i < |r| ensures CollapsedAt(r, i) {
        if i == 0 {
          assert !IsSpace(r[i]);
        } else {
          assert r[i] == r[1..][i - 1] == t[i] && CollapsedAt(t, i);
        }
        assert i + 1 < |r| ==> r[i + 1] == r[1..][i] == t[i + 1];
      }
      assert |r| > 1 ==> r[|r| - 1] == r[1..][|r| - 2] == t[|t| - 1];
    }
  }

  /** `_clean_description`: whitespace stripped and collapsed, a leading
      marker dropped, the first letter capitalised. */
  function CleanDescription(text: string): (r: string)
    ensures |r| <= |text|
    ensures r == [] || (!IsSpace(r[0]) && !IsSpace(r[|r| - 1]) && !IsLower(r[0]))
    ensures Collapsed(r)
  {
    CleanedShape(text);
    Capitalize(DropMarker(CollapseSpaces(Strip(text))))
  }

  lemma CleanedShape(text: string)
    ensures var r := Capitalize(DropMarker(CollapseSpaces(Strip(text))));
      && |r| <= |text|
      && (r == [] || (!IsSpace(r[0]) && !IsSpace(r[|r| - 1]) && !IsLower(r[0])))
      && Collapsed(r)
  {
    var c := CollapseSpaces(Strip(text));
    assert c == [] || (!IsSpace(c[0]) && !IsSpace(c[|c| - 1]));
    MarkerDroppedShape(c);
  }

  /** Dropping the marker of a trimmed, collapsed text and capitalising keeps
      it trimmed and collapsed. */
  lemma MarkerDroppedShape(c: string)
    requires c == [] || (!IsSpace(c[0]) && !IsSpace(c[|c| - 1]))
    requires Collapsed(c)
    ensures var r := Capitalize(DropMarker(c));
      && |r| <= |c|
      && (r == [] || (!IsSpace(r[0]) && !IsSpace(r[|r| - 1]) && !IsLower(r[0])))
      && Collapsed(r)
  {
    var t := DropMarker(c);
    CollapsedSuffix(c, |c| - |t|);
    assert t != [] ==> t[|t| - 1] == c[|c| - 1];
    CapitalizeKeeps(t);
  }

  /** A description that is already clean is kept as it is. */
  lemma CleanDescriptionOfClean(text: string)
    requires text == [] || (!IsSpace(text[0]) && !IsSpace(text[|text| - 1]) && !IsLower(text[0]))
    requires Collapsed(text) && !HasMarker(text)
    ensures CleanDescription(text) == text
  {
    StripOfTrimmed(text);
    CollapseOfCollapsed(text);
    if text != [] {
      assert UpperChar(text[0]) == text[0];
    }
  }

  /** A word without blanks, one space and a collapsed text that does not
      start with a blank form a collapsed text. */
  lemma CollapsedWordThen(w: string, rest: string)
    requires forall i :: 0 <= i < |w| ==> !IsSpace(w[i])
    requires rest != [] && !IsSpace(rest[0]) && Collapsed(rest)
    ensures Collapsed(w + " " + rest)
  {
    var text := w + " " + rest;
    assert forall i :: 0 <= i < |w| ==> text[i] == w[i];
    forall i | 0 <= i < |text| ensures CollapsedAt(text, i) {
      if i > |w| {
        assert text[i] == rest[i - |w| - 1] && CollapsedAt(rest, i - |w| - 1);
        assert i + 1 < |text| ==> text[i + 1] == rest[i - |w|];
      }
    }
  }

  /** The marker pattern also matches the verb of a description that starts
      with `fix`: `fix <rest>` cleans to `<rest>` capitalised. */
  lemma FixPhraseLosesVerb(rest: string)
    requires rest != [] && !IsSpace(rest[0]) && !IsSpace(rest[|rest| - 1]) && rest[0] != ':'
    requires Collapsed(rest)
    ensures CleanDescription("fix " + rest) == Capitalize(rest)
  {
    FixSpaceJoined(rest);
    FixIsMarker();
    MarkerPhraseCleaned("fix", rest);
  }

  lemma FixSpaceJoined(rest: string)
    ensures "fix" + " " + rest == "fix " + rest
  {
    assert "fix" + " " == "fix ";
  }

  lemma FixIsMarker()
    ensures Lower("fix") in MarkerWords && forall i :: 0 <= i < |"fix"| ==> !IsSpace("fix"[i])
  {
    LowerOfLowerCase("fix");
  }

  /** A marker word, a blank and a trimmed, collapsed body clean to the
      capitalised body. */
  lemma MarkerPhraseCleaned(marker: string, rest: string)
    requires Lower(marker) in MarkerWords && forall i :: 0 <= i < |marker| ==> !IsSpace(marker[i])
    requires rest != [] && !IsSpace(rest[0]) && !IsSpace(rest[|rest| - 1]) && rest[0] != ':'
    requires Collapsed(rest)
    ensures CleanDescription(marker + " " + rest) == Capitalize(rest)
  {
    DropMarkerOf(marker, " ", rest);
    assert marker != [];
    WordThenRestNormal(marker, rest);
    CleanOfSteps(marker + " " + rest, rest);
  }

  /** A text that is already stripped and collapsed cleans to its body
      after the marker, capitalised. */
  lemma CleanOfSteps(text: string, body: string)
    requires CollapseSpaces(Strip(text)) == text && DropMarker(text) == body
    ensures CleanDescription(text) == Capitalize(body)
  {
  }

  /** A word, a blank and a trimmed, collapsed rest survive stripping and
      collapsing unchanged. */
  lemma WordThenRestNormal(w: string, rest: string)
    requires w != [] && forall i :: 0 <= i < |w| ==> !IsSpace(w[i])
    requires rest != [] && !IsSpace(rest[0]) && !IsSpace(rest[|rest| - 1]) && Collapsed(rest)
    ensures CollapseSpaces(Strip(w + " " + rest)) == w + " " + rest
  {
    var text := w + " " + rest;
    assert text[0] == w[0];
    assert text[|text| - 1] == rest[|rest| - 1];
    StripOfTrimmed(text);
    CollapsedWordThen(w, rest);
    CollapseOfCollapsed(text);
  }

  /** So the diff pattern's `fix issues` ends up as `update Issues`. */
  lemma FixIssuesBecomesUpdate()
    ensures EnsureVerbStart(CleanDescription("fix issues")) == "update Issues"
  {
    UpdateIssuesSpelled();
    FixIssuesCleaned();
    NotVerbIssues();
  }

  lemma UpdateIssuesSpelled()
    ensures "update " + "Issues" == "update Issues"
  {
    var s := "update Issues";
    assert s == s[..7] + s[7..];
  }

  lemma FixIssuesCleaned()
    ensures CleanDescription("fix issues") == "Issues"
  {
    assert "fix issues" == "fix " + "issues" by {
      var s := "fix issues";
      assert s == s[..4] + s[4..];
    }
    FixPhraseLosesVerb("issues");
    CapitalizeIssues();
  }

  lemma CapitalizeIssues()
    ensures Capitalize("issues") == "Issues"
  {
    var c := Capitalize("issues");
    assert c[0] == UpperChar('i') == 'I';
    assert c[1..] == "ssues";
    assert c == c[..1] + c[1..];
  }

  lemma NotVerbIssues()
    ensures !StartsWithVerb("Issues")
  {
    var low := Lower("Issues");
    assert low == "issues";
    forall i | 0 <= i < |Verbs| ensures !StartsWith(low, Verbs[i]) {
      VerbNotIs(i);
      NotIsPrefix(low, Verbs[i]);
    }
    forall g, w | 0 <= g < |ActionGroups| && 0 <= w < |ActionGroups[g]|
      ensures !StartsWith(low, ActionGroups[g][w])
    {
      ActionNotIs(g, w);
      NotIsPrefix(low, ActionGroups[g][w]);
    }
  }

  lemma VerbNotIs(i: nat)
    requires i < |Verbs|
    ensures |Verbs[i]| >= 2 && (Verbs[i][0] != 'i' || Verbs[i][1] != 's')
  {
  }

  lemma ActionNotIs(g: nat, w: nat)
    requires g < |ActionGroups| && w < |ActionGroups[g]|
    ensures |ActionGroups[g][w]| >= 2 && (ActionGroups[g][w][0] != 'i' || ActionGroups[g][w][1] != 's')
  {
  }

  lemma NotIsPrefix(low: string, v: string)
    requires low == "issues"
    requires |v| >= 2 && (v[0] != 'i' || v[1] != 's')
    ensures !StartsWith(low, v)
  {
    if |v| <= |low| {
      assert low[..|v|][0] == 'i' && low[..|v|][1] == 's';
    }
  }

  predicate IsMark(c: char) { c == '#' || c == '/' }

  /** Drops the leading run of `#` and `/`. */
  function DropLeadingMarks(s: string): (r: string)
    ensures |r| <= |s| && r == s[|s| - |r|..]
    ensures r == [] || !IsMark(r[0])
    decreases |s|
  {
    if s != [] && IsMark(s[0]) then DropLeadingMarks(s[1..]) else s
  }

  /** Drops the trailing run of `#` and `/`. */
  function DropTrailingMarks(s: string): (r: string)
    ensures |r| <= |s| && r == s[..|r|]
    ensures r == [] || !IsMark(r[|r| - 1])
    decreases |s|
  {
    if s != [] && IsMark(s[|s| - 1]) then DropTrailingMarks(s[..|s| - 1]) else s
  }

  /** `_clean_comment_text`: `^[#/]*\s*` and `\s*[#/]*$` removed from the
      stripped text, then a leading marker, then whitespace stripped and
      collapsed. The second pattern matches first where only whitespace and
      then marks remain, which is what the trailing marks followed by
      `rstrip()` remove. */
  function CleanCommentText(text: string): (r: string)
    ensures r == [] || (!IsSpace(r[0]) && !IsSpace(r[|r| - 1]))
    ensures Collapsed(r)
  {
    CollapseSpaces(Strip(DropMarker(CommentCore(text))))
  }

  /** The stripped text without its comment marks at either end. */
  function CommentCore(text: string): string {
    StripRight(DropTrailingMarks(StripLeft(DropLeadingMarks(Strip(text)))))
  }

  lemma {:induction false} DropLeadingMarksOf(lead: string, rest: string)
    requires forall i :: 0 <= i < |lead| ==> IsMark(lead[i])
    requires rest == [] || !IsMark(rest[0])
    ensures DropLeadingMarks(lead + rest) == rest
    decreases |lead|
  {
    if lead == [] {
      assert lead + rest == rest;
    } else {
      assert (lead + rest)[1..] == lead[1..] + rest;
      DropLeadingMarksOf(lead[1..], rest);
    }
  }

  /** The comment marks in front of `tagged` and the blank after them go;
      `tagged` itself is kept. */
  lemma CommentMarksRemoved(lead: string, tagged: string)
    requires lead != [] && forall i :: 0 <= i < |lead| ==> IsMark(lead[i])
    requires tagged != [] && !IsSpace(tagged[0]) && !IsSpace(tagged[|tagged| - 1]) && !IsMark(tagged[|tagged| - 1])
    ensures CommentCore(lead + " " + tagged) == tagged
  {
    var text := lead + " " + tagged;
    assert text[|text| - 1] == tagged[|tagged| - 1];
    assert !IsSpace(text[0]);
    StripOfTrimmed(text);
    assert text == lead + (" " + tagged);
    DropLeadingMarksOf(lead, " " + tagged);
    assert StripLeft(" " + tagged) == StripLeft(tagged) == tagged;
  }

  /** `marker + seps + body` has no blank at either end, and dropping its
      marker leaves `body`. */
  lemma TaggedBody(marker: string, seps: string, body: string)
    requires marker == [] ==> seps == []
    requires marker != [] ==> Lower(marker) in MarkerWords
    requires forall i :: 0 <= i < |seps| ==> seps[i] == ':' || IsSpace(seps[i])
    requires body != [] && !IsSpace(body[0]) && !IsSpace(body[|body| - 1]) && body[0] != ':'
    requires !HasMarker(body)
    ensures var tagged := marker + seps + body;
      !IsSpace(tagged[0]) && tagged[|tagged| - 1] == body[|body| - 1] && DropMarker(tagged) == body
  {
    var tagged := marker + seps + body;
    assert tagged[|tagged| - 1] == body[|body| - 1];
    if marker != [] {
      assert Lower(marker)[0] == LowerChar(marker[0]);
      assert IsLetter(LowerChar(marker[0]));
      assert tagged[0] == marker[0];
      DropMarkerOf(marker, seps, body);
    } else {
      assert tagged == body;
    }
  }

  /** A comment `# body`, or `# TODO: body` with any marker word and
      separators, cleans to its body. */
  lemma CleanCommentOf(lead: string, marker: string, seps: string, body: string)
    requires lead != [] && forall i :: 0 <= i < |lead| ==> IsMark(lead[i])
    requires marker == [] ==> seps == []
    requires marker != [] ==> Lower(marker) in MarkerWords
    requires forall i :: 0 <= i < |seps| ==> seps[i] == ':' || IsSpace(seps[i])
    requires body != [] && !IsSpace(body[0]) && !IsSpace(body[|body| - 1])
    requires !IsMark(body[|body| - 1]) && body[0] != ':'
    requires Collapsed(body) && !HasMarker(body)
    ensures CleanCommentText(lead + " " + (marker + seps + body)) == body
  {
    var tagged := marker + seps + body;
    TaggedBody(marker, seps, body);
    CommentMarksRemoved(lead, tagged);
    assert DropMarker(CommentCore(lead + " " + tagged)) == body;
    StripOfTrimmed(body);
    CollapseOfCollapsed(body);
  }

  // ---------------------------------------------------------------------
  // Truncation and the conventional format
  // ---------------------------------------------------------------------

  /** The cut in `_enhance_description`: a description longer than
      `max_length` keeps its first `max_length - 3` characters and gets `...`.
      For a `max_length` below 3 the slice counts from the end, so the bound
      holds only from 3 on. */
  function Truncate(e: string, maxLength: int): (r: string)
    ensures |e| <= maxLength ==> r == e
    ensures |e| > maxLength ==> EndsWith(r, "...") && StartsWith(e, r[..|r| - 3])
    ensures maxLength >= 3 ==> |r| <= maxLength
    ensures |e| > maxLength >= 3 ==> |r| == maxLength
  {
    if |e| > maxLength then
      var kept := PySliceTo(e, maxLength - 3);
      var r := kept + "...";
      assert r[..|r| - 3] == kept;
      assert kept == e[..|kept|];
      r
    else e
  }

  /** A scope Python treats as true: present and not empty. */
  predicate HasScope(scope: Option<string>) { scope.Some? && scope.value != [] }

  /** `_format_conventional`. */
  function FormatConventional(commitType: string, scope: Option<string>, description: string): string {
    if HasScope(scope) then commitType + "(" + scope.value + "): " + description
    else commitType + ": " + description
  }

  /** `:\s+.+` at the start. */
  predicate ColonRest(s: string) { |s| >= 1 && s[0] == ':' && RunThenChar(s[1..]) }

  predicate IsScopeChar(c: char) { IsLower(c) || c == '-' }

  /** `[a-z-]+\):\s+.+` at the start. */
  predicate ScopeThenColon(s: string)
    decreases |s|
  {
    |s| >= 1 && IsScopeChar(s[0]) &&
      ((|s| >= 2 && s[1] == ')' && ColonRest(s[2..])) || ScopeThenColon(s[1..]))
  }

  /** The header pattern of `validate_message`:
      `^(feat|fix|...|release)(\([a-z-]+\))?:\s+.+`. */
  predicate ConventionalHeader(msg: string) {
    exists i :: 0 <= i < |CommitTypes| && StartsWith(msg, CommitTypes[i]) && HeaderRest(msg[|CommitTypes[i]|..])
  }

  /** `(\([a-z-]+\))?:\s+.+` at the start. */
  predicate HeaderRest(rest: string) {
    ColonRest(rest) || (|rest| >= 1 && rest[0] == '(' && ScopeThenColon(rest[1..]))
  }

  /** `validate_message`: not blank, within `max_length`, and with a
      conventional header when conventional commits are on. */
  predicate ValidateMessage(msg: string, conventional: bool, maxLength: int) {
    msg != [] && Strip(msg) != [] && |msg| <= maxLength && (conventional ==> ConventionalHeader(msg))
  }

  lemma {:induction false} ScopeThenColonOf(scope: string, description: string)
    requires scope != [] && forall i :: 0 <= i < |scope| ==> IsScopeChar(scope[i])
    requires description != [] && description[0] != '\n'
    ensures ScopeThenColon(scope + "): " + description)
    decreases |scope|
  {
    var s := scope + "): " + description;
    assert RunThenChar(s[|scope| + 2..]) by {
      assert s[|scope| + 2..] == " " + description;
    }
    if |scope| == 1 {
      assert s[1] == ')';
      assert s[2..] == ": " + description;
    } else {
      assert s[1..] == scope[1..] + "): " + description;
      ScopeThenColonOf(scope[1..], description);
    }
  }

  /** What follows the type in a formatted message matches the rest of the
      header pattern. */
  lemma HeaderRestOf(scope: Option<string>, description: string)
    requires HasScope(scope) ==> forall i :: 0 <= i < |scope.value| ==> IsScopeChar(scope.value[i])
    requires description != [] && description[0] != '\n'
    ensures HeaderRest(if HasScope(scope) then "(" + scope.value + "): " + description else ": " + description)
  {
    assert RunThenChar(" " + description);
    if HasScope(scope) {
      var rest := "(" + scope.value + "): " + description;
      assert rest[1..] == scope.value + "): " + description;
      ScopeThenColonOf(scope.value, description);
    } else {
      var rest := ": " + description;
      assert rest[1..] == " " + description;
    }
  }

  /** A message in the conventional format, with a known type, a scope of
      lower-case letters and dashes (or none) and a description that starts
      on the header line, passes validation when it fits the length. */
  lemma FormattedValidates(commitType: string, scope: Option<string>, description: string,
                           conventional: bool, maxLength: int)
    requires commitType in CommitTypes
    requires HasScope(scope) ==> forall i :: 0 <= i < |scope.value| ==> IsScopeChar(scope.value[i])
    requires description != [] && description[0] != '\n'
    requires |FormatConventional(commitType, scope, description)| <= maxLength
    ensures ValidateMessage(FormatConventional(commitType, scope, description), conventional, maxLength)
  {
    var msg := FormatConventional(commitType, scope, description);
    var tail := if HasScope(scope) then "(" + scope.value + "): " + description else ": " + description;
    assert msg == commitType + tail;
    HeaderRestOf(scope, description);
    HeaderOfType(commitType, tail);
  }

  /** A scope that reaches a character outside `[a-z-]` before any `)` does
      not match `[a-z-]+\)`. */
  lemma {:induction false} ScopeStopsAt(s: string, k: nat)
    requires k < |s| && !IsScopeChar(s[k])
    requires forall j :: 0 <= j <= k ==> s[j] != ')'
    ensures !ScopeThenColon(s)
    decreases k
  {
    if k > 0 {
      assert s[1..][k - 1] == s[k];
      ScopeStopsAt(s[1..], k - 1);
    }
  }

  /** The requirement on the scope is needed: with the default kebab-case
      style a branch `feature/jira-123` gives the scope `jira-123`, and the
      digits make `validate_message` reject the formatted message. */
  lemma DigitScopeRejected(maxLength: int)
    ensures !ValidateMessage(FormatConventional("feat", Some("jira-123"), "add login"), true, maxLength)
  {
    var msg := FormatConventional("feat", Some("jira-123"), "add login");
    assert msg == "feat" + "(jira-123): add login";
    OnlyFeatPrefix("(jira-123): add login");
    DigitScopeRest();
    assert msg[4..] == "(jira-123): add login";
  }

  /** `(jira-123): …` does not match the scope group. */
  lemma DigitScopeRest()
    ensures !HeaderRest("(jira-123): add login")
  {
    var scoped := "jira-123): add login";
    ScopeStopsAt(scoped, 5);
    assert "(jira-123): add login"[1..] == scoped;
  }

  /** Of the conventional types only `feat` starts `feat…`. */
  lemma OnlyFeatPrefix(rest: string)
    ensures forall i :: 0 <= i < |CommitTypes| && StartsWith("feat" + rest, CommitTypes[i]) ==> i == 0
  {
    var msg := "feat" + rest;
    assert msg[0] == 'f' && msg[1] == 'e';
    forall i | 0 <= i < |CommitTypes| && StartsWith(msg, CommitTypes[i])
      ensures i == 0
    {
      assert msg[..|CommitTypes[i]|][0] == CommitTypes[i][0];
      assert msg[..|CommitTypes[i]|][1] == CommitTypes[i][1];
    }
  }

  /** A conventional type followed by a well-formed rest is a valid,
      non-blank header. */
  lemma HeaderOfType(commitType: string, tail: string)
    requires commitType in CommitTypes && HeaderRest(tail)
    ensures ConventionalHeader(commitType + tail) && Strip(commitType + tail) != []
  {
    var msg := commitType + tail;
    var i :| 0 <= i < |CommitTypes| && CommitTypes[i] == commitType;
    assert msg[..|commitType|] == commitType && msg[|commitType|..] == tail;
    assert commitType != [] && IsLower(commitType[0]);
    assert msg[0] == commitType[0];
    StripNonBlank(msg, 0);
  }

  // ---------------------------------------------------------------------
  // Suggestions
  // ---------------------------------------------------------------------

  /** The part `_is_imperative` looks at: what follows the first `:`,
      stripped, or the whole message. */
  function AfterColon(msg: string): string {
    var i := IndexOf(msg, ':');
    if i < 0 then msg else Strip(msg[i + 1..])
  }

  /** `_is_imperative`. */
  predicate IsImperative(msg: string) { StartsWithAny(Lower(AfterColon(msg)), Verbs) }

  /** The first colon of `head + ": " + description` when `head` has none. */
  lemma AfterColonOf(head: string, description: string)
    requires ':' !in head
    requires description == [] || (!IsSpace(description[0]) && !IsSpace(description[|description| - 1]))
    ensures AfterColon(head + ": " + description) == description
  {
    var msg := head + ": " + description;
    FirstColonAfterHead(head, description);
    assert msg[|head| + 1..] == " " + description;
    StripSpacePrefix(description);
    StripOfTrimmed(description);
  }

  lemma FirstColonAfterHead(head: string, description: string)
    requires ':' !in head
    ensures IndexOf(head + ": " + description, ':') == |head|
  {
    var msg := head + ": " + description;
    assert msg[|head|] == ':';
  }

  /** For a formatted message the check reads the description. */
  lemma ImperativeOfFormatted(commitType: string, scope: Option<string>, description: string)
    requires ':' !in commitType
    requires HasScope(scope) ==> ':' !in scope.value
    requires description == [] || (!IsSpace(description[0]) && !IsSpace(description[|description| - 1]))
    ensures IsImperative(FormatConventional(commitType, scope, description)) <==> StartsWithAny(Lower(description), Verbs)
  {
    if HasScope(scope) {
      var head := commitType + "(" + scope.value + ")";
      assert FormatConventional(commitType, scope, description) == head + ": " + description;
      AfterColonOf(head, description);
    } else {
      AfterColonOf(commitType, description);
    }
  }


  const UpdateNote: string := "Consider using a more specific verb than 'update'"
  const VagueNote: string := "Avoid vague words like 'stuff' or 'things'"
  const PeriodNote: string := "Conventional commits typically don't end with a period"
  const MoodNote: string := "Use imperative mood (e.g., 'add' not 'added')"

  function LengthNote(n: nat): (r: string)
    ensures |r| > 0 && r[|r| - 1] == '.'
  {
    "Message is too long (" + NatToString(n) + " chars). Consider shortening."
  }

  function LastChar(s: string): char
    requires s != []
  {
    s[|s| - 1]
  }

  /** The five notes are different strings (told apart by their ends). */
  lemma NotesDiffer(n: nat)
    ensures |{LengthNote(n), UpdateNote, VagueNote, PeriodNote, MoodNote}| == 5
  {
    assert LastChar(UpdateNote) == '\'' && UpdateNote[|UpdateNote| - 2] == 'e';
    assert LastChar(VagueNote) == '\'' && VagueNote[|VagueNote| - 2] == 's';
    assert LastChar(PeriodNote) == 'd' && LastChar(MoodNote) == ')' && LastChar(LengthNote(n)) == '.';
  }

  function When(c: bool, note: string): (r: seq<string>)
    ensures note in r <==> c
    ensures forall x :: x in r ==> x == note
  {
    if c then [note] else []
  }

  /** The five notes in the order the checks run. */
  function NoteOrder(n: nat): seq<string> {
    [LengthNote(n), UpdateNote, VagueNote, PeriodNote, MoodNote]
  }

  /** The position of a note in `NoteOrder(n)`. */
  function Rank(x: string, n: nat): nat {
    if x == LengthNote(n) then 0
    else if x == UpdateNote then 1
    else if x == VagueNote then 2
    else if x == PeriodNote then 3
    else 4
  }

  /** The notes for the five checks: exactly the notes whose check fails,
      nothing else, and each before the notes of later checks. */
  function Notes(tooLong: bool, update: bool, vague: bool, period: bool, mood: bool, n: nat): (r: seq<string>)
    ensures |r| <= 5
    ensures LengthNote(n) in r <==> tooLong
    ensures UpdateNote in r <==> update
    ensures VagueNote in r <==> vague
    ensures PeriodNote in r <==> period
    ensures MoodNote in r <==> mood
    ensures RankedBelow(r, n, 5) && Ascending(r, n)
  {
    NotesPresent(tooLong, update, vague, period, mood, n);
    NotesAscending(tooLong, update, vague, period, mood, n);
    When(tooLong, LengthNote(n)) + When(update, UpdateNote) + When(vague, VagueNote)
      + When(period, PeriodNote) + When(mood, MoodNote)
  }

  lemma NotesPresent(tooLong: bool, update: bool, vague: bool, period: bool, mood: bool, n: nat)
    ensures var r := When(tooLong, LengthNote(n)) + When(update, UpdateNote) + When(vague, VagueNote)
      + When(period, PeriodNote) + When(mood, MoodNote);
      && |r| <= 5
      && (LengthNote(n) in r <==> tooLong) && (UpdateNote in r <==> update) && (VagueNote in r <==> vague)
      && (PeriodNote in r <==> period) && (MoodNote in r <==> mood)
  {
    NotesDiffer(n);
  }

  lemma NotesAscending(tooLong: bool, update: bool, vague: bool, period: bool, mood: bool, n: nat)
    ensures var r := When(tooLong, LengthNote(n)) + When(update, UpdateNote) + When(vague, VagueNote)
      + When(period, PeriodNote) + When(mood, MoodNote);
      RankedBelow(r, n, 5) && Ascending(r, n)
  {
    var r1 := When(tooLong, LengthNote(n));
    var r2 := r1 + When(update, UpdateNote);
    var r3 := r2 + When(vague, VagueNote);
    var r4 := r3 + When(period, PeriodNote);
    RanksOfOrder(n);
    AppendRanked([], tooLong, LengthNote(n), 0, n);
    assert [] + r1 == r1;
    AppendRanked(r1, update, UpdateNote, 1, n);
    AppendRanked(r2, vague, VagueNote, 2, n);
    AppendRanked(r3, period, PeriodNote, 3, n);
    AppendRanked(r4, mood, MoodNote, 4, n);
  }

  /** Every note of `r` is one of the five, ranked below `k`. */
  predicate RankedBelow(r: seq<string>, n: nat, k: nat) {
    forall x :: x in r ==> x in NoteOrder(n) && Rank(x, n) < k
  }

  /** The notes of `r` come in the order of their checks. */
  predicate Ascending(r: seq<string>, n: nat) {
    forall i, j :: 0 <= i < j < |r| ==> Rank(r[i], n) < Rank(r[j], n)
  }

  /** Each note's rank is its position. */
  lemma RanksOfOrder(n: nat)
    ensures forall k :: 0 <= k < 5 ==> Rank(NoteOrder(n)[k], n) == k
  {
    NotesDiffer(n);
    assert LengthNote(n) != UpdateNote && LengthNote(n) != VagueNote && LengthNote(n) != PeriodNote;
    assert UpdateNote != VagueNote && UpdateNote != PeriodNote && VagueNote != PeriodNote;
    assert MoodNote != LengthNote(n) && MoodNote != UpdateNote && MoodNote != VagueNote && MoodNote != PeriodNote;
  }

  /** Appending the note of rank `k` to notes all ranked below `k` keeps
      them ascending. */
  lemma AppendRanked(r: seq<string>, c: bool, note: string, k: nat, n: nat)
    requires k < 5 && note == NoteOrder(n)[k] && Rank(note, n) == k
    requires RankedBelow(r, n, k) && Ascending(r, n)
    ensures RankedBelow(r + When(c, note), n, k + 1) && Ascending(r + When(c, note), n)
  {
    var t := r + When(c, note);
    forall i, j | 0 <= i < j < |t|
      ensures Rank(t[i], n) < Rank(t[j], n)
    {
      if j >= |r| {
        assert t[j] == note;
        assert t[i] == r[i] && r[i] in r;
      }
    }
  }


  /** `suggest_improvements`: one note per problem found, in a fixed order. */
  function SuggestImprovements(msg: string, maxLength: int): (r: seq<string>)
    ensures |r| <= 5
    ensures LengthNote(|msg|) in r <==> |msg| > maxLength
    ensures UpdateNote in r <==> StartsWith(Lower(msg), "update")
    ensures VagueNote in r <==> Contains(Lower(msg), "stuff") || Contains(Lower(msg), "things")
    ensures PeriodNote in r <==> EndsWith(msg, ".")
    ensures MoodNote in r <==> !IsImperative(msg)
    ensures RankedBelow(r, |msg|, 5) && Ascending(r, |msg|)
  {
    var low := Lower(msg);
    Notes(|msg| > maxLength, StartsWith(low, "update"), Contains(low, "stuff") || Contains(low, "things"),
          EndsWith(msg, "."), !IsImperative(msg), |msg|)
  }
}
