/** The pure part of `GitAnalyzer`: the `GitAnalysis` record, the capped
    pattern extractors, the line truncation of oversized diffs, branch-name
    decomposition and the derived fields (primary file type, change summary,
    scope suggestions, change context, impact level). Running git is not
    modelled: every operation takes the captured text as a parameter. */
module Analyzer {
  import opened Text
  import opened GitOutput

  const MaxDiffSize: nat := 1024 * 1024
  const MaxDiffLines: nat := 10000
  const MaxPatternMatches: nat := 100

  // ---------------------------------------------------------------------
  // Regular expressions
  // ---------------------------------------------------------------------

  /** A pattern of the `re` module with its IGNORECASE flag (MULTILINE is
      always on where these are used). */
  datatype Regex = Regex(pattern: string, ignoreCase: bool)

  /** `re.findall(pattern, text, flags)`: the captured strings, in order.
      The matcher itself is a parameter of the model. */
  type Matcher = (Regex, string) -> seq<string>

  // ---------------------------------------------------------------------
  // The analysis record
  // ---------------------------------------------------------------------

  datatype Impact = Low | Medium | High

  datatype ChangeContext = ChangeContext(
    isDocumentationUpdate: bool, isTestUpdate: bool, isConfigUpdate: bool,
    isCodeRefactor: bool, isBugFix: bool, isFeatureAddition: bool,
    isPerformanceImprovement: bool, isStyleChange: bool,
    hasVersionBump: bool, hasColorChanges: bool, hasFunctionChanges: bool,
    fileCount: nat, insertions: nat, deletions: nat)

  /** `GitAnalysis`: everything the rule engine reads about the repository. */
  datatype GitAnalysis = GitAnalysis(
    branchName: string,
    stagedFiles: seq<string>,
    unstagedFiles: seq<string>,
    fileTypes: FileTypes,
    fileExtensions: seq<string>,
    stagedDiff: string,
    unstagedDiff: string,
    stats: Stats,
    todos: seq<string>,
    fixes: seq<string>,
    bugs: seq<string>,
    versionChanges: seq<string>,
    functionChanges: seq<string>,
    colorChanges: seq<string>,
    configChanges: seq<string>,
    branchType: Option<string>,
    branchScope: Option<string>,
    recentCommits: seq<Commit>,
    remoteUrl: Option<string>,
    primaryFileType: Option<Category>,
    changeSummary: string,
    scopeSuggestions: seq<string>,
    changeContext: ChangeContext,
    impactLevel: Impact)

  // ---------------------------------------------------------------------
  // Truncation of oversized diffs (`_get_*_diff_with_limits`)
  // ---------------------------------------------------------------------

  const TruncationText := "... (diff truncated at 10000 lines)"

  /** The line-count cut applied to a diff whose `--stat` output is too big. */
  function TruncateLines(content: string): string {
    var lines := Split(content, '\n');
    if |lines| > MaxDiffLines then Join(lines[..MaxDiffLines] + ["\n" + TruncationText], "\n")
    else content
  }

  /** `_get_staged_diff_with_limits` / `_get_unstaged_diff_with_limits`,
      given the captured `--stat` output, the `--no-color` diff and the
      ordinary diff. */
  function DiffWithLimits(statOutput: string, fullDiff: string, plainDiff: string): string {
    if |statOutput| > MaxDiffSize then TruncateLines(fullDiff) else plainDiff
  }

  /** A diff of at most 10000 lines is kept as it is; a longer one, read
      back line by line, is its first 10000 lines, an empty line and the
      notice. */
  lemma TruncatedLines(content: string)
    ensures |Split(content, '\n')| <= MaxDiffLines ==> TruncateLines(content) == content
    ensures |Split(content, '\n')| > MaxDiffLines ==>
              Split(TruncateLines(content), '\n') == Split(content, '\n')[..MaxDiffLines] + ["", TruncationText]
  {
    var lines := Split(content, '\n');
    if |lines| > MaxDiffLines {
      var kept := lines[..MaxDiffLines];
      JoinAppend(kept, "\n" + TruncationText, "\n");
      JoinAppend(kept, "", "\n");
      JoinAppend(kept + [""], TruncationText, "\n");
      assert kept + ["", TruncationText] == (kept + [""]) + [TruncationText];
      assert Join(kept + ["\n" + TruncationText], "\n") == Join(kept + ["", TruncationText], "\n");
      forall p | p in kept + ["", TruncationText] ensures '\n' !in p {
        if p in kept {
          assert p in lines;
        } else if p == TruncationText {
          assert forall k :: 0 <= k < |TruncationText| ==> TruncationText[k] != '\n';
        }
      }
      SplitJoin(kept + ["", TruncationText], '\n');
    }
  }

  // ---------------------------------------------------------------------
  // Capped pattern extraction (`_extract_*`)
  // ---------------------------------------------------------------------

  datatype Extractor = Todos | Fixes | Bugs | Versions | Functions | Colors | ConfigKeys

  /** The five comment patterns for a marker word such as TODO. */
  function MarkerPatterns(word: string): seq<Regex> {
    [Regex(@"//\s*" + word + @"[:\s]*(.+)", true),
     Regex(@"#\s*" + word + @"[:\s]*(.+)", true),
     Regex(@"/\*\s*" + word + @"[:\s]*(.+?)\*/", true),
     Regex(@"<!--\s*" + word + @"[:\s]*(.+?)-->", true),
     Regex(word + @"[:\s]*(.+)", true)]
  }

  function Patterns(e: Extractor): seq<Regex> {
    match e
    case Todos => MarkerPatterns("TODO")
    case Fixes => MarkerPatterns("FIX")
    case Bugs => MarkerPatterns("BUG")
    case Versions =>
      [Regex(@"version\s*[=:]\s*[""']?(\d+\.\d+\.\d+)[""']?", true),
       Regex(@"__version__\s*=\s*[""']?(\d+\.\d+\.\d+)[""']?", true),
       Regex(@"""version"":\s*""(\d+\.\d+\.\d+)""", true),
       Regex(@"'version':\s*'(\d+\.\d+\.\d+)'", true),
       Regex(@"version\s*=\s*[""']?(\d+\.\d+\.\d+)[""']?", true)]
    case Functions =>
      [Regex(@"def\s+(\w+)", false),
       Regex(@"function\s+(\w+)", false),
       Regex(@"fn\s+(\w+)", false),
       Regex(@"func\s+(\w+)", false),
       Regex(@"public\s+\w+\s+(\w+)\s*\(", false),
       Regex(@"private\s+\w+\s+(\w+)\s*\(", false),
       Regex(@"protected\s+\w+\s+(\w+)\s*\(", false)]
    case Colors =>
      [Regex(@"color\s*[=:]\s*[""']?([^""']+)[""']?", true),
       Regex(@"background-color\s*[=:]\s*[""']?([^""']+)[""']?", true),
       Regex(@"border-color\s*[=:]\s*[""']?([^""']+)[""']?", true),
       Regex(@"#[0-9a-fA-F]{3,6}", true),
       Regex(@"rgb\([^)]+\)", true),
       Regex(@"rgba\([^)]+\)", true),
       Regex(@"hsl\([^)]+\)", true),
       Regex(@"hsla\([^)]+\)", true)]
    case ConfigKeys =>
      [Regex(@"config\s*[=:]\s*[""']?([^""']+)[""']?", true),
       Regex(@"setting\s*[=:]\s*[""']?([^""']+)[""']?", true),
       Regex(@"option\s*[=:]\s*[""']?([^""']+)[""']?", true),
       Regex(@"parameter\s*[=:]\s*[""']?([^""']+)[""']?", true),
       Regex(@"default\s*[=:]\s*[""']?([^""']+)[""']?", true)]
  }

  /** The TODO/FIX/BUG extractors strip each capture. */
  predicate StripsMatches(e: Extractor) { e.Todos? || e.Fixes? || e.Bugs? }

  function StripAll(ms: seq<string>): (r: seq<string>)
    ensures |r| == |ms|
    ensures forall i :: 0 <= i < |ms| ==> r[i] == Strip(ms[i])
  {
    seq(|ms|, i requires 0 <= i < |ms| => Strip(ms[i]))
  }

  /** What one pattern contributes: its first 100 captures, stripped for
      the comment extractors. */
  function Found(strips: bool, findall: Matcher, diff: string, p: Regex): seq<string> {
    var ms := Take(MaxPatternMatches, findall(p, diff));
    if strips then StripAll(ms) else ms
  }

  /** The contributions of `ps`, concatenated in order. */
  function Gathered(strips: bool, findall: Matcher, diff: string, ps: seq<Regex>): seq<string>
    decreases |ps|
  {
    if ps == [] then []
    else Gathered(strips, findall, diff, ps[..|ps| - 1]) + Found(strips, findall, diff, ps[|ps| - 1])
  }

  /** What an extractor returns: nothing for an empty or oversized diff,
      otherwise the first 100 of all contributions. */
  function Capped(strips: bool, findall: Matcher, diff: string, ps: seq<Regex>): seq<string> {
    if diff == "" || |diff| > MaxDiffSize then []
    else Take(MaxPatternMatches, Gathered(strips, findall, diff, ps))
  }

  function Extracted(e: Extractor, findall: Matcher, diff: string): seq<string> {
    Capped(StripsMatches(e), findall, diff, Patterns(e))
  }

  /** The contributions of the first i patterns begin those of all of them. */
  lemma {:induction false} GatheredPrefix(strips: bool, findall: Matcher, diff: string, ps: seq<Regex>, i: nat)
    requires i <= |ps|
    ensures Gathered(strips, findall, diff, ps[..i]) <= Gathered(strips, findall, diff, ps)
    decreases |ps|
  {
    if i < |ps| {
      var init := ps[..|ps| - 1];
      assert init[..i] == ps[..i];
      GatheredPrefix(strips, findall, diff, init, i);
    } else {
      assert ps[..i] == ps;
    }
  }

  /** The loop shared by the extractors: extend with at most 100 captures
      per pattern and stop once 100 are gathered. */
  method ExtractCapped(strips: bool, findall: Matcher, diff: string, ps: seq<Regex>) returns (found: seq<string>)
    ensures found == Capped(strips, findall, diff, ps)
    ensures |found| <= MaxPatternMatches
    ensures diff == "" || |diff| > MaxDiffSize ==> found == []
  {
    if diff == "" || |diff| > MaxDiffSize {
      return [];
    }
    var acc: seq<string> := [];
    var i := 0;
    while i < |ps|
      invariant 0 <= i <= |ps|
      invariant acc == Gathered(strips, findall, diff, ps[..i])
    {
      var limited := Take(MaxPatternMatches, findall(ps[i], diff));
      if strips {
        acc := acc + StripAll(limited);
      } else {
        acc := acc + limited;
      }
      assert ps[..i + 1][..i] == ps[..i];
      i := i + 1;
      if |acc| >= MaxPatternMatches {
        break;
      }
    }
    GatheredPrefix(strips, findall, diff, ps, i);
    assert i == |ps| ==> ps[..i] == ps;
    found := Take(MaxPatternMatches, acc);
  }

  /** `_extract_todos`, `_extract_fixes`, ... `_extract_config_changes`. */
  method Extract(e: Extractor, findall: Matcher, diff: string) returns (found: seq<string>)
    ensures found == Extracted(e, findall, diff)
    ensures |found| <= MaxPatternMatches
    ensures diff == "" || |diff| > MaxDiffSize ==> found == []
  {
    found := ExtractCapped(StripsMatches(e), findall, diff, Patterns(e));
  }

  /** Everything an extractor returns came from one of its patterns. */
  lemma {:induction false} GatheredSound(strips: bool, findall: Matcher, diff: string, ps: seq<Regex>, x: string)
    requires x in Gathered(strips, findall, diff, ps)
    ensures exists p :: p in ps && x in Found(strips, findall, diff, p)
    decreases |ps|
  {
    var init := ps[..|ps| - 1];
    var p := ps[|ps| - 1];
    if x in Gathered(strips, findall, diff, init) {
      GatheredSound(strips, findall, diff, init, x);
      var q :| q in init && x in Found(strips, findall, diff, q);
      assert q in ps;
    } else {
      assert p in ps;
    }
  }

  /** A capture of the comment extractors is the stripped text of one
      capture of one of the patterns. */
  lemma FoundSound(strips: bool, findall: Matcher, diff: string, p: Regex, x: string)
    requires x in Found(strips, findall, diff, p)
    ensures exists k :: 0 <= k < |findall(p, diff)| && x == (if strips then Strip(findall(p, diff)[k]) else findall(p, diff)[k])
  {
    var ms := Take(MaxPatternMatches, findall(p, diff));
    var k :| 0 <= k < |ms| && x == (if strips then Strip(ms[k]) else ms[k]);
    assert ms[k] == findall(p, diff)[k];
  }

  // ---------------------------------------------------------------------
  // Branch names (`_analyze_branch`)
  // ---------------------------------------------------------------------

  /** The alternatives of the ten `^(type|alias)/(.+)$` patterns, in order. */
  const BranchAliases: seq<seq<string>> :=
    [["feat", "feature"], ["fix", "bugfix"], ["docs", "documentation"], ["test", "testing"],
     ["refactor", "refactoring"], ["style", "styling"], ["perf", "performance"],
     ["chore", "maintenance"], ["hotfix"], ["release"]]

  predicate NoSlash(groups: seq<seq<string>>) {
    forall g, a :: g in groups && a in g ==> '/' !in a
  }

  lemma BranchAliasesHaveNoSlash()
    ensures NoSlash(BranchAliases)
  {
    forall i | 0 <= i < |BranchAliases|
      ensures forall a :: a in BranchAliases[i] ==> '/' !in a
    {
    }
  }

  /** `(.+)$` without MULTILINE: one or more characters other than a
      newline, up to the end or to a final newline that the group leaves out. */
  function RestOfLine(s: string): Option<string> {
    if s != [] && '\n' !in s then Some(s)
    else if |s| >= 2 && s[|s| - 1] == '\n' && '\n' !in s[..|s| - 1] then Some(s[..|s| - 1])
    else None
  }

  /** `re.match("^(a1|a2|...)/(.+)$", name, re.IGNORECASE)`: group 1 and
      group 2 of the first alternative that matches. */
  function MatchAliases(aliases: seq<string>, name: string): (r: Option<(string, string)>)
    requires forall a :: a in aliases ==> '/' !in a
    ensures r.Some? ==> |r.value.0| < |name| && name[..|r.value.0|] == r.value.0
                        && IndexOf(name, '/') == |r.value.0|
                        && RestOfLine(name[|r.value.0| + 1..]) == Some(r.value.1)
    decreases |aliases|
  {
    if aliases == [] then None
    else
      var a := aliases[0];
      if |a| < |name| && Lower(name[..|a|]) == a && name[|a|] == '/' && RestOfLine(name[|a| + 1..]).Some? then
        assert forall k :: 0 <= k < |a| ==> name[k] != '/' by {
          forall k | 0 <= k < |a| ensures name[k] != '/' {
            assert a[k] == LowerChar(name[..|a|][k]);
            assert a[k] in a;
          }
        }
        Some((name[..|a|], RestOfLine(name[|a| + 1..]).value))
      else MatchAliases(aliases[1..], name)
  }

  /** The ten patterns tried in order. */
  function MatchBranchPatterns(groups: seq<seq<string>>, name: string): (r: Option<(string, string)>)
    requires NoSlash(groups)
    ensures r.Some? ==> |r.value.0| < |name| && name[..|r.value.0|] == r.value.0
                        && IndexOf(name, '/') == |r.value.0|
                        && RestOfLine(name[|r.value.0| + 1..]) == Some(r.value.1)
    decreases |groups|
  {
    if groups == [] then None
    else
      assert groups[0] in groups;
      match MatchAliases(groups[0], name)
      case Some(m) => Some(m)
      case None => MatchBranchPatterns(groups[1..], name)
  }

  /** `_analyze_branch`: (type, scope), lower-cased, or (None, None). */
  function AnalyzeBranch(name: string): (r: (Option<string>, Option<string>))
    ensures r.0.Some? <==> r.1.Some?
  {
    BranchAliasesHaveNoSlash();
    match MatchBranchPatterns(BranchAliases, name)
    case Some((t, s)) => (Some(Lower(t)), Some(Lower(s)))
    case None =>
      if '/' in name then
        var i := IndexOf(name, '/');
        (Some(Lower(name[..i])), Some(Lower(name[i + 1..])))
      else (None, None)
  }

  /** A branch name without "/" has neither type nor scope; otherwise (for
      a name on one line) the type is the lower-cased text before the first
      "/" and the scope the lower-cased rest, which may be empty. */
  lemma BranchSplitsAtFirstSlash(name: string)
    ensures '/' !in name ==> AnalyzeBranch(name) == (None, None)
    ensures '/' in name && '\n' !in name ==>
              AnalyzeBranch(name) == (Some(Lower(name[..IndexOf(name, '/')])),
                                      Some(Lower(name[IndexOf(name, '/') + 1..])))
  {
    BranchAliasesHaveNoSlash();
    MatchIsSplit(BranchAliases, name);
  }

  /** A matching pattern splits a one-line name at its first "/". */
  lemma MatchIsSplit(groups: seq<seq<string>>, name: string)
    requires NoSlash(groups)
    ensures MatchBranchPatterns(groups, name).Some? ==> '/' in name
    ensures MatchBranchPatterns(groups, name).Some? && '\n' !in name ==>
              MatchBranchPatterns(groups, name).value
                == (name[..IndexOf(name, '/')], name[IndexOf(name, '/') + 1..])
  {
    var m := MatchBranchPatterns(groups, name);
    if m.Some? {
      var n := |m.value.0|;
      assert name[n] == '/';
      if '\n' !in name {
        assert '\n' !in name[n + 1..];
      }
    }
  }

  // ---------------------------------------------------------------------
  // Primary file type
  // ---------------------------------------------------------------------

  /** The priority order of `_get_primary_file_type`. */
  function Rank(c: Category): nat {
    match c
    case Code => 0
    case Tests => 1
    case Docs => 2
    case ConfigFiles => 3
    case Assets => 4
    case Other => 5
  }

  /** `_get_primary_file_type`: the non-empty category of best rank. */
  function PrimaryFileType(ft: FileTypes): (r: Option<Category>)
    ensures r.None? <==> ft.code == [] && ft.tests == [] && ft.docs == [] && ft.config == []
                         && ft.assets == [] && ft.other == []
    ensures r.Some? ==> ft.Get(r.value) != [] && forall c :: Rank(c) < Rank(r.value) ==> ft.Get(c) == []
  {
    if ft.code != [] then Some(Code)
    else if ft.tests != [] then Some(Tests)
    else if ft.docs != [] then Some(Docs)
    else if ft.config != [] then Some(ConfigFiles)
    else if ft.assets != [] then Some(Assets)
    else if ft.other != [] then Some(Other)
    else None
  }

  // ---------------------------------------------------------------------
  // Change summary
  // ---------------------------------------------------------------------

  /** The label a non-empty category adds to the summary; "other" adds none. */
  function TypeLabel(c: Category): Option<string> {
    match c
    case Code => Some("code")
    case Tests => Some("tests")
    case Docs => Some("documentation")
    case ConfigFiles => Some("configuration")
    case Assets => Some("assets")
    case Other => None
  }

  function TypeLabels(ft: FileTypes, cs: seq<Category>): seq<string>
    decreases |cs|
  {
    if cs == [] then []
    else
      var c := cs[|cs| - 1];
      TypeLabels(ft, cs[..|cs| - 1])
        + (if ft.Get(c) != [] && TypeLabel(c).Some? then [TypeLabel(c).value] else [])
  }

  function CountPart(n: nat): string {
    if n == 1 then "1 file" else NatToString(n) + " files"
  }

  function StatsPart(st: Stats): Option<string> {
    if st.insertions > 0 && st.deletions > 0 then
      Some(NatToString(st.insertions) + " additions, " + NatToString(st.deletions) + " deletions")
    else if st.insertions > 0 then Some(NatToString(st.insertions) + " additions")
    else if st.deletions > 0 then Some(NatToString(st.deletions) + " deletions")
    else None
  }

  /** The parts that `_generate_change_summary` joins with spaces. */
  function SummaryParts(fileCount: nat, st: Stats, ft: FileTypes): seq<string> {
    var labels := TypeLabels(ft, AllCategories);
    [CountPart(fileCount)]
      + (if StatsPart(st).Some? then [StatsPart(st).value] else [])
      + (if labels != [] then ["(" + Join(labels, ", ") + ")"] else [])
  }

  /** `_generate_change_summary`. */
  method ChangeSummary(staged: seq<string>, st: Stats, ft: FileTypes) returns (summary: string)
    ensures staged == [] ==> summary == "No changes"
    ensures staged != [] ==> summary == Join(SummaryParts(|staged|, st, ft), " ")
  {
    if staged == [] {
      return "No changes";
    }
    var parts: seq<string>;
    if |staged| == 1 {
      parts := ["1 file"];
    } else {
      parts := [NatToString(|staged|) + " files"];
    }
    if st.insertions > 0 || st.deletions > 0 {
      if st.insertions > 0 && st.deletions > 0 {
        parts := parts + [NatToString(st.insertions) + " additions, " + NatToString(st.deletions) + " deletions"];
      } else if st.insertions > 0 {
        parts := parts + [NatToString(st.insertions) + " additions"];
      } else if st.deletions > 0 {
        parts := parts + [NatToString(st.deletions) + " deletions"];
      }
    }
    assert parts == [CountPart(|staged|)] + (if StatsPart(st).Some? then [StatsPart(st).value] else []);
    var typeSummary: seq<string> := [];
    for i := 0 to |AllCategories|
      invariant typeSummary == TypeLabels(ft, AllCategories[..i])
    {
      var c := AllCategories[i];
      assert AllCategories[..i + 1][..i] == AllCategories[..i];
      if ft.Get(c) != [] {
        match TypeLabel(c)
        case Some(name) => typeSummary := typeSummary + [name];
        case None =>
      }
    }
    assert AllCategories[..|AllCategories|] == AllCategories;
    assert typeSummary == TypeLabels(ft, AllCategories);
    if typeSummary != [] {
      parts := parts + ["(" + Join(typeSummary, ", ") + ")"];
    }
    assert parts == SummaryParts(|staged|, st, ft);
    summary := Join(parts, " ");
  }

  lemma {:induction false} JoinStartsWith(parts: seq<string>, sep: string)
    requires |parts| > 0
    ensures StartsWith(Join(parts, sep), parts[0])
  {
    if |parts| > 1 {
      assert Join(parts, sep)[..|parts[0]|] == parts[0];
    }
  }

  /** A non-empty summary opens with "1 file" or "N files". */
  lemma SummaryStartsWithCount(fileCount: nat, st: Stats, ft: FileTypes)
    requires fileCount > 0
    ensures StartsWith(Join(SummaryParts(fileCount, st, ft), " "), CountPart(fileCount))
    ensures fileCount == 1 ==> StartsWith(Join(SummaryParts(fileCount, st, ft), " "), "1 file")
    ensures fileCount > 1 ==> StartsWith(Join(SummaryParts(fileCount, st, ft), " "), NatToString(fileCount) + " files")
  {
    JoinStartsWith(SummaryParts(fileCount, st, ft), " ");
  }

  /** The "other" category never shows in the summary's type list. */
  lemma {:induction false} LabelsIgnoreOther(ft: FileTypes, cs: seq<Category>, others: seq<string>)
    ensures TypeLabels(ft, cs) == TypeLabels(ft.(other := others), cs)
    decreases |cs|
  {
    if cs != [] {
      LabelsIgnoreOther(ft, cs[..|cs| - 1], others);
    }
  }

  /** A category's label is listed exactly when it has files. */
  lemma {:induction false} LabelListed(ft: FileTypes, cs: seq<Category>, c: Category)
    requires TypeLabel(c).Some?
    requires forall d :: d in cs && TypeLabel(d) == TypeLabel(c) ==> d == c
    ensures TypeLabel(c).value in TypeLabels(ft, cs) <==> c in cs && ft.Get(c) != []
    decreases |cs|
  {
    if cs != [] {
      var init := cs[..|cs| - 1];
      var d := cs[|cs| - 1];
      assert forall x :: x in init ==> x in cs;
      LabelListed(ft, init, c);
      assert cs == init + [d];
    }
  }

  // ---------------------------------------------------------------------
  // Scope suggestions
  // ---------------------------------------------------------------------

  /** The elif chain on the lower-cased file name. */
  function NameScope(name: string): Option<string> {
    if Contains(name, "auth") || Contains(name, "login") then Some("auth")
    else if Contains(name, "api") then Some("api")
    else if Contains(name, "ui") || Contains(name, "component") then Some("ui")
    else if Contains(name, "db") || Contains(name, "database") then Some("db")
    else if Contains(name, "util") || Contains(name, "helper") then Some("utils")
    else if Contains(name, "tui") then Some("tui")
    else if Contains(name, "llm") then Some("llm")
    else if Contains(name, "git") then Some("git")
    else None
  }

  /** What one path adds in the first loop: its first directory and its stem. */
  function PathScopesOf(p: string): set<string> {
    (if HasDirectory(p) then {FirstSegment(p)} else {}) + (if Stem(p) != "" then {Stem(p)} else {})
  }

  function PathScopes(files: seq<string>): set<string>
    decreases |files|
  {
    if files == [] then {} else PathScopes(files[..|files| - 1]) + PathScopesOf(files[|files| - 1])
  }

  lemma PathScopesSnoc(files: seq<string>, i: nat)
    requires i < |files|
    ensures PathScopes(files[..i + 1]) == PathScopes(files[..i]) + PathScopesOf(files[i])
  {
    assert files[..i + 1][..i] == files[..i];
  }

  function NameScopesOf(p: string): set<string> {
    var s := NameScope(Lower(PathName(p)));
    if s.Some? then {s.value} else {}
  }

  function NameScopes(files: seq<string>): set<string>
    decreases |files|
  {
    if files == [] then {} else NameScopes(files[..|files| - 1]) + NameScopesOf(files[|files| - 1])
  }

  lemma NameScopesSnoc(files: seq<string>, i: nat)
    requires i < |files|
    ensures NameScopes(files[..i + 1]) == NameScopes(files[..i]) + NameScopesOf(files[i])
  {
    assert files[..i + 1][..i] == files[..i];
  }

  function BranchScopes(branchScope: Option<string>): set<string> {
    if branchScope.Some? && branchScope.value != "" then {branchScope.value} else {}
  }

  function TypeScopes(ft: FileTypes): set<string> {
    (if ft.code != [] then {"core"} else {}) + (if ft.tests != [] then {"test"} else {})
    + (if ft.docs != [] then {"docs"} else {}) + (if ft.config != [] then {"config"} else {})
  }

  /** The set `_generate_scope_suggestions` builds. */
  function Suggestions(staged: seq<string>, branchScope: Option<string>, ft: FileTypes): set<string> {
    BranchScopes(branchScope) + PathScopes(staged) + TypeScopes(ft) + NameScopes(staged)
  }

  /** What the first loop of `_generate_scope_suggestions` adds for one
      path: its first directory (when it has one) and its stem (when
      non-empty). */
  method AddPathScopesOf(scopes: seq<string>, p: string) returns (r: seq<string>)
    requires StrictlySorted(scopes)
    ensures StrictlySorted(r) && Elems(r) == Elems(scopes) + PathScopesOf(p)
  {
    r := AddWhen(scopes, HasDirectory(p), FirstSegment(p));
    var stem := Stem(p);
    r := AddWhen(r, stem != "", stem);
  }

  /** The first loop of `_generate_scope_suggestions`. */
  method AddPathScopes(scopes: seq<string>, staged: seq<string>) returns (r: seq<string>)
    requires StrictlySorted(scopes)
    ensures StrictlySorted(r) && Elems(r) == Elems(scopes) + PathScopes(staged)
  {
    r := scopes;
    for i := 0 to |staged|
      invariant StrictlySorted(r)
      invariant Elems(r) == Elems(scopes) + PathScopes(staged[..i])
    {
      PathScopesSnoc(staged, i);
      r := AddPathScopesOf(r, staged[i]);
    }
    assert staged[..|staged|] == staged;
  }

  /** Adds `x` to the sorted suggestions when `c` holds. */
  method AddWhen(scopes: seq<string>, c: bool, x: string) returns (r: seq<string>)
    requires StrictlySorted(scopes)
    ensures StrictlySorted(r) && Elems(r) == Elems(scopes) + (if c then {x} else {})
  {
    r := scopes;
    if c {
      r := InsertSorted(r, x);
    }
  }

  /** The four category checks of `_generate_scope_suggestions`. */
  method AddTypeScopes(scopes: seq<string>, ft: FileTypes) returns (r: seq<string>)
    requires StrictlySorted(scopes)
    ensures StrictlySorted(r) && Elems(r) == Elems(scopes) + TypeScopes(ft)
  {
    r := AddWhen(scopes, ft.code != [], "core");
    r := AddWhen(r, ft.tests != [], "test");
    r := AddWhen(r, ft.docs != [], "docs");
    r := AddWhen(r, ft.config != [], "config");
  }

  /** What the last loop of `_generate_scope_suggestions` adds for one
      path: the scope its file name suggests, if any. */
  method AddNameScopesOf(scopes: seq<string>, p: string) returns (r: seq<string>)
    requires StrictlySorted(scopes)
    ensures StrictlySorted(r) && Elems(r) == Elems(scopes) + NameScopesOf(p)
  {
    var s := NameScope(Lower(PathName(p)));
    r := AddWhen(scopes, s.Some?, if s.Some? then s.value else "");
  }

  /** The last loop of `_generate_scope_suggestions`. */
  method AddNameScopes(scopes: seq<string>, staged: seq<string>) returns (r: seq<string>)
    requires StrictlySorted(scopes)
    ensures StrictlySorted(r) && Elems(r) == Elems(scopes) + NameScopes(staged)
  {
    r := scopes;
    for i := 0 to |staged|
      invariant StrictlySorted(r)
      invariant Elems(r) == Elems(scopes) + NameScopes(staged[..i])
    {
      NameScopesSnoc(staged, i);
      r := AddNameScopesOf(r, staged[i]);
    }
    assert staged[..|staged|] == staged;
  }

  /** `_generate_scope_suggestions`: the suggestions, sorted and without
      duplicates. */
  method ScopeSuggestions(staged: seq<string>, branchScope: Option<string>, ft: FileTypes)
    returns (scopes: seq<string>)
    ensures StrictlySorted(scopes)
    ensures Elems(scopes) == Suggestions(staged, branchScope, ft)
    ensures branchScope.Some? && branchScope.value != "" ==> branchScope.value in scopes
    ensures ft.code != [] ==> "core" in scopes
    ensures ft.tests != [] ==> "test" in scopes
    ensures ft.docs != [] ==> "docs" in scopes
    ensures ft.config != [] ==> "config" in scopes
  {
    scopes := [];
    if branchScope.Some? && branchScope.value != "" {
      scopes := InsertSorted(scopes, branchScope.value);
    }
    scopes := AddPathScopes(scopes, staged);
    scopes := AddTypeScopes(scopes, ft);
    scopes := AddNameScopes(scopes, staged);
    assert forall x :: x in Elems(scopes) ==> x in scopes;
  }

  // ---------------------------------------------------------------------
  // Change context
  // ---------------------------------------------------------------------

  /** `any(k in text for k in keywords)`. */
  function AnyKeyword(text: string, keywords: seq<string>): (r: bool)
    ensures r <==> exists i :: 0 <= i < |keywords| && Contains(text, keywords[i])
    decreases |keywords|
  {
    if keywords == [] then false
    else
      var rest := AnyKeyword(text, keywords[1..]);
      assert rest ==> exists i :: 0 <= i < |keywords| && Contains(text, keywords[i]) by {
        if rest {
          var j :| 0 <= j < |keywords| - 1 && Contains(text, keywords[1..][j]);
          assert keywords[1..][j] == keywords[j + 1];
        }
      }
      Contains(text, keywords[0]) || rest
  }

  const RefactorKeywords := ["refactor", "cleanup", "restructure", "reorganize", "simplify", "extract"]
  const BugKeywords := ["fix", "bug", "issue", "error", "exception", "crash", "fail", "broken", "wrong"]
  const FeatureKeywords := ["add", "new", "implement", "create", "introduce", "feature", "functionality"]
  const PerformanceKeywords := ["performance", "optimize", "speed", "fast", "efficient", "cache", "memory"]
  const StyleKeywords := ["style", "format", "indent", "whitespace", "lint", "prettier", "beautify"]

  function Abs(x: int): nat { if x < 0 then -x else x }

  /** `_is_code_refactor`, with the float test `abs(i - d) < d * 0.5`. */
  predicate IsCodeRefactor(st: Stats, diff: string) {
    AnyKeyword(Lower(diff), RefactorKeywords)
    || (st.deletions > 20 && (Abs(st.insertions - st.deletions) as real) < (st.deletions as real) * 0.5)
  }

  predicate IsBugFix(diff: string) { AnyKeyword(Lower(diff), BugKeywords) }

  /** `_is_feature_addition`. */
  predicate IsFeatureAddition(st: Stats, diff: string) {
    AnyKeyword(Lower(diff), FeatureKeywords) || (st.insertions > st.deletions * 2 && st.insertions > 30)
  }

  predicate IsPerformanceImprovement(diff: string) { AnyKeyword(Lower(diff), PerformanceKeywords) }

  predicate IsStyleChange(diff: string) { AnyKeyword(Lower(diff), StyleKeywords) }

  /** The refactor test in integers: a keyword, or more than 20 deletions
      with insertions and deletions differing by less than half of the
      deletions. */
  lemma CodeRefactorInIntegers(st: Stats, diff: string)
    ensures IsCodeRefactor(st, diff) <==>
              AnyKeyword(Lower(diff), RefactorKeywords)
              || (st.deletions > 20 && 2 * Abs(st.insertions - st.deletions) < st.deletions)
  {
    var a := Abs(st.insertions - st.deletions) as real;
    var d := st.deletions as real;
    assert a < d * 0.5 <==> 2.0 * a < d;
  }

  /** `_analyze_change_context`. */
  method AnalyzeChangeContext(staged: seq<string>, st: Stats, ft: FileTypes, diff: string, findall: Matcher)
    returns (ctx: ChangeContext)
    ensures ctx.isDocumentationUpdate == (ft.docs != []) && ctx.isTestUpdate == (ft.tests != [])
    ensures ctx.isConfigUpdate == (ft.config != [])
    ensures ctx.isCodeRefactor == IsCodeRefactor(st, diff) && ctx.isBugFix == IsBugFix(diff)
    ensures ctx.isFeatureAddition == IsFeatureAddition(st, diff)
    ensures ctx.isPerformanceImprovement == IsPerformanceImprovement(diff)
    ensures ctx.isStyleChange == IsStyleChange(diff)
    ensures ctx.hasVersionBump <==> Extracted(Versions, findall, diff) != []
    ensures ctx.hasColorChanges <==> Extracted(Colors, findall, diff) != []
    ensures ctx.hasFunctionChanges <==> Extracted(Functions, findall, diff) != []
    ensures ctx.fileCount == |staged| && ctx.insertions == st.insertions && ctx.deletions == st.deletions
    ensures diff == "" ==> !ctx.hasVersionBump && !ctx.hasColorChanges && !ctx.hasFunctionChanges
  {
    var versions := Extract(Versions, findall, diff);
    var colors := Extract(Colors, findall, diff);
    var functions := Extract(Functions, findall, diff);
    ctx := ChangeContext(
      ft.docs != [], ft.tests != [], ft.config != [],
      IsCodeRefactor(st, diff), IsBugFix(diff), IsFeatureAddition(st, diff),
      IsPerformanceImprovement(diff), IsStyleChange(diff),
      versions != [], colors != [], functions != [],
      |staged|, st.insertions, st.deletions);
  }

  // ---------------------------------------------------------------------
  // Impact level
  // ---------------------------------------------------------------------

  /** `_determine_impact_level`. */
  function ImpactLevel(st: Stats, fileCount: nat, ft: FileTypes): (r: Impact)
    ensures r == High <==> st.insertions + st.deletions > 500 || fileCount > 10 || (ft.config != [] && fileCount > 3)
    ensures r == Low ==> st.insertions + st.deletions <= 100 && fileCount <= 3
    ensures r == Medium ==> fileCount <= 10 && st.insertions + st.deletions <= 500
  {
    if st.insertions + st.deletions > 500 then High
    else if fileCount > 10 then High
    else if ft.config != [] && fileCount > 3 then High
    else if st.insertions + st.deletions > 100 then Medium
    else if fileCount > 3 then Medium
    else if ft.code != [] && st.insertions > 50 then Medium
    else Low
  }

  /** More churn never lowers the impact (with the file list fixed). */
  lemma ImpactMonotone(st: Stats, st2: Stats, fileCount: nat, ft: FileTypes)
    requires st.insertions <= st2.insertions && st.deletions <= st2.deletions
    ensures ImpactLevel(st, fileCount, ft) == High ==> ImpactLevel(st2, fileCount, ft) == High
    ensures ImpactLevel(st, fileCount, ft) == Medium ==> ImpactLevel(st2, fileCount, ft) != Low
  {
  }

  // ---------------------------------------------------------------------
  // Unstaged files (`_get_unstaged_files`)
  // ---------------------------------------------------------------------

  /** The loop of `_get_unstaged_files` over already split lines: a
      non-empty line whose second character is M, D or R contributes
      `line[3:]`; a one-character line raises IndexError (None). */
  function UnstagedOfLines(lines: seq<string>): Option<seq<string>>
    decreases |lines|
  {
    if lines == [] then Some([])
    else
      match UnstagedOfLines(lines[..|lines| - 1])
      case None => None
      case Some(init) =>
        var line := lines[|lines| - 1];
        if line == "" then Some(init)
        else if |line| < 2 then None
        else if line[1] in "MDR" then Some(init + [if |line| >= 3 then line[3..] else ""])
        else Some(init)
  }

  /** As written: the whole output is stripped before it is split, which
      removes the leading blank status column of the first entry. */
  function UnstagedFilesAsWritten(stdout: string): Option<seq<string>> {
    UnstagedOfLines(Split(Strip(stdout), '\n'))
  }

  /** The first entry " M a.py" loses its blank index column, so its
      work-tree status is read from the wrong column and the file is missed. */
  lemma UnstagedAsWrittenMissesFirstEntry()
    ensures UnstagedFilesAsWritten(" M a.py\n") == Some([])
  {
    StripOfFirstEntry();
    FirstEntryLine();
    UnstagedOfOneLine("M a.py");
  }

  lemma FirstEntryLine()
    ensures Split("M a.py", '\n') == ["M a.py"] && "M a.py"[1] !in "MDR"
  {
    var line := "M a.py";
    assert forall i :: 0 <= i < |line| ==> line[i] != '\n';
    SplitWithout(line, '\n');
  }

  lemma UnstagedOfOneLine(line: string)
    requires |line| >= 2
    ensures UnstagedOfLines([line]) == if line[1] in "MDR" then Some([if |line| >= 3 then line[3..] else ""]) else Some([])
  {
    assert [line][..0] == [];
    var p: string := if |line| >= 3 then line[3..] else "";
    assert [] + [p] == [p];
  }

  lemma StripOfFirstEntry()
    ensures Strip(" M a.py\n") == "M a.py"
  {
    assert " M a.py\n" == " " + "M a.py" + "\n";
    StripFramed("M a.py");
  }

  /** The path an unstripped porcelain line contributes: work-tree status
      M, D or R. */
  function UnstagedPath(line: string): Option<string> {
    if |line| >= 2 && line[1] in "MDR" then Some(if |line| >= 3 then line[3..] else "") else None
  }

  function UnstagedPathsOf(lines: seq<string>): seq<string>
    decreases |lines|
  {
    if lines == [] then []
    else
      var init := UnstagedPathsOf(lines[..|lines| - 1]);
      match UnstagedPath(lines[|lines| - 1])
      case Some(p) => init + [p]
      case None => init
  }

  /** Corrected: the output is split without stripping it first. */
  function UnstagedFiles(stdout: string): seq<string> {
    UnstagedPathsOf(Split(stdout, '\n'))
  }

  function UnstagedEntryPaths(es: seq<StatusEntry>): seq<string>
    decreases |es|
  {
    if es == [] then []
    else
      var e := es[|es| - 1];
      UnstagedEntryPaths(es[..|es| - 1]) + (if e.worktree in "MDR" then [e.path] else [])
  }

  lemma {:induction false} UnstagedPathsOfPorcelain(es: seq<StatusEntry>)
    ensures UnstagedPathsOf(PorcelainLines(es)) == UnstagedEntryPaths(es)
    decreases |es|
  {
    if es != [] {
      var init := es[..|es| - 1];
      UnstagedPathsOfPorcelain(init);
      assert PorcelainLines(es)[..|es| - 1] == PorcelainLines(init);
      assert PorcelainLine(es[|es| - 1])[3..] == es[|es| - 1].path;
    }
  }

  /** Round trip of the corrected parser: what git prints for some entries
      (each line ended by a newline) yields the paths of exactly the entries
      with a work-tree change, in order. */
  lemma ParseUnstagedOfPorcelain(es: seq<StatusEntry>)
    requires forall e :: e in es ==> PrintableEntry(e)
    ensures UnstagedFiles(Join(PorcelainLines(es) + [""], "\n")) == UnstagedEntryPaths(es)
  {
    var lines := PorcelainLines(es) + [""];
    PorcelainLinesOneLine(es);
    SplitJoin(lines, '\n');
    assert lines[..|lines| - 1] == PorcelainLines(es);
    UnstagedPathsOfPorcelain(es);
  }

  /** The corrected parser finds the entry the stripped one misses. */
  lemma UnstagedFindsFirstEntry()
    ensures UnstagedFiles(" M a.py\n") == ["a.py"]
  {
    var e := StatusEntry(' ', 'M', "a.py");
    FirstEntryPrinted(e);
    assert PrintableEntry(e);
    ParseUnstagedOfPorcelain([e]);
  }

  lemma FirstEntryPrinted(e: StatusEntry)
    requires e == StatusEntry(' ', 'M', "a.py")
    ensures Join(PorcelainLines([e]) + [""], "\n") == " M a.py\n"
    ensures UnstagedEntryPaths([e]) == ["a.py"]
  {
    assert [e][..0] == [];
    assert PorcelainLine(e) == " M a.py";
    assert PorcelainLines([e]) == [" M a.py"];
    assert Join([" M a.py", ""], "\n") == " M a.py\n";
  }
}
