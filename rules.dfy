/** `EnhancedRuleEngine` of `lazygit_ai/core/rules.py`: seven generators
    propose weighted `CommitPattern` candidates from a `GitAnalysis`, the best
    one is selected, its scope resolved and its description enhanced, and the
    message is rendered in the conventional-commit form. Confidences are
    integer tenths (0.9 is 9). */
module Rules {
  import opened Text
  import opened GitOutput
  import opened Analyzer
  import opened Config
  import opened Messages

  /** `CommitPattern`. */
  datatype CommitPattern = CommitPattern(commitType: string, scope: Option<string>, description: string, confidence: nat)

  /** The settings `__init__` reads from the configuration; they do not
      change afterwards. */
  datatype EngineConfig = EngineConfig(
    conventional: bool, maxLength: int, scopeStyle: string, includeScope: bool,
    enableTodos: bool, enableFixes: bool, enableBugs: bool)

  /** The engine's view of `get_commit_config()` and `get_rules_config()`:
      flags are read by truthiness, a non-string scope style matches no
      style, and a `max_length` that is not an integer is not modelled. */
  function EngineSettings(commit: CommitSettings, rules: RulesSettings): (r: Option<EngineConfig>)
    ensures r.Some? <==> commit.maxLength.Int?
    ensures r.Some? ==> (r.value.maxLength == commit.maxLength.i
      && r.value.conventional == Truthy(commit.conventional) && r.value.includeScope == Truthy(commit.includeScope)
      && (commit.scopeStyle.Str? ==> r.value.scopeStyle == commit.scopeStyle.s)
      && (!commit.scopeStyle.Str? ==> r.value.scopeStyle !in ScopeStyles))
  {
    if commit.maxLength.Int? then
      Some(EngineConfig(
        Truthy(commit.conventional), commit.maxLength.i,
        if commit.scopeStyle.Str? then commit.scopeStyle.s else "",
        Truthy(commit.includeScope),
        Truthy(rules.enableTodos), Truthy(rules.enableFixes), Truthy(rules.enableBugs)))
    else None
  }

  /** The engine built over the default settings: conventional, 72
      characters, lower-case scopes, every comment kind enabled. */
  lemma DefaultEngine(m: ConfigManager)
    requires m.config == DefaultConfig()
    ensures EngineSettings(m.CommitConfig(), m.RulesConfig())
      == Some(EngineConfig(true, 72, "lowercase", true, true, true, true))
  {
    var commit := DefaultConfig()["commit"].entries;
    var rules := DefaultConfig()["rules"].entries;
    assert m.GetPath(["commit", "conventional"], Bool(true)) == commit["conventional"];
    assert m.GetPath(["commit", "max_length"], Int(72)) == commit["max_length"];
    assert m.GetPath(["commit", "scope_style"], Str("lowercase")) == commit["scope_style"];
    assert m.GetPath(["commit", "include_scope"], Bool(true)) == commit["include_scope"];
    assert m.GetPath(["rules", "enable_todos"], Bool(true)) == rules["enable_todos"];
    assert m.GetPath(["rules", "enable_fixes"], Bool(true)) == rules["enable_fixes"];
    assert m.GetPath(["rules", "enable_bugs"], Bool(true)) == rules["enable_bugs"];
  }

  /** A well-formed candidate: a conventional type and a confidence between
      0.5 and 0.9. */
  predicate WellFormed(p: CommitPattern) {
    p.commitType in CommitTypes && 5 <= p.confidence <= 9
  }

  predicate AllWellFormed(ps: seq<CommitPattern>) {
    forall k :: 0 <= k < |ps| ==> WellFormed(ps[k])
  }

  // ---------------------------------------------------------------------
  // 1. The branch
  // ---------------------------------------------------------------------

  /** `_analyze_branch_pattern`: with a branch type, one candidate of the
      normalised type, the branch scope as it is, and `implement <scope>`
      with dashes and underscores as blanks (or `implement feature`). */
  function BranchCandidate(a: GitAnalysis): (r: Option<CommitPattern>)
    ensures r.Some? <==> HasScope(a.branchType)
    ensures r.Some? ==> (WellFormed(r.value) && r.value.confidence == 9 && r.value.scope == a.branchScope
      && StartsWithVerb(r.value.description)
      && r.value.commitType == NormalizeCommitType(a.branchType.value))
    ensures r.Some? && HasScope(a.branchScope) ==>
      var d := r.value.description; var s := a.branchScope.value;
      |d| == 10 + |s| && d[..10] == "implement " && '-' !in d && '_' !in d[10..]
      && forall k :: 0 <= k < |s| ==> d[10 + k] == (if s[k] == '-' || s[k] == '_' then ' ' else s[k])
    ensures r.Some? && !HasScope(a.branchScope) ==> r.value.description == "implement feature"
  {
    if HasScope(a.branchType) then
      Some(CommitPattern(NormalizeCommitType(a.branchType.value), a.branchScope, ImplementPhrase(a.branchScope), 9))
    else None
  }

  /** The branch candidate's description: `implement <scope>` with dashes and
      underscores as blanks, or `implement feature`. */
  function ImplementPhrase(scope: Option<string>): (d: string)
    ensures StartsWithVerb(d)
    ensures HasScope(scope) ==>
      var s := scope.value;
      |d| == 10 + |s| && d[..10] == "implement " && '-' !in d && '_' !in d[10..]
      && forall k :: 0 <= k < |s| ==> d[10 + k] == (if s[k] == '-' || s[k] == '_' then ' ' else s[k])
    ensures !HasScope(scope) ==> d == "implement feature"
  {
    if HasScope(scope) then ImplementScope(scope.value)
    else
      VerbPrefixStartsWithVerb("implement feature", 7);
      "implement feature"
  }

  function ImplementScope(s: string): (d: string)
    ensures StartsWithVerb(d)
    ensures |d| == 10 + |s| && d[..10] == "implement " && '-' !in d && '_' !in d[10..]
    ensures forall k :: 0 <= k < |s| ==> d[10 + k] == (if s[k] == '-' || s[k] == '_' then ' ' else s[k])
  {
    var t := ReplaceChar(ReplaceChar(s, '-', ' '), '_', ' ');
    var d := "implement " + t;
    assert d[..9] == "implement";
    VerbPrefixStartsWithVerb(d, 7);
    assert d[10..] == t;
    d
  }

  // ---------------------------------------------------------------------
  // 2. TODO, FIX and BUG comments
  // ---------------------------------------------------------------------

  /** One candidate per comment, in order, its text passed through `clean`
      (which is `_clean_comment_text`). */
  function Marked(items: seq<string>, clean: string -> string, commitType: string, confidence: nat): (r: seq<CommitPattern>)
    ensures |r| == |items|
    decreases |items|
  {
    if items == [] then []
    else (Marked(items[..|items| - 1], clean, commitType, confidence)
      + [CommitPattern(commitType, None, clean(items[|items| - 1]), confidence)])
  }

  lemma {:induction false} MarkedAt(items: seq<string>, clean: string -> string, commitType: string, confidence: nat, k: nat)
    requires k < |items|
    ensures Marked(items, clean, commitType, confidence)[k] == CommitPattern(commitType, None, clean(items[k]), confidence)
    decreases |items|
  {
    var n := |items| - 1;
    if k < n {
      MarkedAt(items[..n], clean, commitType, confidence, k);
      assert items[..n][k] == items[k];
    }
  }

  /** One more comment appended to the candidates of the ones before it. */
  lemma MarkedSnoc(ps: seq<CommitPattern>, items: seq<string>, clean: string -> string, commitType: string, confidence: nat, i: nat)
    requires i < |items|
    ensures ps + Marked(items[..i + 1], clean, commitType, confidence)
      == (ps + Marked(items[..i], clean, commitType, confidence)) + [CommitPattern(commitType, None, clean(items[i]), confidence)]
  {
    PrefixOfPrefix(items, i);
    AppendAssoc(ps, Marked(items[..i], clean, commitType, confidence), [CommitPattern(commitType, None, clean(items[i]), confidence)]);
  }

  lemma PrefixOfPrefix<T>(s: seq<T>, i: nat)
    requires i < |s|
    ensures s[..i + 1][..i] == s[..i]
  {
  }

  lemma AppendAssoc<T>(a: seq<T>, b: seq<T>, c: seq<T>)
    ensures (a + b) + c == a + (b + c)
  {
  }

  /** The candidates of one comment kind: the first two comments, when
      there are any and the kind is enabled. */
  function CommentKind(items: seq<string>, enabled: bool, commitType: string, confidence: nat): (r: seq<CommitPattern>)
    ensures |r| <= 2
  {
    if items != [] && enabled then Marked(Take(2, items), CleanCommentText, commitType, confidence) else []
  }

  /** What `_analyze_comment_patterns` emits: the first two TODOs as `feat`
      at 0.8, then the first two FIXes and the first two BUGs as `fix` at
      0.9, each kind only when enabled. */
  function CommentPatterns(a: GitAnalysis, cfg: EngineConfig): seq<CommitPattern> {
    CommentKind(a.todos, cfg.enableTodos, "feat", 8)
    + CommentKind(a.fixes, cfg.enableFixes, "fix", 9)
    + CommentKind(a.bugs, cfg.enableBugs, "fix", 9)
  }

  /** The loop over the first two comments of one kind. */
  method AppendComments(ps: seq<CommitPattern>, items: seq<string>, enabled: bool, commitType: string, confidence: nat)
    returns (r: seq<CommitPattern>)
    ensures r == ps + CommentKind(items, enabled, commitType, confidence)
  {
    r := ps;
    if items != [] && enabled {
      var first := Take(2, items);
      for i := 0 to |first|
        invariant r == ps + Marked(first[..i], CleanCommentText, commitType, confidence)
      {
        MarkedSnoc(ps, first, CleanCommentText, commitType, confidence, i);
        r := r + [CommitPattern(commitType, None, CleanCommentText(first[i]), confidence)];
      }
      assert first[..|first|] == first;
    } else {
      assert ps + [] == ps;
    }
  }

  /** `_analyze_comment_patterns`. */
  method CommentCandidates(a: GitAnalysis, cfg: EngineConfig) returns (ps: seq<CommitPattern>)
    ensures ps == CommentPatterns(a, cfg)
  {
    ps := AppendComments([], a.todos, cfg.enableTodos, "feat", 8);
    assert [] + CommentKind(a.todos, cfg.enableTodos, "feat", 8) == CommentKind(a.todos, cfg.enableTodos, "feat", 8);
    ps := AppendComments(ps, a.fixes, cfg.enableFixes, "fix", 9);
    ps := AppendComments(ps, a.bugs, cfg.enableBugs, "fix", 9);
  }

  /** A comment candidate of the given type and confidence: no scope, a
      trimmed and single-spaced description. */
  predicate CommentShaped(p: CommitPattern, commitType: string, confidence: nat) {
    p.commitType == commitType && p.confidence == confidence && p.scope.None? && Collapsed(p.description) &&
    (p.description == [] || (!IsSpace(p.description[0]) && !IsSpace(p.description[|p.description| - 1])))
  }

  predicate AllShaped(ps: seq<CommitPattern>, commitType: string, confidence: nat) {
    forall k :: 0 <= k < |ps| ==> CommentShaped(ps[k], commitType, confidence)
  }

  /** Every candidate of one comment kind has that kind's type and
      confidence, no scope and a cleaned description. */
  lemma KindShaped(items: seq<string>, enabled: bool, commitType: string, confidence: nat)
    ensures AllShaped(CommentKind(items, enabled, commitType, confidence), commitType, confidence)
  {
    if items != [] && enabled {
      var first := Take(2, items);
      forall k | 0 <= k < |first|
        ensures CommentShaped(Marked(first, CleanCommentText, commitType, confidence)[k], commitType, confidence)
      {
        MarkedAt(first, CleanCommentText, commitType, confidence, k);
      }
    }
  }

  lemma ShapedConcat(a: seq<CommitPattern>, b: seq<CommitPattern>, commitType: string, confidence: nat)
    requires AllShaped(a, commitType, confidence) && AllShaped(b, commitType, confidence)
    ensures AllShaped(a + b, commitType, confidence)
  {
    forall k | 0 <= k < |a + b|
      ensures CommentShaped((a + b)[k], commitType, confidence)
    {
      if k < |a| {
        assert (a + b)[k] == a[k];
      } else {
        assert (a + b)[k] == b[k - |a|];
      }
    }
  }

  /** At most six comment candidates: the TODOs first as `feat` at 0.8,
      then the FIXes and BUGs as `fix` at 0.9, none with a scope, each with
      a cleaned (trimmed, single-spaced) description. */
  lemma CommentPatternsShape(a: GitAnalysis, cfg: EngineConfig)
    ensures var todos := CommentKind(a.todos, cfg.enableTodos, "feat", 8);
      var rest := CommentKind(a.fixes, cfg.enableFixes, "fix", 9) + CommentKind(a.bugs, cfg.enableBugs, "fix", 9);
      CommentPatterns(a, cfg) == todos + rest && |todos| <= 2 && |rest| <= 4
      && AllShaped(todos, "feat", 8) && AllShaped(rest, "fix", 9)
  {
    var todos := CommentKind(a.todos, cfg.enableTodos, "feat", 8);
    var fixes := CommentKind(a.fixes, cfg.enableFixes, "fix", 9);
    var bugs := CommentKind(a.bugs, cfg.enableBugs, "fix", 9);
    KindShaped(a.todos, cfg.enableTodos, "feat", 8);
    KindShaped(a.fixes, cfg.enableFixes, "fix", 9);
    KindShaped(a.bugs, cfg.enableBugs, "fix", 9);
    ShapedConcat(fixes, bugs, "fix", 9);
    AppendAssoc(todos, fixes, bugs);
  }

  /** Comment candidates are well formed. */
  lemma ShapedWellFormed(ps: seq<CommitPattern>, commitType: string, confidence: nat)
    requires commitType in CommitTypes && 5 <= confidence <= 9
    requires AllShaped(ps, commitType, confidence)
    ensures AllWellFormed(ps)
  {
  }

  // ---------------------------------------------------------------------
  // 3. and 4. File-name and diff rules
  // ---------------------------------------------------------------------

  /** An entry of `file_type_patterns` or `diff_patterns`: its name, its
      patterns, and the type and confidence of the candidate it proposes. */
  datatype Rule = Rule(name: string, patterns: seq<string>, commitType: string, confidence: nat)

  /** `file_type_patterns`, in dictionary order. A `*` in a pattern only
      matters for the file-name test, where it is removed. */
  const FileRules: seq<Rule> := [
    Rule("docs", ["readme", "docs", "documentation", "*.md", "*.rst", "*.txt"], "docs", 9),
    Rule("tests", ["test", "spec", "*.test.", "*.spec.", "test_", "spec_"], "test", 9),
    Rule("config", ["config", "settings", "env", "*.conf", "*.cfg", "*.ini", "*.toml", "*.yaml", "*.yml"], "chore", 8),
    Rule("style", ["style", "css", "scss", "less", "*.css", "*.scss", "*.less"], "style", 8),
    Rule("deps", ["requirements", "package.json", "pyproject.toml", "Cargo.toml", "go.mod"], "chore", 7)]

  /** `diff_patterns`, in dictionary order; each word `w` stands for the
      pattern `w\s+`. */
  const DiffRules: seq<Rule> := [
    Rule("fix", ["fix", "bug", "issue", "error", "exception", "crash", "fail", "broken", "wrong", "incorrect"], "fix", 8),
    Rule("feat", ["add", "new", "implement", "create", "introduce", "feature", "functionality", "capability"], "feat", 7),
    Rule("refactor", ["refactor", "cleanup", "restructure", "reorganize", "simplify", "extract", "consolidate"], "refactor", 7),
    Rule("perf", ["performance", "optimize", "speed", "fast", "efficient", "cache", "memory"], "perf", 8),
    Rule("style", ["style", "format", "indent", "whitespace", "lint", "prettier", "beautify"], "style", 8)]

  /** Some pattern of the list hits. */
  predicate AnyHit(patterns: seq<string>, hit: string -> bool) {
    exists j :: 0 <= j < |patterns| && hit(patterns[j])
  }

  /** The candidates of the rules that hit, one per rule, in rule order. */
  function Hits(rules: seq<Rule>, hit: string -> bool, make: Rule -> CommitPattern): (r: seq<CommitPattern>)
    ensures |r| <= |rules|
    decreases |rules|
  {
    if rules == [] then []
    else (Hits(rules[..|rules| - 1], hit, make)
      + (if AnyHit(rules[|rules| - 1].patterns, hit) then [make(rules[|rules| - 1])] else []))
  }

  /** A candidate is proposed for every rule that hits, and only for those. */
  lemma {:induction false} HitsMembers(rules: seq<Rule>, hit: string -> bool, make: Rule -> CommitPattern)
    ensures forall k :: 0 <= k < |rules| && AnyHit(rules[k].patterns, hit) ==> make(rules[k]) in Hits(rules, hit, make)
    ensures forall x :: x in Hits(rules, hit, make) ==>
      exists k :: 0 <= k < |rules| && AnyHit(rules[k].patterns, hit) && x == make(rules[k])
    decreases |rules|
  {
    if rules != [] {
      var init := rules[..|rules| - 1];
      HitsMembers(init, hit, make);
      forall k | 0 <= k < |init|
        ensures init[k] == rules[k]
      {
      }
    }
  }

  /** When the first rule hits, its candidate comes first. */
  lemma {:induction false} HitsFirst(rules: seq<Rule>, hit: string -> bool, make: Rule -> CommitPattern)
    requires rules != [] && AnyHit(rules[0].patterns, hit)
    ensures Hits(rules, hit, make) != [] && Hits(rules, hit, make)[0] == make(rules[0])
    decreases |rules|
  {
    if |rules| > 1 {
      var init := rules[..|rules| - 1];
      assert init[0] == rules[0];
      HitsFirst(init, hit, make);
    }
  }

  /** One more rule examined by the outer loop. */
  lemma HitsSnoc(ps: seq<CommitPattern>, rules: seq<Rule>, hit: string -> bool, make: Rule -> CommitPattern, k: nat)
    requires k < |rules|
    ensures AnyHit(rules[k].patterns, hit) ==>
      ps + Hits(rules[..k + 1], hit, make) == (ps + Hits(rules[..k], hit, make)) + [make(rules[k])]
    ensures !AnyHit(rules[k].patterns, hit) ==>
      ps + Hits(rules[..k + 1], hit, make) == ps + Hits(rules[..k], hit, make)
  {
    PrefixOfPrefix(rules, k);
    var h := Hits(rules[..k], hit, make);
    if AnyHit(rules[k].patterns, hit) {
      AppendAssoc(ps, h, [make(rules[k])]);
    } else {
      assert h + [] == h;
    }
  }

  /** The inner `for pattern in ...: if ...: break` loop: does some
      pattern hit? */
  method FirstHit(patterns: seq<string>, hit: string -> bool) returns (found: bool)
    ensures found <==> AnyHit(patterns, hit)
  {
    found := false;
    for j := 0 to |patterns|
      invariant !found
      invariant forall i :: 0 <= i < j ==> !hit(patterns[i])
    {
      if hit(patterns[j]) {
        found := true;
        break;
      }
    }
  }

  /** The outer loop over the rules, appending to `ps`. */
  method CollectHits(ps: seq<CommitPattern>, rules: seq<Rule>, hit: string -> bool, make: Rule -> CommitPattern)
    returns (r: seq<CommitPattern>)
    ensures r == ps + Hits(rules, hit, make)
  {
    r := ps;
    for k := 0 to |rules|
      invariant r == ps + Hits(rules[..k], hit, make)
    {
      var found := FirstHit(rules[k].patterns, hit);
      HitsSnoc(ps, rules, hit, make, k);
      if found {
        r := r + [make(rules[k])];
      }
    }
    assert rules[..|rules|] == rules;
  }

  /** A file pattern hits when it occurs in the lower-cased path, or when
      the file name ends with the pattern without its `*`. */
  predicate PatternMatches(path: string, pattern: string) {
    Contains(Lower(path), pattern) || EndsWith(PathName(path), RemoveChar(pattern, '*'))
  }

  function FileHit(path: string): string -> bool {
    (pattern: string) => PatternMatches(path, pattern)
  }

  /** The candidate of a file rule: the rule's type and confidence, the
      path's directory as scope, a description naming the file. */
  function FileMake(path: string): Rule -> CommitPattern {
    (rule: Rule) => CommitPattern(rule.commitType, ExtractScopeFromPath(path),
      GenerateFileDescription(rule.name, PathName(path)), rule.confidence)
  }

  /** The candidates of one staged file: one per matching rule. */
  function FileCandidatesOf(path: string): seq<CommitPattern> {
    Hits(FileRules, FileHit(path), FileMake(path))
  }

  /** What `_analyze_file_patterns` emits, file after file. */
  function FilePatterns(files: seq<string>): (r: seq<CommitPattern>)
    ensures |r| <= 5 * |files|
    decreases |files|
  {
    if files == [] then []
    else FilePatterns(files[..|files| - 1]) + FileCandidatesOf(files[|files| - 1])
  }

  lemma FilePatternsSnoc(files: seq<string>, i: nat)
    requires i < |files|
    ensures FilePatterns(files[..i + 1]) == FilePatterns(files[..i]) + FileCandidatesOf(files[i])
  {
    PrefixOfPrefix(files, i);
  }

  /** `_analyze_file_patterns`. */
  method FileCandidates(a: GitAnalysis) returns (ps: seq<CommitPattern>)
    ensures ps == FilePatterns(a.stagedFiles)
  {
    var files := a.stagedFiles;
    ps := [];
    for i := 0 to |files|
      invariant ps == FilePatterns(files[..i])
    {
      FilePatternsSnoc(files, i);
      ps := CollectHits(ps, FileRules, FileHit(files[i]), FileMake(files[i]));
    }
    assert files[..|files|] == files;
  }

  /** A rule proposes well-formed candidates of confidence at least `low`. */
  predicate RuleOk(rule: Rule, low: nat) {
    rule.commitType in CommitTypes && low <= rule.confidence <= 9
  }

  lemma RulesOk()
    ensures forall k :: 0 <= k < |FileRules| ==> RuleOk(FileRules[k], 7)
    ensures forall k :: 0 <= k < |DiffRules| ==> RuleOk(DiffRules[k], 7)
  {
  }

  /** Every candidate of a file comes from a rule that matches it: the
      rule's type and confidence, the file's directory as scope, and a
      description that starts with a verb; conversely every matching rule
      proposes one. */
  lemma FileCandidatesSound(path: string)
    ensures forall k :: 0 <= k < |FileRules| && AnyHit(FileRules[k].patterns, FileHit(path)) ==>
      FileMake(path)(FileRules[k]) in FileCandidatesOf(path)
    ensures forall p :: p in FileCandidatesOf(path) ==>
      WellFormed(p) && 7 <= p.confidence && p.scope == ExtractScopeFromPath(path) && StartsWithVerb(p.description)
  {
    HitsMembers(FileRules, FileHit(path), FileMake(path));
    RulesOk();
    forall p | p in FileCandidatesOf(path)
      ensures WellFormed(p) && 7 <= p.confidence && p.scope == ExtractScopeFromPath(path) && StartsWithVerb(p.description)
    {
      var k :| 0 <= k < |FileRules| && AnyHit(FileRules[k].patterns, FileHit(path)) && p == FileMake(path)(FileRules[k]);
      assert RuleOk(FileRules[k], 7);
    }
  }

  /** A Markdown file is documentation: its first candidate is `docs` at
      0.9. */
  lemma MarkdownIsDocs(path: string)
    requires EndsWith(PathName(path), ".md")
    ensures FileCandidatesOf(path) != []
    ensures FileCandidatesOf(path)[0].commitType == "docs" && FileCandidatesOf(path)[0].confidence == 9
  {
    MarkdownPatternHits(path, FileRules[0].patterns);
    HitsFirst(FileRules, FileHit(path), FileMake(path));
  }

  lemma MarkdownPatternHits(path: string, pats: seq<string>)
    requires EndsWith(PathName(path), ".md")
    requires pats == FileRules[0].patterns
    ensures AnyHit(pats, FileHit(path))
  {
    assert RemoveChar(pats[3], '*') == ".md" by {
      assert pats[3] == "*.md" && "*.md"[1..] == ".md";
      RemoveCharAbsent(".md", '*');
    }
    assert FileHit(path)(pats[3]);
  }

  function DiffHit(diff: string): string -> bool {
    (word: string) => ContainsWordThenSpace(Lower(diff), word)
  }

  /** The candidate of a diff rule: no scope, the rule's fixed phrase. */
  function DiffMake(rule: Rule): CommitPattern {
    CommitPattern(rule.commitType, None, GenerateDiffDescription(rule.name), rule.confidence)
  }

  /** What `_analyze_diff_patterns` emits. */
  function DiffPatterns(diff: string): seq<CommitPattern> {
    Hits(DiffRules, DiffHit(diff), DiffMake)
  }

  /** `_analyze_diff_patterns`. */
  method DiffCandidates(a: GitAnalysis) returns (ps: seq<CommitPattern>)
    ensures ps == DiffPatterns(a.stagedDiff)
  {
    ps := CollectHits([], DiffRules, DiffHit(a.stagedDiff), DiffMake);
    assert [] + DiffPatterns(a.stagedDiff) == DiffPatterns(a.stagedDiff);
  }

  /** Every diff candidate is well formed, has no scope and starts with a
      verb; there are at most five, one per rule. */
  lemma DiffCandidatesShape(diff: string)
    ensures |DiffPatterns(diff)| <= 5
    ensures forall p :: p in DiffPatterns(diff) ==> WellFormed(p) && p.scope.None? && StartsWithVerb(p.description)
  {
    HitsMembers(DiffRules, DiffHit(diff), DiffMake);
    RulesOk();
    forall p | p in DiffPatterns(diff)
      ensures WellFormed(p) && p.scope.None? && StartsWithVerb(p.description)
    {
      var j :| 0 <= j < |DiffRules| && AnyHit(DiffRules[j].patterns, DiffHit(diff)) && p == DiffMake(DiffRules[j]);
      assert RuleOk(DiffRules[j], 7);
    }
  }

  /** The five diff rules propose five different types. */
  lemma DiffTypesDistinct(j: nat, k: nat)
    requires j < |DiffRules| && k < |DiffRules| && j != k
    ensures DiffRules[j].commitType != DiffRules[k].commitType
  {
  }

  /** The candidate of diff rule `k` is proposed exactly when one of its
      words, followed by whitespace, occurs in the lower-cased diff. */
  lemma DiffRuleFires(diff: string, k: nat)
    requires k < |DiffRules|
    ensures DiffMake(DiffRules[k]) in DiffPatterns(diff) <==> AnyHit(DiffRules[k].patterns, DiffHit(diff))
  {
    HitsMembers(DiffRules, DiffHit(diff), DiffMake);
    if DiffMake(DiffRules[k]) in DiffPatterns(diff) {
      var j :| 0 <= j < |DiffRules| && AnyHit(DiffRules[j].patterns, DiffHit(diff)) && DiffMake(DiffRules[k]) == DiffMake(DiffRules[j]);
      if j != k {
        DiffTypesDistinct(j, k);
        assert false;
      }
    }
  }

  // ---------------------------------------------------------------------
  // 5. and 6. Function names and version numbers
  // ---------------------------------------------------------------------

  /** `function_patterns`. */
  const FunctionPatterns: seq<Regex> := [
    Regex(@"def\s+(\w+)", false),
    Regex(@"function\s+(\w+)", false),
    Regex(@"fn\s+(\w+)", false),
    Regex(@"func\s+(\w+)", false),
    Regex(@"public\s+\w+\s+(\w+)\s*\(", false)]

  /** `version_patterns`. */
  const VersionPatterns: seq<Regex> := [
    Regex(@"version\s*[=:]\s*['\""]?(\d+\.\d+\.\d+)['\""]?", false),
    Regex(@"__version__\s*=\s*['\""]?(\d+\.\d+\.\d+)['\""]?", false),
    Regex(@"""version"":\s*""(\d+\.\d+\.\d+)""", false)]

  /** The matches of the first pattern that matches at all, or none. */
  function FirstNonEmpty(findall: Matcher, diff: string, ps: seq<Regex>): seq<string>
    decreases |ps|
  {
    if ps == [] then []
    else if findall(ps[0], diff) != [] then findall(ps[0], diff)
    else FirstNonEmpty(findall, diff, ps[1..])
  }

  /** No matches means no pattern matched; otherwise they are the matches
      of a pattern all of whose predecessors matched nothing. */
  lemma {:induction false} FirstNonEmptySpec(findall: Matcher, diff: string, ps: seq<Regex>)
    ensures FirstNonEmpty(findall, diff, ps) == [] <==> forall j :: 0 <= j < |ps| ==> findall(ps[j], diff) == []
    ensures FirstNonEmpty(findall, diff, ps) != [] ==>
      exists j :: (0 <= j < |ps| && FirstNonEmpty(findall, diff, ps) == findall(ps[j], diff)
        && forall i :: 0 <= i < j ==> findall(ps[i], diff) == [])
    decreases |ps|
  {
    if ps != [] && findall(ps[0], diff) == [] {
      FirstNonEmptySpec(findall, diff, ps[1..]);
      if FirstNonEmpty(findall, diff, ps) != [] {
        var j :| 0 <= j < |ps[1..]| && FirstNonEmpty(findall, diff, ps[1..]) == findall(ps[1..][j], diff)
          && forall i :: 0 <= i < j ==> findall(ps[1..][i], diff) == [];
        assert forall i :: 0 <= i < j + 1 ==> findall(ps[i], diff) == [] by {
          forall i | 0 <= i < j + 1
            ensures findall(ps[i], diff) == []
          {
            if i > 0 {
              assert ps[i] == ps[1..][i - 1];
            }
          }
        }
      } else {
        forall j | 0 <= j < |ps|
          ensures findall(ps[j], diff) == []
        {
          if j > 0 {
            assert ps[j] == ps[1..][j - 1];
          }
        }
      }
    }
  }

  /** The loop `for pattern in ...: matches = re.findall(...); if matches:
      ... break`. */
  method FirstMatches(findall: Matcher, diff: string, ps: seq<Regex>) returns (ms: seq<string>)
    ensures ms == FirstNonEmpty(findall, diff, ps)
  {
    ms := [];
    var i := 0;
    while i < |ps|
      invariant 0 <= i <= |ps| && ms == []
      invariant FirstNonEmpty(findall, diff, ps) == FirstNonEmpty(findall, diff, ps[i..])
    {
      assert ps[i..][0] == ps[i] && ps[i..][1..] == ps[i + 1..];
      ms := findall(ps[i], diff);
      if ms != [] {
        return;
      }
      i := i + 1;
    }
    assert ps[i..] == [];
  }

  /** `matches.count(name)`. */
  method CountOf(ms: seq<string>, name: string) returns (n: nat)
    ensures n == multiset(ms)[name]
  {
    n := 0;
    for i := 0 to |ms|
      invariant n == multiset(ms[..i])[name]
    {
      assert ms[..i + 1] == ms[..i] + [ms[i]];
      if ms[i] == name {
        n := n + 1;
      }
    }
    assert ms[..|ms|] == ms;
  }

  /** `max(set(matches), key=matches.count)`: a most frequent match. Which
      one among equally frequent matches depends on the iteration order of
      the set; the model promises only that the result is one of them. */
  method MostCommon(ms: seq<string>) returns (name: string)
    requires ms != []
    ensures name in ms
    ensures forall y :: y in ms ==> multiset(ms)[y] <= multiset(ms)[name]
  {
    name := ms[0];
    var best := CountOf(ms, name);
    for i := 1 to |ms|
      invariant name in ms && best == multiset(ms)[name]
      invariant forall j :: 0 <= j < i ==> multiset(ms)[ms[j]] <= best
    {
      var n := CountOf(ms, ms[i]);
      if n > best {
        name, best := ms[i], n;
      }
    }
  }

  /** The candidate for a changed function. */
  function FunctionPattern(name: string): CommitPattern {
    CommitPattern("refactor", None, "update " + name + " function", 6)
  }

  /** The allowed outcomes of `_analyze_function_patterns`: nothing when no
      function pattern matches, otherwise one candidate naming a most
      frequent match of the first pattern that matches. */
  predicate FunctionPart(findall: Matcher, diff: string, r: seq<CommitPattern>) {
    var ms := FirstNonEmpty(findall, diff, FunctionPatterns);
    if ms == [] then r == []
    else exists name :: (name in ms && r == [FunctionPattern(name)]
      && forall y :: y in ms ==> multiset(ms)[y] <= multiset(ms)[name])
  }

  /** `_analyze_function_patterns`. */
  method FunctionCandidates(a: GitAnalysis, findall: Matcher) returns (ps: seq<CommitPattern>)
    ensures FunctionPart(findall, a.stagedDiff, ps)
  {
    var ms := FirstMatches(findall, a.stagedDiff, FunctionPatterns);
    if ms == [] {
      ps := [];
    } else {
      var name := MostCommon(ms);
      ps := [FunctionPattern(name)];
    }
  }

  /** What `_analyze_version_patterns` emits: the first match of the first
      version pattern that matches, as a `chore(version)` at 0.9. */
  function VersionPart(findall: Matcher, diff: string): seq<CommitPattern> {
    var ms := FirstNonEmpty(findall, diff, VersionPatterns);
    if ms == [] then [] else [CommitPattern("chore", Some("version"), "bump version to " + ms[0], 9)]
  }

  /** `_analyze_version_patterns`. */
  method VersionCandidates(a: GitAnalysis, findall: Matcher) returns (ps: seq<CommitPattern>)
    ensures ps == VersionPart(findall, a.stagedDiff)
  {
    var ms := FirstMatches(findall, a.stagedDiff, VersionPatterns);
    if ms == [] {
      ps := [];
    } else {
      ps := [CommitPattern("chore", Some("version"), "bump version to " + ms[0], 9)];
    }
  }

  /** The function and version candidates are well formed; the version
      candidate appears exactly when a version pattern matches, and names
      the first version found. */
  lemma FunctionAndVersionShape(findall: Matcher, diff: string, fs: seq<CommitPattern>)
    requires FunctionPart(findall, diff, fs)
    ensures |fs| <= 1 && AllWellFormed(fs)
    ensures fs != [] ==> StartsWithVerb(fs[0].description)
    ensures |VersionPart(findall, diff)| <= 1 && AllWellFormed(VersionPart(findall, diff))
    ensures VersionPart(findall, diff) == [] <==> forall j :: 0 <= j < |VersionPatterns| ==> findall(VersionPatterns[j], diff) == []
  {
    FirstNonEmptySpec(findall, diff, VersionPatterns);
    FunctionPartShape(findall, diff, fs);
    VersionPartShape(findall, diff);
  }

  lemma FunctionPartShape(findall: Matcher, diff: string, fs: seq<CommitPattern>)
    requires FunctionPart(findall, diff, fs)
    ensures |fs| <= 1 && AllWellFormed(fs)
    ensures fs != [] ==> StartsWithVerb(fs[0].description)
  {
    if fs != [] {
      var ms := FirstNonEmpty(findall, diff, FunctionPatterns);
      var name :| name in ms && fs == [FunctionPattern(name)];
      FunctionPatternShape(name);
    }
  }

  lemma FunctionPatternShape(name: string)
    ensures WellFormed(FunctionPattern(name)) && StartsWithVerb(FunctionPattern(name).description)
  {
    var d := FunctionPattern(name).description;
    assert d[..6] == "update";
    VerbPrefixStartsWithVerb(d, 1);
  }

  lemma VersionPartShape(findall: Matcher, diff: string)
    ensures |VersionPart(findall, diff)| <= 1 && AllWellFormed(VersionPart(findall, diff))
  {
  }

  // ---------------------------------------------------------------------
  // 7. Statistics
  // ---------------------------------------------------------------------

  /** `_analyze_stats_patterns`: a large addition, else a large deletion,
      else a single staged file, gives one candidate. */
  function StatsCandidates(a: GitAnalysis): (r: seq<CommitPattern>)
    ensures |r| <= 1 && AllWellFormed(r)
    ensures r == [] <==> (!(a.stats.insertions > a.stats.deletions * 3 && a.stats.insertions > 50)
      && !(a.stats.deletions > a.stats.insertions * 3 && a.stats.deletions > 50) && |a.stagedFiles| != 1)
    ensures r != [] ==> r[0].scope.None? && StartsWithVerb(r[0].description)
    ensures a.stats.insertions > a.stats.deletions * 3 && a.stats.insertions > 50
      ==> r == [CommitPattern("feat", None, "add new features", 6)]
    ensures !(a.stats.insertions > a.stats.deletions * 3 && a.stats.insertions > 50)
      && a.stats.deletions > a.stats.insertions * 3 && a.stats.deletions > 50
      ==> r == [CommitPattern("refactor", None, "remove unused code", 6)]
    ensures !(a.stats.insertions > a.stats.deletions * 3 && a.stats.insertions > 50)
      && !(a.stats.deletions > a.stats.insertions * 3 && a.stats.deletions > 50)
      && |a.stagedFiles| == 1
      ==> r == [SingleFilePattern(a.stagedFiles[0])]
  {
    var ins := a.stats.insertions;
    var del := a.stats.deletions;
    if ins > del * 3 && ins > 50 then
      VerbPrefixStartsWithVerb("add new features", 0);
      [CommitPattern("feat", None, "add new features", 6)]
    else if del > ins * 3 && del > 50 then
      VerbPrefixStartsWithVerb("remove unused code", 3);
      [CommitPattern("refactor", None, "remove unused code", 6)]
    else if |a.stagedFiles| == 1 then
      [SingleFilePattern(a.stagedFiles[0])]
    else []
  }

  /** The statistics candidate for a lone staged file: `fix`, "update <name>". */
  function SingleFilePattern(path: string): (p: CommitPattern)
    ensures WellFormed(p) && p.scope.None? && StartsWithVerb(p.description)
    ensures p.description == "update " + PathName(path)
  {
    var d := "update " + PathName(path);
    assert d[..6] == "update";
    VerbPrefixStartsWithVerb(d, 1);
    CommitPattern("fix", None, d, 5)
  }

  /** A large addition and a large deletion exclude each other. */
  lemma StatsExclusive(st: Stats)
    ensures !(st.insertions > st.deletions * 3 && st.insertions > 50 && st.deletions > st.insertions * 3)
  {
  }

  // ---------------------------------------------------------------------
  // All candidates (`_analyze_all_patterns`)
  // ---------------------------------------------------------------------

  /** The branch candidate as a list. */
  function BranchPart(a: GitAnalysis): seq<CommitPattern> {
    if BranchCandidate(a).Some? then [BranchCandidate(a).value] else []
  }

  /** The candidates of the seven generators, in their order; the function
      candidate is any of the allowed ones. */
  ghost predicate CandidatesOf(a: GitAnalysis, cfg: EngineConfig, findall: Matcher, ps: seq<CommitPattern>) {
    exists fs :: FunctionPart(findall, a.stagedDiff, fs)
      && ps == BranchPart(a) + CommentPatterns(a, cfg) + FilePatterns(a.stagedFiles) + DiffPatterns(a.stagedDiff)
        + fs + VersionPart(findall, a.stagedDiff) + StatsCandidates(a)
  }

  lemma WellFormedConcat(x: seq<CommitPattern>, y: seq<CommitPattern>)
    requires AllWellFormed(x) && AllWellFormed(y)
    ensures AllWellFormed(x + y)
  {
    forall k | 0 <= k < |x + y|
      ensures WellFormed((x + y)[k])
    {
      if k < |x| {
        assert (x + y)[k] == x[k];
      } else {
        assert (x + y)[k] == y[k - |x|];
      }
    }
  }

  lemma {:induction false} FilePatternsWellFormed(files: seq<string>)
    ensures AllWellFormed(FilePatterns(files))
    decreases |files|
  {
    if files != [] {
      var last := files[|files| - 1];
      FilePatternsWellFormed(files[..|files| - 1]);
      FileCandidatesSound(last);
      assert forall k :: 0 <= k < |FileCandidatesOf(last)| ==> FileCandidatesOf(last)[k] in FileCandidatesOf(last);
      WellFormedConcat(FilePatterns(files[..|files| - 1]), FileCandidatesOf(last));
    }
  }

  lemma CommentPatternsWellFormed(a: GitAnalysis, cfg: EngineConfig)
    ensures AllWellFormed(CommentPatterns(a, cfg))
  {
    CommentPatternsShape(a, cfg);
    var todos := CommentKind(a.todos, cfg.enableTodos, "feat", 8);
    var rest := CommentKind(a.fixes, cfg.enableFixes, "fix", 9) + CommentKind(a.bugs, cfg.enableBugs, "fix", 9);
    ShapedWellFormed(todos, "feat", 8);
    ShapedWellFormed(rest, "fix", 9);
    WellFormedConcat(todos, rest);
  }

  lemma DiffPatternsWellFormed(diff: string)
    ensures AllWellFormed(DiffPatterns(diff))
  {
    DiffCandidatesShape(diff);
    assert forall k :: 0 <= k < |DiffPatterns(diff)| ==> DiffPatterns(diff)[k] in DiffPatterns(diff);
  }

  /** Every candidate of every generator is well formed: a conventional
      type and a confidence between 0.5 and 0.9. */
  lemma CandidatesWellFormed(a: GitAnalysis, cfg: EngineConfig, findall: Matcher, ps: seq<CommitPattern>)
    requires CandidatesOf(a, cfg, findall, ps)
    ensures AllWellFormed(ps)
  {
    var fs :| FunctionPart(findall, a.stagedDiff, fs)
      && ps == BranchPart(a) + CommentPatterns(a, cfg) + FilePatterns(a.stagedFiles) + DiffPatterns(a.stagedDiff)
        + fs + VersionPart(findall, a.stagedDiff) + StatsCandidates(a);
    var p1 := BranchPart(a);
    var p2 := CommentPatterns(a, cfg);
    var p3 := FilePatterns(a.stagedFiles);
    var p4 := DiffPatterns(a.stagedDiff);
    var p6 := VersionPart(findall, a.stagedDiff);
    var p7 := StatsCandidates(a);
    CommentPatternsWellFormed(a, cfg);
    FilePatternsWellFormed(a.stagedFiles);
    DiffPatternsWellFormed(a.stagedDiff);
    FunctionPartShape(findall, a.stagedDiff, fs);
    VersionPartShape(findall, a.stagedDiff);
    WellFormedSeven(p1, p2, p3, p4, fs, p6, p7);
  }

  lemma WellFormedSeven(p1: seq<CommitPattern>, p2: seq<CommitPattern>, p3: seq<CommitPattern>,
                        p4: seq<CommitPattern>, p5: seq<CommitPattern>, p6: seq<CommitPattern>,
                        p7: seq<CommitPattern>)
    requires AllWellFormed(p1) && AllWellFormed(p2) && AllWellFormed(p3) && AllWellFormed(p4)
    requires AllWellFormed(p5) && AllWellFormed(p6) && AllWellFormed(p7)
    ensures AllWellFormed(p1 + p2 + p3 + p4 + p5 + p6 + p7)
  {
    WellFormedConcat(p1, p2);
    WellFormedConcat(p1 + p2, p3);
    WellFormedConcat(p1 + p2 + p3, p4);
    WellFormedConcat(p1 + p2 + p3 + p4, p5);
    WellFormedConcat(p1 + p2 + p3 + p4 + p5, p6);
    WellFormedConcat(p1 + p2 + p3 + p4 + p5 + p6, p7);
  }

  /** `_analyze_all_patterns`. */
  method AnalyzeAllPatterns(a: GitAnalysis, cfg: EngineConfig, findall: Matcher) returns (ps: seq<CommitPattern>)
    ensures CandidatesOf(a, cfg, findall, ps)
    ensures AllWellFormed(ps)
  {
    var branch := BranchPart(a);
    var comments := CommentCandidates(a, cfg);
    var files := FileCandidates(a);
    var diffs := DiffCandidates(a);
    var functions := FunctionCandidates(a, findall);
    var versions := VersionCandidates(a, findall);
    var stats := StatsCandidates(a);
    ps := branch + comments + files + diffs + functions + versions + stats;
    assert FunctionPart(findall, a.stagedDiff, functions);
    CandidatesWellFormed(a, cfg, findall, ps);
  }

  // ---------------------------------------------------------------------
  // Selection (`_select_best_pattern`)
  // ---------------------------------------------------------------------

  /** The candidate used when there is none. */
  const Fallback := CommitPattern("feat", None, "update code", 1)

  /** `p` sorts before `q` in the descending sort on (confidence,
      description length). */
  predicate Outranks(p: CommitPattern, q: CommitPattern) {
    p.confidence > q.confidence || (p.confidence == q.confidence && |p.description| > |q.description|)
  }

  /** The first element of the stable descending sort: no candidate
      outranks it, and it outranks every candidate before it. */
  predicate Winner(ps: seq<CommitPattern>, i: int) {
    0 <= i < |ps|
    && (forall j :: 0 <= j < |ps| ==> !Outranks(ps[j], ps[i]))
    && (forall j :: 0 <= j < i ==> Outranks(ps[i], ps[j]))
  }

  /** `_select_best_pattern`: the fallback for no candidates, otherwise the
      first candidate of greatest confidence, and among those of greatest
      description length. */
  method SelectBest(ps: seq<CommitPattern>) returns (best: CommitPattern)
    ensures ps == [] ==> best == Fallback
    ensures ps != [] ==> exists i :: Winner(ps, i) && best == ps[i]
  {
    if ps == [] {
      return Fallback;
    }
    var w := 0;
    for i := 1 to |ps|
      invariant 0 <= w < i
      invariant forall j :: 0 <= j < i ==> !Outranks(ps[j], ps[w])
      invariant forall j :: 0 <= j < w ==> Outranks(ps[w], ps[j])
    {
      if Outranks(ps[i], ps[w]) {
        w := i;
      }
    }
    best := ps[w];
    assert Winner(ps, w);
  }

  /** `best` is what `_select_best_pattern` returns for `ps`. */
  predicate Selected(ps: seq<CommitPattern>, best: CommitPattern) {
    if ps == [] then best == Fallback else exists i :: 0 <= i < |ps| && Winner(ps, i) && best == ps[i]
  }

  /** There is only one first element. */
  lemma WinnerUnique(ps: seq<CommitPattern>, i: int, j: int)
    requires Winner(ps, i) && Winner(ps, j)
    ensures i == j
  {
    assert !Outranks(ps[j], ps[i]) && !Outranks(ps[i], ps[j]);
  }

  /** The winner has the greatest confidence of all candidates. */
  lemma WinnerMostConfident(ps: seq<CommitPattern>, i: int)
    requires Winner(ps, i)
    ensures forall j :: 0 <= j < |ps| ==> ps[j].confidence <= ps[i].confidence
  {
    forall j | 0 <= j < |ps|
      ensures ps[j].confidence <= ps[i].confidence
    {
      assert !Outranks(ps[j], ps[i]);
    }
  }

  // ---------------------------------------------------------------------
  // Scope (`_determine_scope`)
  // ---------------------------------------------------------------------

  /** The first directories of the staged paths that have one. */
  function PathHeads(files: seq<string>): set<string> {
    set p | p in files && '/' in p :: FirstSegment(p)
  }

  lemma PathHeadsSnoc(files: seq<string>, i: nat)
    requires i < |files|
    ensures PathHeads(files[..i + 1]) == PathHeads(files[..i]) + (if '/' in files[i] then {FirstSegment(files[i])} else {})
  {
    assert files[..i + 1] == files[..i] + [files[i]];
  }

  /** The allowed outcomes of `_determine_scope`: none when scopes are off;
      else the formatted branch scope, else the formatted first
      suggestion, else the formatted first directory of some staged path,
      else none. */
  predicate ScopeChoice(a: GitAnalysis, cfg: EngineConfig, r: Option<string>) {
    if !cfg.includeScope then r == None
    else if HasScope(a.branchScope) then r == Some(FormatScope(a.branchScope.value, cfg.scopeStyle))
    else if a.scopeSuggestions != [] then r == Some(FormatScope(a.scopeSuggestions[0], cfg.scopeStyle))
    else if PathHeads(a.stagedFiles) != {} then
      r.Some? && exists d :: d in PathHeads(a.stagedFiles) && r.value == FormatScope(d, cfg.scopeStyle)
    else r == None
  }

  /** `_determine_scope`. */
  method DetermineScope(a: GitAnalysis, cfg: EngineConfig) returns (r: Option<string>)
    ensures ScopeChoice(a, cfg, r)
    ensures r.Some? ==> cfg.includeScope
    ensures r.Some? && cfg.scopeStyle != "camelCase" ==> forall i :: 0 <= i < |r.value| ==> !IsUpper(r.value[i])
  {
    if !cfg.includeScope {
      return None;
    }
    if HasScope(a.branchScope) {
      return Some(FormatScope(a.branchScope.value, cfg.scopeStyle));
    }
    if a.scopeSuggestions != [] {
      return Some(FormatScope(a.scopeSuggestions[0], cfg.scopeStyle));
    }
    var files := a.stagedFiles;
    var heads: set<string> := {};
    for i := 0 to |files|
      invariant heads == PathHeads(files[..i])
    {
      PathHeadsSnoc(files, i);
      if '/' in files[i] {
        heads := heads + {FirstSegment(files[i])};
      }
    }
    assert files[..|files|] == files;
    if heads != {} {
      var d :| d in heads;
      return Some(FormatScope(d, cfg.scopeStyle));
    }
    return None;
  }

  // ---------------------------------------------------------------------
  // Description (`_enhance_description`)
  // ---------------------------------------------------------------------

  /** Some part of the analysis that `_apply_specific_enhancements` reacts
      to is present. */
  predicate Signalled(a: GitAnalysis) {
    a.versionChanges != [] || a.fileTypes.docs != [] || HasScope(a.branchScope) || a.colorChanges != []
    || a.functionChanges != [] || a.configChanges != [] || a.bugs != [] || a.fixes != [] || a.todos != []
    || |a.stagedFiles| == 1
  }

  /** `_apply_specific_enhancements`: the first rule that applies rewrites
      the description. */
  function ApplySpecificEnhancements(d: string, a: GitAnalysis): (r: string)
    ensures a.versionChanges != [] && !Contains(Lower(d), "version") ==>
      r == (if a.fileTypes.docs != [] then "update documentation and bump version to " else d + " and bump version to ")
        + a.versionChanges[0]
    ensures (!(a.versionChanges != [] && !Contains(Lower(d), "version")) && a.fileTypes.docs != []
        && !Contains(Lower(d), "documentation")) ==>
      r == (if a.fileTypes.config != [] then "update documentation and " + d else "update documentation")
    ensures r != d ==> Signalled(a)
  {
    var bs := if a.branchScope.Some? then a.branchScope.value else "";
    var name := if |a.stagedFiles| == 1 then PathName(a.stagedFiles[0]) else "";
    if a.versionChanges != [] && !Contains(Lower(d), "version") then
      (if a.fileTypes.docs != [] then "update documentation and bump version to " else d + " and bump version to ")
        + a.versionChanges[0]
    else if a.fileTypes.docs != [] && !Contains(Lower(d), "documentation") then
      (if a.fileTypes.config != [] then "update documentation and " + d else "update documentation")
    else if HasScope(a.branchScope) && Contains(bs, "git") && (Contains(bs, "detection") || Contains(bs, "staged")) then
      "improve git staged file detection"
    else if HasScope(a.branchScope) && Contains(bs, "git") && Contains(bs, "llm") then
      "clean up LLM code"
    else if HasScope(a.branchScope) && Contains(bs, "tui") then
      (if a.colorChanges != [] then "improve color scheme consistency in TUI" else "improve TUI consistency")
    else if a.colorChanges != [] && !HasScope(a.branchScope) then
      "improve color scheme consistency"
    else if a.functionChanges != [] then
      "update " + a.functionChanges[0] + " function"
    else if a.configChanges != [] then
      "update configuration"
    else if a.bugs != [] then
      "fix " + Lower(a.bugs[0])
    else if a.fixes != [] then
      "fix " + Lower(a.fixes[0])
    else if a.todos != [] then
      "implement " + Lower(a.todos[0])
    else if |a.stagedFiles| == 1 && EndsWith(name, ".md") then
      "update documentation"
    else if |a.stagedFiles| == 1 && EndsWith(name, ".py") then
      "update code"
    else if |a.stagedFiles| == 1 && (EndsWith(name, ".toml") || EndsWith(name, ".yaml") || EndsWith(name, ".yml") || EndsWith(name, ".json")) then
      "update configuration"
    else
      d
  }

  /** `_enhance_description`: cleaned, rewritten by the specific rules,
      given a leading verb, and cut to `max_length`. */
  function EnhanceDescription(d: string, a: GitAnalysis, maxLength: int): (r: string)
    ensures maxLength >= 3 ==> |r| <= maxLength
    ensures !StartsWithVerb(r) ==> EndsWith(r, "...") && (maxLength >= 3 ==> |r| == maxLength)
  {
    Truncate(EnsureVerbStart(ApplySpecificEnhancements(CleanDescription(d), a)), maxLength)
  }

  /** With nothing for the specific rules to react to, the phrase of the
      `fix` diff rule comes out as `update Issues`: cleaning takes `fix` for
      a comment marker. */
  lemma FixIssuesEnhanced(a: GitAnalysis, maxLength: int)
    requires !Signalled(a) && maxLength >= 13
    ensures EnhanceDescription(GenerateDiffDescription("fix"), a, maxLength) == "update Issues"
  {
    assert GenerateDiffDescription("fix") == "fix issues";
    var c := CleanDescription("fix issues");
    assert ApplySpecificEnhancements(c, a) == c;
    FixIssuesBecomesUpdate();
    UpdateIssuesFits(maxLength);
  }

  lemma UpdateIssuesFits(maxLength: int)
    requires maxLength >= 13
    ensures Truncate("update Issues", maxLength) == "update Issues"
  {
  }

  // ---------------------------------------------------------------------
  // The message (`_format_final_message`, `generate_message`)
  // ---------------------------------------------------------------------

  /** The scope of the final message: the candidate's own non-empty scope,
      otherwise an allowed outcome of `_determine_scope`. */
  predicate FinalScope(p: CommitPattern, a: GitAnalysis, cfg: EngineConfig, scope: Option<string>) {
    if HasScope(p.scope) then scope == p.scope else ScopeChoice(a, cfg, scope)
  }

  /** `msg` is the final message of candidate `p`: its enhanced description,
      under its type and final scope when messages are conventional. */
  ghost predicate FinalMessage(p: CommitPattern, a: GitAnalysis, cfg: EngineConfig, msg: string) {
    exists scope :: FinalScope(p, a, cfg, scope) && msg == (if cfg.conventional
      then FormatConventional(p.commitType, scope, EnhanceDescription(p.description, a, cfg.maxLength))
      else EnhanceDescription(p.description, a, cfg.maxLength))
  }

  /** `_format_final_message`. */
  method FormatFinalMessage(p: CommitPattern, a: GitAnalysis, cfg: EngineConfig) returns (msg: string)
    ensures FinalMessage(p, a, cfg, msg)
  {
    var scope := p.scope;
    if !HasScope(p.scope) {
      scope := DetermineScope(a, cfg);
    }
    var d := EnhanceDescription(p.description, a, cfg.maxLength);
    if cfg.conventional {
      msg := FormatConventional(p.commitType, scope, d);
    } else {
      msg := d;
    }
    assert FinalScope(p, a, cfg, scope);
  }

  /** A conventional message starts with its type, then `(` or `: `. */
  lemma FormattedStartsWithType(commitType: string, scope: Option<string>, description: string)
    ensures StartsWith(FormatConventional(commitType, scope, description), commitType + (if HasScope(scope) then "(" else ": "))
  {
    var head := commitType + (if HasScope(scope) then "(" else ": ");
    if HasScope(scope) {
      assert FormatConventional(commitType, scope, description) == head + (scope.value + "): " + description);
    } else {
      assert FormatConventional(commitType, scope, description) == head + description;
    }
  }

  /** `generate_message`: candidates, the best of them, the final message.
      A conventional message starts with one of the conventional types; a
      plain one fits `max_length` (from 3 on). */
  method GenerateMessage(a: GitAnalysis, cfg: EngineConfig, findall: Matcher) returns (msg: string)
    ensures exists ps, best :: CandidatesOf(a, cfg, findall, ps) && Selected(ps, best) && FinalMessage(best, a, cfg, msg)
    ensures cfg.conventional ==>
      exists k :: (0 <= k < |CommitTypes| && (StartsWith(msg, CommitTypes[k] + "(") || StartsWith(msg, CommitTypes[k] + ": ")))
    ensures !cfg.conventional && cfg.maxLength >= 3 ==> |msg| <= cfg.maxLength
  {
    var ps := AnalyzeAllPatterns(a, cfg, findall);
    var best := SelectBest(ps);
    assert best.commitType in CommitTypes;
    msg := FormatFinalMessage(best, a, cfg);
    var scope :| FinalScope(best, a, cfg, scope) && msg == (if cfg.conventional
      then FormatConventional(best.commitType, scope, EnhanceDescription(best.description, a, cfg.maxLength))
      else EnhanceDescription(best.description, a, cfg.maxLength));
    FormattedStartsWithType(best.commitType, scope, EnhanceDescription(best.description, a, cfg.maxLength));
    assert CandidatesOf(a, cfg, findall, ps) && Selected(ps, best) && FinalMessage(best, a, cfg, msg);
  }
}
