# lazygit-ai commit-message engine in Dafny

lazygit-ai writes a commit message for the staged changes of a git repository.
It works in two steps. First, `GitAnalyzer` reads the captured git output and
builds a `GitAnalysis` record: the staged files by category, the diff
statistics, the branch type and scope, and the TODO/FIX/BUG comments and
version and function changes found in the diff. Second, `EnhancedRuleEngine`
turns that record into a message. It gathers weighted `CommitPattern`
candidates and picks the best one. It then resolves the scope and rewrites
the description so that it starts with a verb and fits `max_length`. Finally it
renders the result in Conventional Commits 1.0.0 form: `type(scope): description`.

The model is made of eight modules, one per concern:

- `Text`: ASCII casing, Python's `strip`, `split` and `join`, substring search,
  and sorted string sets. These are the string primitives the source relies on.
- `GitOutput`: the text processing of `lazygit_ai/utils/git.py`, applied to
  captured stdout strings. It covers the porcelain staged-file parse, file
  categories and extensions, the `--stat` summary, `log --oneline`, and commit
  readiness. Each parser is proved to round-trip against a printer of git's
  own format.
- `Analyzer`: the pure part of `GitAnalyzer`. It covers the capped pattern
  extractors (regular expressions are an abstract `findall` parameter), branch
  decomposition, the primary file type, the change summary, scope
  suggestions, the change-context predicates, the impact level, diff
  truncation and the unstaged-file parse.
- `Config`: the nested settings map with dotted-key `get` and `set`, the
  typed sections, and `validate_config`. `ConfigManager` is a class whose
  `config` field `Set` updates.
- `Shortcuts`: LazyGit's `customCommands` list, held in memory. It has
  install, forced install, uninstall and bulk install. `ShortcutManager` is a
  class whose methods update the list.
- `Llm`: the provider-independent string helpers. These are prompt-diff
  filtering, response cleaning, and the rule "never return the rule message".
- `Messages`: the description helpers of the rule engine. These include type
  normalisation, scope formatting, the verb check, clean-up, truncation,
  conventional formatting, validation and suggestions.
- `Rules`: the engine itself. The candidate generators are methods that
  build the list the way the source does, and each is proved against a
  function. The module also holds selection, scope resolution, the
  description chain and the final message.

Confidences are integer tenths (0.9 is 9). Casing and whitespace are ASCII.

## Model

| member | source | states |
|---|---|---|
| GitOutput.TestsByNameOnly | lazygit_ai/utils/git.py:130-142 | a path is classed as tests exactly when its suffix is neither a code nor a docs suffix and its lowercased name contains "test"; the compound test suffixes can never match a one-dot suffix |
| GitOutput.GetFileTypes | lazygit_ai/utils/git.py:119-150 | every category list is the input filtered by the category, in input order |
| GitOutput.SelectKeepsAll | lazygit_ai/utils/git.py:121-148 | each path appears in its own category as often as in the input |
| GitOutput.SelectSound | lazygit_ai/utils/git.py:121-148 | every member of a category list is an input path of that category |
| GitOutput.SelectExclusive | lazygit_ai/utils/git.py:121-148 | a path that appears in two category lists forces the two categories to be equal |
| GitOutput.GetFileExtensions | lazygit_ai/utils/git.py:110-117 | the result is strictly sorted, holds exactly the extensions of the files, and each is lowercase, non-empty and starts with "." |
| GitOutput.ParseStagedFiles | lazygit_ai/utils/git.py:63-76 | the loop computes the staged paths of the split lines, in order |
| GitOutput.StagedPathOfPorcelainLine | lazygit_ai/utils/git.py:65-75 | a printed porcelain line yields its path exactly when its index status is A, M, D or R |
| GitOutput.ParseStagedOfPorcelain | lazygit_ai/utils/git.py:51-80 | parsing what `git status --porcelain` prints gives exactly the staged entries' paths, in order |
| GitOutput.ParseGitStatSummary | lazygit_ai/utils/git.py:164-186 | parsing a printed `--stat` summary line returns its files, insertions and deletions, with absent counts read as 0 |
| GitOutput.ParseStatsOfOutput | lazygit_ai/utils/git.py:152-186 | the whole `diff --cached --stat` output, any newline-terminated file listing followed by the summary line, parses back to the summarised counts |
| GitOutput.ParseRecentCommits | lazygit_ai/utils/git.py:202-210 | the loop computes the commits of the stripped, split output: lines with a space, split at the first one |
| GitOutput.CommitOfOneline | lazygit_ai/utils/git.py:205-209 | a printed `hash message` line parses back to the same commit |
| GitOutput.ParseRecentOfOnelines | lazygit_ai/utils/git.py:191-214 | parsing `git log --oneline` output gives back exactly the printed commits |
| GitOutput.CheckCommitReadiness | lazygit_ai/utils/git.py:299-320 | ready iff something is staged; the lists are passed through; the message is one of four, picked by (nothing staged, unstaged changes), and starts with a cross exactly when not ready |
| Analyzer.TruncatedLines | lazygit_ai/core/analyzer.py:176-185 | text of at most 10000 lines is unchanged; longer text becomes its first 10000 lines plus the truncation notice |
| Analyzer.ExtractCapped | lazygit_ai/core/analyzer.py:257-436 | the capped loop returns the per-pattern-capped concatenation of the matches, at most 100 items, and nothing for an empty or oversized diff |
| Analyzer.Extract | lazygit_ai/core/analyzer.py:257-436 | each `_extract_*` returns its patterns' capped matches (stripped where the source strips), at most 100 items, and [] for an empty or oversized diff |
| Analyzer.GatheredSound | lazygit_ai/core/analyzer.py:257-436 | every extracted item comes from a match of one of the extractor's patterns |
| Analyzer.AnalyzeBranch | lazygit_ai/core/analyzer.py:438-467 | the branch type is present exactly when the scope is |
| Analyzer.BranchSplitsAtFirstSlash | lazygit_ai/core/analyzer.py:438-467 | a name without "/" gives (None, None); otherwise the type is the lowercased text before the first "/" and the scope is the lowercased rest |
| Analyzer.PrimaryFileType | lazygit_ai/core/analyzer.py:469-478 | None iff every category is empty; otherwise a non-empty category with every higher-priority one empty |
| Analyzer.ChangeSummary | lazygit_ai/core/analyzer.py:480-524 | "No changes" without staged files; otherwise the parts (count, stats, type labels) joined by blanks |
| Analyzer.SummaryStartsWithCount | lazygit_ai/core/analyzer.py:485-490 | the summary begins with "1 file" for one file and with "n files" for n > 1 |
| Analyzer.LabelListed | lazygit_ai/core/analyzer.py:503-518 | a category's label is listed iff the category is among those reported and non-empty, so "other" never is |
| Analyzer.ScopeSuggestions | lazygit_ai/core/analyzer.py:526-578 | strictly sorted and duplicate-free; holds exactly the branch, path, type and name scopes; includes the branch scope and core/test/docs/config whenever those categories are non-empty |
| Analyzer.AnyKeyword | lazygit_ai/core/analyzer.py:601-656 | true iff some keyword is a substring of the text |
| Analyzer.CodeRefactorInIntegers | lazygit_ai/core/analyzer.py:601-617 | refactor iff a refactor keyword occurs, or deletions > 20 and 2·\|ins − del\| < del |
| Analyzer.AnalyzeChangeContext | lazygit_ai/core/analyzer.py:580-599 | every context flag equals its predicate over the file types, stats and diff |
| Analyzer.ImpactLevel | lazygit_ai/core/analyzer.py:658-681 | high iff more than 500 changed lines, more than 10 files, or config files among more than 3; low implies at most 100 lines and 3 files |
| Analyzer.ImpactMonotone | lazygit_ai/core/analyzer.py:658-681 | more changed lines never lowers the impact level |
| Analyzer.UnstagedAsWrittenMissesFirstEntry | lazygit_ai/core/analyzer.py:248 | stripping the whole output first loses the unstaged first entry " M a.py" |
| Analyzer.ParseUnstagedOfPorcelain | lazygit_ai/core/analyzer.py:247-251 | the corrected parse of printed porcelain output gives exactly the entries with a work-tree change, in order |
| Analyzer.UnstagedFindsFirstEntry | lazygit_ai/core/analyzer.py:247-251 | the corrected parse finds "a.py" in " M a.py\n" |
| Config.SetThenGet | lazygit_ai/utils/config.py:101-113 | after a successful set, the dotted path reads the stored value |
| Config.SetLeavesOthers | lazygit_ai/utils/config.py:101-113 | a set leaves every path that branches off the key's path unchanged |
| Config.SetSucceedsIff | lazygit_ai/utils/config.py:106-111 | set succeeds exactly when every existing intermediate on the path is a map |
| Config.ConfigManager.constructor | lazygit_ai/utils/config.py:19-29 | the manager holds the loaded settings |
| Config.ConfigManager.GetPath | lazygit_ai/utils/config.py:89-99 | the value found along the path, or the default when a segment is missing or not a map |
| Config.ConfigManager.Set | lazygit_ai/utils/config.py:101-113 | succeeds iff the path is open; on success the new map is the functional update and the key reads back the value; on failure nothing changes |
| Config.ConfigManager.ValidateConfig | lazygit_ai/utils/config.py:270-294 | a valid config has 0 ≤ temperature ≤ 1, max_tokens ≥ 1, timeout ≥ 1, max_length ≥ 10 and a known scope style |
| Config.GetDotted | lazygit_ai/utils/config.py:89-99 | `get("a.b")` reads the two-segment path |
| Config.EmptyGet | lazygit_ai/utils/config.py:89-99 | every lookup in an empty config gives its default |
| Config.EmptyCommitConfig | lazygit_ai/utils/config.py:131-139 | with an empty config, the commit settings are conventional, 72, "lowercase", include scope, auto scope |
| Config.DefaultValidates | lazygit_ai/utils/config.py:51-87 | the default config passes validation |
| Config.DefaultAiDisabled | lazygit_ai/utils/config.py:116-119 | AI is disabled with the default provider "none" |
| Config.SetProviderEnables | lazygit_ai/utils/config.py:116-119 | setting a provider other than "none" enables AI |
| Shortcuts.FirstMatch | lazygit_ai/utils/shortcuts.py:77-86 | the index of the first entry with the key and context, or None when no entry has them |
| Shortcuts.ShortcutManager.constructor | lazygit_ai/utils/shortcuts.py:18-22 | the manager holds the loaded `customCommands` section |
| Shortcuts.ShortcutManager.EnsureCustomCommandsSection | lazygit_ai/utils/shortcuts.py:72-75 | adds an empty list only when the section is missing, so it is idempotent |
| Shortcuts.ShortcutManager.GetShortcutCommand | lazygit_ai/utils/shortcuts.py:77-86 | returns the first matching entry, or None when nothing matches |
| Shortcuts.ShortcutManager.InstallShortcut | lazygit_ai/utils/shortcuts.py:88-124 | the new list and result are those of the install specification |
| Shortcuts.ShortcutManager.UninstallShortcut | lazygit_ai/utils/shortcuts.py:126-147 | the new list and result are those of the uninstall specification |
| Shortcuts.ShortcutManager.InstallMultipleShortcuts | lazygit_ai/utils/shortcuts.py:216-237 | the list and the results are those of installing the entries one after another |
| Shortcuts.InstallKeepsExisting | lazygit_ai/utils/shortcuts.py:104-106 | without force, an existing binding gives False and leaves the list unchanged |
| Shortcuts.InstallAppends | lazygit_ai/utils/shortcuts.py:112-124 | a new binding gives True and appends the AI-commit entry |
| Shortcuts.ForceReplacesFirst | lazygit_ai/utils/shortcuts.py:108-110 | force removes exactly the first match and appends the new entry, keeping the length and the order of the other entries |
| Shortcuts.UninstallRemovesFirst | lazygit_ai/utils/shortcuts.py:126-147 | succeeds iff a match exists; then exactly the first match is removed; otherwise nothing changes |
| Shortcuts.InstallThenFound | lazygit_ai/utils/shortcuts.py:88-124 | after a successful install the binding is found |
| Shortcuts.InstallUninstallRoundTrip | lazygit_ai/utils/shortcuts.py:88-147 | installing a fresh binding and uninstalling it restores the list |
| Shortcuts.OperationsKeepWellFormed | lazygit_ai/utils/shortcuts.py:185-202 | install and uninstall keep every entry with key, context and command, as validation requires |
| Shortcuts.ResultsCoverEligible | lazygit_ai/utils/shortcuts.py:216-237 | the results have exactly one "key:context" entry per shortcut with both fields |
| Shortcuts.DefaultsInstallOneCommand | lazygit_ai/utils/shortcuts.py:239-267 | installing the defaults binds C, A and X in "files", all to `lazygit-ai commit` |
| Llm.KeptIsSubsequence | lazygit_ai/core/llm.py:43-49 | the kept lines are an order-preserving subsequence of the diff lines, each at most 200 long and without "Binary files" |
| Llm.PromptLines | lazygit_ai/core/llm.py:43-56 | at most 100 kept lines, then "... (truncated)" exactly when another eligible line exists |
| Llm.FormatDiffForPrompt | lazygit_ai/core/llm.py:37-58 | "No staged changes" for an empty diff; otherwise the capped kept lines joined by newlines |
| Llm.CleanResponse | lazygit_ai/core/llm.py:148-160 | the result has no newline, no surrounding whitespace and no code fence |
| Llm.CleanResponseFacts | lazygit_ai/core/llm.py:154-158 | the first line after removing fences holds neither a newline nor a fence |
| Llm.EnhancedMessage | lazygit_ai/core/llm.py:137-142 | never equal to the rule message; a returned message is one fence-free line; None exactly when the cleaned reply equals the rule message |
| Messages.NormalizeCommitType | lazygit_ai/core/rules.py:636-659 | always a conventional type: the mapped type of the lowercased name, else "feat" |
| Messages.NormalizeIdempotent | lazygit_ai/core/rules.py:636-659 | normalising a normalised type changes nothing |
| Messages.FormatScope | lazygit_ai/core/rules.py:419-430 | lowercase and unknown styles give `lower(s)`; kebab-case maps "_" and blanks to "-" and lowers the rest; camelCase is `title(lower(s))` filtered of blanks, "_" and "-", in order |
| Messages.FormatScopeIdempotent | lazygit_ai/core/rules.py:419-430 | formatting a formatted scope changes nothing |
| Messages.CamelCaseStartsUpper | lazygit_ai/core/rules.py:426-428 | a camelCase scope starts with an upper-case letter |
| Messages.RemoveSeparators | lazygit_ai/core/rules.py:428 | the three chained `replace(c, "")` calls keep exactly the characters other than blanks, "_" and "-", in order |
| Messages.CamelCaseUserAuth | lazygit_ai/core/rules.py:426-428 | "USER_AUTH" in camelCase is "UserAuth" |
| Messages.ExtractScopeFromPath | lazygit_ai/core/rules.py:550-555 | a scope iff the path has "/", and it is the lowercased first segment |
| Messages.ExtractScopeOfJoined | lazygit_ai/core/rules.py:550-555 | "dir/rest" gives the lowercased dir |
| Messages.EnsureVerbStart | lazygit_ai/core/rules.py:602-634 | the result starts with a verb; the text is kept iff it starts with one, else "update " is put in front |
| Messages.EnsureVerbStartIdempotent | lazygit_ai/core/rules.py:602-634 | a second application changes nothing |
| Messages.GenerateFileDescription | lazygit_ai/core/rules.py:557-573 | starts with the type's base phrase (a verb), and names the file exactly when it is not a generic one |
| Messages.GenerateDiffDescription | lazygit_ai/core/rules.py:590-600 | the phrase for the pattern type, else "update code", and it starts with a verb |
| Messages.DropMarker | lazygit_ai/core/rules.py:527 | removes a leading TODO/FIX/BUG marker (any case) with its colons and blanks, else keeps the text |
| Messages.DropMarkerOf | lazygit_ai/core/rules.py:527 | a marker followed by separators and a body leaves exactly the body |
| Messages.CleanDescription | lazygit_ai/core/rules.py:522-534 | stripped, single-blank, never longer, and starts without a lower-case letter |
| Messages.CleanDescriptionOfClean | lazygit_ai/core/rules.py:522-534 | an already clean description is a fixed point |
| Messages.FixPhraseLosesVerb | lazygit_ai/core/rules.py:526-532 | "fix rest" becomes the capitalised rest, dropping the verb |
| Messages.FixIssuesBecomesUpdate | lazygit_ai/core/rules.py:522-634 | "fix issues" ends as "update Issues" |
| Messages.CleanCommentText | lazygit_ai/core/rules.py:536-548 | the cleaned comment is stripped and single-blank |
| Messages.CleanCommentOf | lazygit_ai/core/rules.py:536-548 | comment marks, the TODO/FIX/BUG marker and separators are all removed from a marked comment |
| Messages.Truncate | lazygit_ai/core/rules.py:444-446 | short text is kept; long text becomes a prefix plus "...", exactly max_length long when max_length ≥ 3 |
| Messages.FormattedValidates | lazygit_ai/core/rules.py:661-696 | a formatted conventional message passes `validate_message` when it fits max_length, its type is one of the conventional types, every scope character is a lower-case letter or `-`, and the description is non-empty and does not start with a newline |
| Messages.DigitScopeRejected | lazygit_ai/core/rules.py:661-696 | without those conditions it can fail: `feat(jira-123): add login`, whose scope holds digits, is rejected by `validate_message` whatever max_length is |
| Messages.ImperativeOfFormatted | lazygit_ai/core/rules.py:722-741 | a formatted message is imperative iff its description starts with one of the verbs |
| Messages.Notes | lazygit_ai/core/rules.py:698-720 | each note is present exactly when its condition holds, nothing else is, and the notes come once each in the order of the checks |
| Messages.SuggestImprovements | lazygit_ai/core/rules.py:698-720 | the length, "update", vagueness, period and mood notes each appear iff their condition holds, with no other entry and in that order |
| Rules.EngineSettings | lazygit_ai/core/rules.py:28-35 | the engine reads the flags by truthiness and takes max_length and the scope style as configured |
| Rules.DefaultEngine | lazygit_ai/core/rules.py:28-35 | the default settings give a conventional, 72-character, lowercase engine with every comment kind on |
| Rules.BranchCandidate | lazygit_ai/core/rules.py:175-194 | one candidate iff there is a branch type, with the normalised type, confidence 0.9, the branch scope, and "implement" plus the scope with - and _ as blanks, or "implement feature" |
| Rules.MarkedAt | lazygit_ai/core/rules.py:205-231 | each comment becomes a candidate of the kind's type and confidence with the cleaned text |
| Rules.AppendComments | lazygit_ai/core/rules.py:200-231 | the loop appends at most two candidates of one comment kind |
| Rules.CommentCandidates | lazygit_ai/core/rules.py:196-233 | the generator returns the TODO, FIX and BUG candidates in that order |
| Rules.CommentPatternsShape | lazygit_ai/core/rules.py:196-233 | at most two TODO candidates (feat, 0.8) followed by at most four fix candidates (0.9) |
| Rules.HitsMembers | lazygit_ai/core/rules.py:240-280 | a rule's candidate is produced iff one of its patterns fires |
| Rules.FirstHit | lazygit_ai/core/rules.py:248-256 | the inner loop stops with a hit iff some pattern of the rule fires |
| Rules.CollectHits | lazygit_ai/core/rules.py:240-280 | the loop appends the candidates of the firing rules, in rule order |
| Rules.FileCandidates | lazygit_ai/core/rules.py:235-258 | the loop yields, per file, one candidate per category that matches it |
| Rules.FileCandidatesSound | lazygit_ai/core/rules.py:235-258 | each file candidate comes from a matching rule and carries its type and confidence |
| Rules.MarkdownIsDocs | lazygit_ai/core/rules.py:40-66 | a Markdown file's first candidate is docs at 0.9 |
| Rules.DiffCandidates | lazygit_ai/core/rules.py:260-280 | the generator returns the candidates of the firing diff rules |
| Rules.DiffCandidatesShape | lazygit_ai/core/rules.py:69-113 | at most five diff candidates, each well formed, unscoped and starting with a verb |
| Rules.DiffRuleFires | lazygit_ai/core/rules.py:260-280 | a diff rule's candidate is present iff one of its keywords is followed by whitespace in the lowercased diff |
| Rules.FirstNonEmptySpec | lazygit_ai/core/rules.py:286-300 | the first non-empty match list, empty iff no pattern matches |
| Rules.FirstMatches | lazygit_ai/core/rules.py:286-300 | the loop returns the first non-empty match list |
| Rules.MostCommon | lazygit_ai/core/rules.py:290 | a member of the matches whose count is maximal |
| Rules.FunctionCandidates | lazygit_ai/core/rules.py:282-301 | none without matches; otherwise "update <most common name> function" as refactor at 0.6 |
| Rules.VersionCandidates | lazygit_ai/core/rules.py:303-321 | "bump version to <first match>" as chore(version) at 0.9 when a version pattern matches |
| Rules.FunctionAndVersionShape | lazygit_ai/core/rules.py:282-321 | at most one function and one version candidate, each well formed and starting with a verb |
| Rules.StatsCandidates | lazygit_ai/core/rules.py:323-359 | a candidate exactly when insertions dominate (more than 3× and 50), deletions do, or exactly one file is staged; respectively `feat` "add new features", `refactor` "remove unused code", or the single-file `fix` "update <name>"; well formed and starting with a verb |
| Rules.StatsExclusive | lazygit_ai/core/rules.py:327-352 | insertions and deletions cannot both dominate |
| Rules.CandidatesWellFormed | lazygit_ai/core/rules.py:139-173 | every candidate has a conventional type and a confidence between 0.5 and 0.9 |
| Rules.AnalyzeAllPatterns | lazygit_ai/core/rules.py:139-173 | the list is branch, comments, files, diff, function, version and stats candidates in that order, all well formed |
| Rules.SelectBest | lazygit_ai/core/rules.py:361-378 | the fallback for no candidates; otherwise the winner of the stable descending sort by (confidence, length) |
| Rules.WinnerUnique | lazygit_ai/core/rules.py:372-376 | the sort's winner is a single position |
| Rules.WinnerMostConfident | lazygit_ai/core/rules.py:372-376 | no candidate is more confident than the winner |
| Rules.PathHeadsSnoc | lazygit_ai/core/rules.py:408-415 | the path heads grow by the first segment of each file with "/" |
| Rules.DetermineScope | lazygit_ai/core/rules.py:394-417 | the scope follows the fallback order, is None without include_scope, and has no upper case outside camelCase |
| Rules.ApplySpecificEnhancements | lazygit_ai/core/rules.py:450-520 | the version rule and the docs rule apply first-match-wins, and the text changes only when some signal is present |
| Rules.EnhanceDescription | lazygit_ai/core/rules.py:432-448 | within max_length when it is at least 3, and a result that lacks a verb is a cut ending in "..." |
| Rules.FixIssuesEnhanced | lazygit_ai/core/rules.py:432-448 | without signals, the "fix" diff description enhances to "update Issues" |
| Rules.FormatFinalMessage | lazygit_ai/core/rules.py:380-392 | the message is the formatted final scope, type and description, or the bare description when not conventional |
| Rules.FormattedStartsWithType | lazygit_ai/core/rules.py:661-666 | a formatted message starts with "type(" when it has a scope and with "type: " otherwise |
| Rules.GenerateMessage | lazygit_ai/core/rules.py:128-137 | the message is the final message of the candidate `_select_best_pattern` picks from the seven generators' candidates; a conventional one starts with a conventional type, a plain one fits max_length |

## Findings

| source | as written | input that shows it | evidently intended | confidence | as-written member | corrected member |
|---|---|---|---|---|---|---|
| lazygit_ai/core/analyzer.py:248 | the whole porcelain output is stripped before it is split, so the first entry loses its blank index column and its work-tree status is read from the wrong column | `git status --porcelain` printing " M a.py\n" gives [] | ["a.py"] | not executed | Analyzer.UnstagedAsWrittenMissesFirstEntry | Analyzer.UnstagedFindsFirstEntry |

## Left out

- Subprocess and GitPython calls, the network LLM clients (OpenAI, Anthropic, Ollama), the terminal UI and the CLI are not part of this model. The parsers take captured stdout as a string.
- Reading and writing YAML, TOML and environment overrides are not part of this model. Settings and `customCommands` are in-memory values.
- Python `re` is abstracted as a `findall` parameter for the extractors and for the function and version patterns. The `word\s+` keyword tests are concrete "keyword then whitespace" recognisers. The MULTILINE anchors are not modelled.
- Unicode: casing, `title()` and whitespace are ASCII only.
- Paths are plain relative git paths. `PathName`, `Suffix`, `Stem` and `FirstSegment` take the text after the last "/" or "." (or before the first "/"), where the source uses `pathlib`. `pathlib` also normalises "a//b", "a/./b" and a trailing "/", and gives a leading "/" a part of its own. The two agree on the paths git prints.
- Floats: confidences are integer tenths. `temperature` is a `real` and is only compared.
- `_extract_diff_context` is not modelled, because its result is never used by `_generate_diff_description`.
- `get_commit_type_help`, `get_analysis_summary`, `_create_prompt`, `get_ui_config` and `get_lazygit_config` are not modelled. They only assemble dictionaries or prompt text.
- Rules.EngineSettings: a `max_length` that is not an integer gives no engine, and a scope style that is not a string is read as matching no style.
- Rules.SelectBest: the sort is modelled by its head (the stable winner), not as a whole sorted list.
- Rules.MostCommon: `max(set(matches), key=matches.count)` breaks ties by set iteration order, so the model promises only some most frequent name.
- Rules.DetermineScope: `list(scopes)[0]` depends on set iteration order, so the model promises only some first path segment.
- Config.ConfigManager.Set: nested dictionaries are updated as values, so aliasing between sub-maps is not captured. Lists inside the settings are not modelled.
- Config.ConfigManager.ValidateConfig: the contract states only the direction "valid implies in range".
