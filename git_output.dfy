/** The text processing that `GitWrapper` applies to the captured output of
    `git status --porcelain`, `git diff --cached --stat` and
    `git log --oneline`, and its pure classification of paths. Running git
    is not modelled: each operation takes the captured stdout as a string. */
module GitOutput {
  import opened Text

  // ---------------------------------------------------------------------
  // Paths (`pathlib.PurePosixPath` on git's relative paths)
  // ---------------------------------------------------------------------

  /** `Path(p).name`, which is also `p.split("/")[-1]`. */
  function PathName(p: string): (r: string)
    ensures '/' !in r
    ensures EndsWith(p, r)
  {
    var i := LastIndexOf(p, '/');
    p[i + 1..]
  }

  /** `Path(p).suffix`: from the last dot of the name, provided that dot is
      neither the first nor the last character of the name. */
  function Suffix(p: string): (r: string)
    ensures r == [] || (|r| >= 2 && r[0] == '.' && '.' !in r[1..])
  {
    var n := PathName(p);
    var i := LastIndexOf(n, '.');
    if 0 < i < |n| - 1 then n[i..] else ""
  }

  /** `Path(p).stem`: the name without its suffix. */
  function Stem(p: string): (r: string)
    ensures r + Suffix(p) == PathName(p)
  {
    var n := PathName(p);
    var i := LastIndexOf(n, '.');
    if 0 < i < |n| - 1 then
      assert n[..i] + n[i..] == n;
      n[..i]
    else n
  }

  /** `len(Path(p).parts) > 1` for a relative path. */
  predicate HasDirectory(p: string) { '/' in p }

  /** `Path(p).parts[0]`, also `p.split("/")[0]`, for a path with a directory. */
  function FirstSegment(p: string): (r: string)
    ensures '/' !in r
  {
    Split(p, '/')[0]
  }

  // ---------------------------------------------------------------------
  // get_file_types
  // ---------------------------------------------------------------------

  /** The six categories, in the order the result dict lists them. */
  datatype Category = Code | Docs | Tests | ConfigFiles | Assets | Other

  const AllCategories: seq<Category> := [Code, Docs, Tests, ConfigFiles, Assets, Other]

  datatype FileTypes = FileTypes(code: seq<string>, docs: seq<string>, tests: seq<string>,
                                 config: seq<string>, assets: seq<string>, other: seq<string>)
  {
    function Get(c: Category): seq<string> {
      match c
      case Code => code
      case Docs => docs
      case Tests => tests
      case ConfigFiles => config
      case Assets => assets
      case Other => other
    }

    /** `categories[c].append(path)`. */
    function Append(c: Category, path: string): (r: FileTypes)
      ensures forall d :: r.Get(d) == Get(d) + (if d == c then [path] else [])
    {
      match c
      case Code => this.(code := code + [path])
      case Docs => this.(docs := docs + [path])
      case Tests => this.(tests := tests + [path])
      case ConfigFiles => this.(config := config + [path])
      case Assets => this.(assets := assets + [path])
      case Other => this.(other := other + [path])
    }
  }

  const NoFiles := FileTypes([], [], [], [], [], [])

  const CodeSuffixes: set<string> := {".py", ".js", ".ts", ".jsx", ".tsx", ".java", ".c", ".cpp", ".h",
                                      ".hpp", ".go", ".rs", ".php", ".rb", ".swift", ".kt", ".scala"}
  const DocSuffixes: set<string> := {".md", ".txt", ".rst", ".adoc", ".tex"}
  const TestSuffixes: set<string> := {".test.js", ".test.ts", ".spec.js", ".spec.ts", "_test.py", "test_"}
  const ConfigSuffixes: set<string> := {".json", ".yaml", ".yml", ".toml", ".ini", ".cfg", ".conf", ".env"}
  const AssetSuffixes: set<string> := {".png", ".jpg", ".jpeg", ".gif", ".svg", ".ico", ".css", ".scss",
                                       ".sass", ".less"}

  /** The if/elif chain of `get_file_types`: the first branch that matches. */
  function CategoryOf(path: string): Category {
    var suffix := Lower(Suffix(path));
    if suffix in CodeSuffixes then Code
    else if suffix in DocSuffixes then Docs
    else if Contains(Lower(PathName(path)), "test") || suffix in TestSuffixes then Tests
    else if suffix in ConfigSuffixes then ConfigFiles
    else if suffix in AssetSuffixes then Assets
    else Other
  }

  /** The compound suffixes of the tests branch (".test.js", "_test.py", ...)
      can never equal `Path.suffix`, which holds exactly one dot, in front:
      a path is a test exactly when it is neither code nor documentation and
      its lower-cased name contains "test". */
  lemma TestsByNameOnly(path: string)
    ensures CategoryOf(path) == Tests <==>
              Lower(Suffix(path)) !in CodeSuffixes && Lower(Suffix(path)) !in DocSuffixes
              && Contains(Lower(PathName(path)), "test")
  {
    LowerSuffixNotTestSuffix(path);
  }

  lemma LowerSuffixNotTestSuffix(path: string)
    ensures Lower(Suffix(path)) !in TestSuffixes
  {
    var r := Suffix(path);
    var s := Lower(r);
    if s != [] {
      assert s[0] == '.';
      assert '.' !in s[1..] by {
        forall k | 0 <= k < |s| - 1 ensures s[1..][k] != '.' {
          assert s[1..][k] == LowerChar(r[k + 1]) && r[1..][k] == r[k + 1];
        }
      }
      OneDotNotTestSuffix(s);
    }
  }

  lemma OneDotNotTestSuffix(s: string)
    requires s != [] && s[0] == '.' && '.' !in s[1..]
    ensures s !in TestSuffixes
  {
    assert ".test.js"[1..][4] == '.' && ".test.ts"[1..][4] == '.';
    assert ".spec.js"[1..][4] == '.' && ".spec.ts"[1..][4] == '.';
    assert "_test.py"[0] != '.' && "test_"[0] != '.';
  }

  /** The paths of `files` that `kind` puts in category `c`, in input order
      (`get_file_types` uses `kind := CategoryOf`). */
  function Select(kind: string -> Category, files: seq<string>, c: Category): (r: seq<string>)
    ensures |r| <= |files|
    decreases |files|
  {
    if files == [] then []
    else
      var last := files[|files| - 1];
      Select(kind, files[..|files| - 1], c) + (if kind(last) == c then [last] else [])
  }

  /** `get_file_types`: one list per category, filled in input order. */
  method GetFileTypes(files: seq<string>) returns (ft: FileTypes)
    ensures forall c :: ft.Get(c) == Select(CategoryOf, files, c)
  {
    ft := NoFiles;
    for i := 0 to |files|
      invariant forall c :: ft.Get(c) == Select(CategoryOf, files[..i], c)
    {
      var path := files[i];
      assert files[..i + 1][..i] == files[..i];
      ft := ft.Append(CategoryOf(path), path);
    }
    assert files[..|files|] == files;
  }

  /** Every occurrence of a path lands in the list of its own category
      (with `SelectSound`: the lists partition the input). */
  lemma {:induction false} SelectKeepsAll(kind: string -> Category, files: seq<string>, p: string)
    ensures multiset(Select(kind, files, kind(p)))[p] == multiset(files)[p]
    decreases |files|
  {
    if files != [] {
      var init := files[..|files| - 1];
      var x := files[|files| - 1];
      SelectKeepsAll(kind, init, p);
      assert files == init + [x];
    }
  }

  /** Each list holds input paths of its own category only. */
  lemma {:induction false} SelectSound(kind: string -> Category, files: seq<string>, c: Category, p: string)
    requires p in Select(kind, files, c)
    ensures p in files && kind(p) == c
    decreases |files|
  {
    var init := files[..|files| - 1];
    var x := files[|files| - 1];
    if p in Select(kind, init, c) {
      SelectSound(kind, init, c, p);
    } else {
      assert p == x;
    }
  }

  /** A path's category is the one list that holds it. */
  lemma SelectExclusive(kind: string -> Category, files: seq<string>, p: string, c: Category, d: Category)
    requires p in Select(kind, files, c) && p in Select(kind, files, d)
    ensures c == d
  {
    SelectSound(kind, files, c, p);
    SelectSound(kind, files, d, p);
  }

  // ---------------------------------------------------------------------
  // get_file_extensions
  // ---------------------------------------------------------------------

  function ExtensionSet(files: seq<string>): set<string> {
    set f | f in files && Suffix(f) != "" :: Lower(Suffix(f))
  }

  lemma ExtensionSetSnoc(files: seq<string>, i: nat)
    requires i < |files|
    ensures ExtensionSet(files[..i + 1])
      == ExtensionSet(files[..i]) + (if Suffix(files[i]) != "" then {Lower(Suffix(files[i]))} else {})
  {
    var init := files[..i];
    var next := files[..i + 1];
    assert next == init + [files[i]];
    assert forall f :: f in next <==> f in init || f == files[i];
  }

  /** Every extension is a lower-case suffix: a dot and at least one more
      character. */
  lemma ExtensionShape(files: seq<string>, e: string)
    requires e in ExtensionSet(files)
    ensures |e| >= 2 && e[0] == '.' && Lower(e) == e
  {
    var f :| f in files && Suffix(f) != "" && e == Lower(Suffix(f));
    LowerIdempotent(Suffix(f));
  }

  /** `get_file_extensions`: the set of lower-cased suffixes, sorted. */
  method GetFileExtensions(files: seq<string>) returns (exts: seq<string>)
    ensures StrictlySorted(exts)
    ensures Elems(exts) == ExtensionSet(files)
    ensures forall e :: e in exts ==> |e| >= 2 && e[0] == '.' && Lower(e) == e
  {
    exts := [];
    for i := 0 to |files|
      invariant StrictlySorted(exts)
      invariant Elems(exts) == ExtensionSet(files[..i])
    {
      ExtensionSetSnoc(files, i);
      var suffix := Suffix(files[i]);
      if suffix != "" {
        exts := InsertSorted(exts, Lower(suffix));
      }
    }
    assert files[..|files|] == files;
    forall e | e in exts ensures |e| >= 2 && e[0] == '.' && Lower(e) == e {
      assert e in Elems(exts);
      ExtensionShape(files, e);
    }
  }

  // ---------------------------------------------------------------------
  // get_staged_files (porcelain v1, "short format")
  // ---------------------------------------------------------------------

  /** The path a porcelain line contributes, if it is staged (index status
      A, M, D or R). */
  function StagedPath(line: string): Option<string> {
    if line != "" && |line| >= 2 && line[0] in "AMDR" then
      if |line| >= 3 && line[1] == ' ' && line[2] == ' ' then Some(Strip(line[3..]))
      else Some(Strip(line[2..]))
    else None
  }

  function StagedPathsOf(lines: seq<string>): seq<string>
    decreases |lines|
  {
    if lines == [] then []
    else
      var init := StagedPathsOf(lines[..|lines| - 1]);
      match StagedPath(lines[|lines| - 1])
      case Some(p) => init + [p]
      case None => init
  }

  lemma StagedPathsOfSnoc(lines: seq<string>, i: nat)
    requires i < |lines|
    ensures StagedPathsOf(lines[..i + 1]) == StagedPathsOf(lines[..i])
      + (match StagedPath(lines[i]) case Some(p) => [p] case None => [])
  {
    assert lines[..i + 1][..i] == lines[..i];
  }

  /** `get_staged_files` over the captured stdout. */
  method ParseStagedFiles(stdout: string) returns (files: seq<string>)
    ensures files == StagedPathsOf(Split(stdout, '\n'))
  {
    var lines := Split(stdout, '\n');
    files := [];
    for i := 0 to |lines|
      invariant files == StagedPathsOf(lines[..i])
    {
      StagedPathsOfSnoc(lines, i);
      var line := lines[i];
      if line != "" && |line| >= 2 {
        if line[0] in "AMDR" {
          var path;
          if |line| >= 3 && line[1] == ' ' && line[2] == ' ' {
            path := Strip(line[3..]);
          } else {
            path := Strip(line[2..]);
          }
          files := files + [path];
        }
      }
    }
    assert lines[..|lines|] == lines;
  }

  /** One entry of `git status --porcelain`: index status, work-tree status
      and path. */
  datatype StatusEntry = StatusEntry(index: char, worktree: char, path: string)

  /** How git prints an entry: "XY PATH". */
  function PorcelainLine(e: StatusEntry): string { [e.index, e.worktree, ' '] + e.path }

  function PorcelainLines(es: seq<StatusEntry>): (r: seq<string>)
    ensures |r| == |es|
    ensures forall i :: 0 <= i < |es| ==> r[i] == PorcelainLine(es[i])
    decreases |es|
  {
    if es == [] then [] else PorcelainLines(es[..|es| - 1]) + [PorcelainLine(es[|es| - 1])]
  }

  function StagedEntryPaths(es: seq<StatusEntry>): seq<string>
    decreases |es|
  {
    if es == [] then []
    else
      var e := es[|es| - 1];
      StagedEntryPaths(es[..|es| - 1]) + (if e.index in "AMDR" then [e.path] else [])
  }

  predicate PrintableEntry(e: StatusEntry) {
    e.index != '\n' && e.worktree != '\n' && '\n' !in e.path
    && (e.path == [] || (!IsSpace(e.path[0]) && !IsSpace(e.path[|e.path| - 1])))
  }

  lemma StagedPathOfPorcelainLine(e: StatusEntry)
    requires PrintableEntry(e)
    ensures StagedPath(PorcelainLine(e)) == if e.index in "AMDR" then Some(e.path) else None
  {
    var line := PorcelainLine(e);
    assert line[3..] == e.path;
    if e.index in "AMDR" && !(line[1] == ' ' && line[2] == ' ') {
      assert line[2..] == " " + e.path;
      StripLeadingSpace(e.path);
    }
  }

  lemma {:induction false} StagedPathsOfPorcelain(es: seq<StatusEntry>)
    requires forall e :: e in es ==> PrintableEntry(e)
    ensures StagedPathsOf(PorcelainLines(es)) == StagedEntryPaths(es)
    decreases |es|
  {
    if es != [] {
      var init := es[..|es| - 1];
      StagedPathsOfPorcelain(init);
      assert PorcelainLines(es)[..|es| - 1] == PorcelainLines(init);
      StagedPathOfPorcelainLine(es[|es| - 1]);
    }
  }

  /** Round trip: parsing what git prints for some entries (each line ended
      by a newline) yields exactly the staged entries' paths, in order. */
  lemma ParseStagedOfPorcelain(es: seq<StatusEntry>)
    requires forall e :: e in es ==> PrintableEntry(e)
    ensures StagedPathsOf(Split(Join(PorcelainLines(es) + [""], "\n"), '\n')) == StagedEntryPaths(es)
  {
    var lines := PorcelainLines(es) + [""];
    PorcelainLinesOneLine(es);
    SplitJoin(lines, '\n');
    StagedPathsOfEmptyLast(PorcelainLines(es));
    StagedPathsOfPorcelain(es);
  }

  /** Printed entries hold no newline, nor does the empty last line. */
  lemma PorcelainLinesOneLine(es: seq<StatusEntry>)
    requires forall e :: e in es ==> PrintableEntry(e)
    ensures forall l :: l in PorcelainLines(es) + [""] ==> '\n' !in l
  {
    var lines := PorcelainLines(es) + [""];
    forall l | l in lines ensures '\n' !in l {
      if l != "" {
        var k :| 0 <= k < |es| && l == PorcelainLine(es[k]);
        assert es[k] in es;
      }
    }
  }

  /** The empty line after the last newline contributes nothing. */
  lemma StagedPathsOfEmptyLast(ls: seq<string>)
    ensures StagedPathsOf(ls + [""]) == StagedPathsOf(ls)
  {
    assert (ls + [""])[..|ls|] == ls;
  }

  // ---------------------------------------------------------------------
  // get_commit_stats
  // ---------------------------------------------------------------------

  datatype Stats = Stats(files: nat, insertions: nat, deletions: nat)

  const ZeroStats := Stats(0, 0, 0)

  /** Length of the run of digits that starts `s`. */
  function DigitRun(s: string): (n: nat)
    ensures n <= |s| && AllDigits(s[..n])
    ensures n < |s| ==> !IsDigit(s[n])
    decreases |s|
  {
    if s != [] && IsDigit(s[0]) then
      var k := DigitRun(s[1..]);
      var t := s[..k + 1];
      assert AllDigits(t) by {
        forall j | 0 < j < |t| ensures IsDigit(t[j]) {
          assert t[j] == s[1..][..k][j - 1];
        }
      }
      k + 1
    else 0
  }

  /** `(\d+)NOUNs?TAIL` at the start of `s`: the number and how many
      characters the match used. */
  function CountPhrase(s: string, noun: string, tail: string): Option<(nat, nat)> {
    var n := DigitRun(s);
    if n == 0 then None
    else if StartsWith(s[n..], noun + "s" + tail) then Some((DigitsValue(s[..n]), n + |noun| + 1 + |tail|))
    else if StartsWith(s[n..], noun + tail) then Some((DigitsValue(s[..n]), n + |noun| + |tail|))
    else None
  }

  /** The optional `, (\d+) NOUNs?TAIL` group at the start of `s`: the
      number (0 when absent) and how many characters the group used. */
  function OptionalCount(s: string, noun: string, tail: string): (r: (nat, nat))
    ensures r.1 <= |s|
  {
    if StartsWith(s, ", ") then
      match CountPhrase(s[2..], noun, tail)
      case Some((v, used)) => if 2 + used <= |s| then (v, 2 + used) else (0, 0)
      case None => (0, 0)
    else (0, 0)
  }

  /** The summary pattern of `get_commit_stats` matched at the start of `s`. */
  function StatsFrom(s: string): Option<Stats> {
    match CountPhrase(s, " file", " changed")
    case None => None
    case Some((files, used)) =>
      if used > |s| then None
      else
        var rest := s[used..];
        var (ins, k) := OptionalCount(rest, " insertion", "(+)");
        var (del, _) := OptionalCount(rest[k..], " deletion", "(-)");
        Some(Stats(files, ins, del))
  }

  /** `re.search`: the leftmost position where the pattern matches. */
  function SearchStats(line: string, i: nat): Option<Stats>
    requires i <= |line|
    decreases |line| - i
  {
    if i == |line| then None
    else if StatsFrom(line[i..]).Some? then StatsFrom(line[i..])
    else SearchStats(line, i + 1)
  }

  /** The counts the summary pattern finds in one line, or all zero. */
  function ParseStatLine(line: string): Stats {
    match SearchStats(line, 0)
    case Some(st) => st
    case None => ZeroStats
  }

  /** `get_commit_stats` over the captured `--stat` output: only the last
      line of the stripped output is looked at. */
  function ParseStats(stdout: string): Stats {
    ParseStatLine(LastLine(Strip(stdout)))
  }

  /** A count as git writes it: its decimal digits and whether the noun
      after it takes a plural "s". */
  datatype Numeral = Numeral(digits: string, plural: bool)

  predicate ValidNumeral(m: Numeral) { m.digits != [] && AllDigits(m.digits) }

  /** git's numeral for `n`: plural unless `n` is 1. */
  function NumeralOf(n: nat): (m: Numeral)
    ensures ValidNumeral(m)
  {
    Numeral(NatToString(n), n != 1)
  }

  /** `N NOUN(s)TAIL`. */
  function Clause(m: Numeral, noun: string, tail: string): string {
    m.digits + noun + (if m.plural then "s" else "") + tail
  }

  /** `, N NOUN(s)TAIL` when present. */
  function OptClause(o: Option<Numeral>, noun: string, tail: string): string {
    match o
    case None => ""
    case Some(m) => ", " + Clause(m, noun, tail)
  }

  function OptValue(o: Option<Numeral>): nat
    requires o.Some? ==> ValidNumeral(o.value)
  {
    match o
    case None => 0
    case Some(m) => DigitsValue(m.digits)
  }

  function InsertionsShown(st: Stats): Option<Numeral> {
    if st.files > 0 && (st.insertions > 0 || st.deletions == 0) then Some(NumeralOf(st.insertions)) else None
  }

  function DeletionsShown(st: Stats): Option<Numeral> {
    if st.files > 0 && (st.deletions > 0 || st.insertions == 0) then Some(NumeralOf(st.deletions)) else None
  }

  /** The summary line git prints under `--stat` (diffstat's
      print_stat_summary): " 0 files changed" alone for no files; otherwise
      the insertions clause is left out when only deletions were made, and
      the deletions clause when only insertions were. */
  function GitStatSummary(st: Stats): string {
    " " + SummaryText(st)
  }

  /** The summary line after its leading blank. */
  function SummaryText(st: Stats): string {
    Clause(NumeralOf(st.files), " file", " changed")
    + (OptClause(InsertionsShown(st), " insertion", "(+)") + OptClause(DeletionsShown(st), " deletion", "(-)"))
  }

  lemma {:induction false} DigitRunOfDigits(d: string, rest: string)
    requires AllDigits(d)
    requires rest == [] || !IsDigit(rest[0])
    ensures DigitRun(d + rest) == |d|
    decreases |d|
  {
    if d != [] {
      assert (d + rest)[1..] == d[1..] + rest;
      DigitRunOfDigits(d[1..], rest);
    }
  }

  /** The pattern's `(\d+) NOUNs?TAIL` reads back a clause git wrote. */
  lemma CountPhraseOfClause(m: Numeral, noun: string, tail: string, rest: string)
    requires ValidNumeral(m)
    requires |noun| > 0 && !IsDigit(noun[0]) && |tail| > 0 && tail[0] != 's'
    ensures CountPhrase(Clause(m, noun, tail) + rest, noun, tail) == Some((DigitsValue(m.digits), |Clause(m, noun, tail)|))
  {
    var d := m.digits;
    var pl := if m.plural then "s" else "";
    var after := noun + pl + tail + rest;
    var s := Clause(m, noun, tail) + rest;
    assert s == d + after;
    DigitRunOfDigits(d, after);
    assert s[..|d|] == d;
    assert s[|d|..] == after;
    if !m.plural {
      var plural := noun + "s" + tail;
      assert plural[|noun|] == 's';
      assert |after| < |plural| || after[..|plural|][|noun|] == tail[0];
      assert after[..|noun + tail|] == noun + tail;
    } else {
      assert after[..|noun + "s" + tail|] == noun + "s" + tail;
    }
  }

  lemma OptionalPresent(m: Numeral, noun: string, tail: string, rest: string)
    requires ValidNumeral(m)
    requires |noun| > 0 && !IsDigit(noun[0]) && |tail| > 0 && tail[0] != 's'
    ensures OptionalCount(", " + Clause(m, noun, tail) + rest, noun, tail) == (DigitsValue(m.digits), 2 + |Clause(m, noun, tail)|)
  {
    var s := ", " + Clause(m, noun, tail) + rest;
    assert s[..2] == ", ";
    assert s[2..] == Clause(m, noun, tail) + rest;
    CountPhraseOfClause(m, noun, tail, rest);
  }

  /** An insertions group is not found where git wrote a deletions clause. */
  lemma OptionalOther(noun: string, tail: string, m: Numeral, other: string, otherTail: string)
    requires ValidNumeral(m)
    requires |noun| > 1 && |other| > 1 && noun[1] != other[1] && !IsDigit(other[0])
    ensures OptionalCount(", " + Clause(m, other, otherTail), noun, tail) == (0, 0)
  {
    var x := ", " + Clause(m, other, otherTail);
    var after := other + (if m.plural then "s" else "") + otherTail;
    assert x[..2] == ", ";
    assert x[2..] == m.digits + after;
    CountPhraseMismatch(m.digits, after, noun, tail);
  }

  /** Digits followed by a word whose second letter differs from the noun's
      are not a clause of that noun. */
  lemma CountPhraseMismatch(d: string, after: string, noun: string, tail: string)
    requires d != [] && AllDigits(d)
    requires |after| > 1 && !IsDigit(after[0]) && |noun| > 1 && after[1] != noun[1]
    ensures CountPhrase(d + after, noun, tail) == None
  {
    DigitRunOfDigits(d, after);
    assert (d + after)[|d|..] == after;
    assert (noun + "s" + tail)[1] == noun[1] && (noun + tail)[1] == noun[1];
  }

  /** Round trip: the counts git summarises are the counts parsed back. */
  lemma ParseGitStatSummary(st: Stats)
    requires st.files == 0 ==> st.insertions == 0 && st.deletions == 0
    ensures ParseStatLine(GitStatSummary(st)) == st
  {
    SummaryTextRead(st);
    SearchPastSpace(SummaryText(st));
  }

  /** The summary line read without its leading blank. */
  lemma ParseSummaryText(st: Stats)
    requires st.files == 0 ==> st.insertions == 0 && st.deletions == 0
    ensures ParseStatLine(SummaryText(st)) == st
  {
    var core := SummaryText(st);
    SummaryTextRead(st);
    assert core[0..] == core;
  }

  /** The text after the blank matches the summary pattern with the
      summarised counts. */
  lemma SummaryTextRead(st: Stats)
    requires st.files == 0 ==> st.insertions == 0 && st.deletions == 0
    ensures StatsFrom(SummaryText(st)) == Some(st)
  {
    ShownValues(st);
    ReadSummary(NumeralOf(st.files), InsertionsShown(st), DeletionsShown(st));
  }

  /** `get_commit_stats` reads back the summary git prints under its file
      listing, whatever the listing holds. */
  lemma ParseStatsOfOutput(listing: string, st: Stats)
    requires listing == [] || listing[|listing| - 1] == '\n'
    requires st.files == 0 ==> st.insertions == 0 && st.deletions == 0
    ensures ParseStats(listing + GitStatSummary(st) + "\n") == st
  {
    var core := SummaryText(st);
    assert listing + GitStatSummary(st) + "\n" == listing + " " + core + "\n";
    SummaryTextShape(st);
    LastLineOfOutput(listing, core);
    ParseEitherLastLine(listing + " " + core + "\n", st);
  }

  /** The last line read is the summary, with or without its leading blank. */
  lemma ParseEitherLastLine(out: string, st: Stats)
    requires st.files == 0 ==> st.insertions == 0 && st.deletions == 0
    requires LastLine(Strip(out)) == SummaryText(st) || LastLine(Strip(out)) == " " + SummaryText(st)
    ensures ParseStats(out) == st
  {
    if LastLine(Strip(out)) == SummaryText(st) {
      ParseSummaryText(st);
    } else {
      ParseGitStatSummary(st);
    }
  }

  /** The text after the blank starts with a digit, ends with the closing
      `d` or `)` of its last clause and holds no newline. */
  lemma SummaryTextShape(st: Stats)
    ensures var t := SummaryText(st);
      t != [] && !IsSpace(t[0]) && !IsSpace(t[|t| - 1]) && '\n' !in t
  {
    var f, ins, del := NumeralOf(st.files), InsertionsShown(st), DeletionsShown(st);
    var fc, ic, dc := Clause(f, " file", " changed"), OptClause(ins, " insertion", "(+)"), OptClause(del, " deletion", "(-)");
    var t := SummaryText(st);
    assert t == fc + (ic + dc);
    assert IsDigit(f.digits[0]) && t[0] == f.digits[0];
    NoNewlineInClause(f, " file", " changed");
    if del.Some? {
      NoNewlineInClause(del.value, " deletion", "(-)");
      assert t[|t| - 1] == dc[|dc| - 1] == ')';
    } else if ins.Some? {
      assert t[|t| - 1] == ic[|ic| - 1] == ')';
    } else {
      assert t[|t| - 1] == fc[|fc| - 1] == 'd';
    }
    if ins.Some? {
      NoNewlineInClause(ins.value, " insertion", "(+)");
    }
  }

  lemma NoNewlineInClause(m: Numeral, noun: string, tail: string)
    requires ValidNumeral(m) && '\n' !in noun && '\n' !in tail
    ensures '\n' !in Clause(m, noun, tail)
  {
    assert forall i :: 0 <= i < |m.digits| ==> IsDigit(m.digits[i]);
  }

  /** The numerals git writes carry the summarised counts. */
  lemma ShownValues(st: Stats)
    requires st.files == 0 ==> st.insertions == 0 && st.deletions == 0
    ensures ValidOpt(InsertionsShown(st)) && ValidOpt(DeletionsShown(st))
    ensures DigitsValue(NumeralOf(st.files).digits) == st.files
    ensures OptValue(InsertionsShown(st)) == st.insertions
    ensures OptValue(DeletionsShown(st)) == st.deletions
  {
    DigitsValueOfNatToString(st.files);
    DigitsValueOfNatToString(st.insertions);
    DigitsValueOfNatToString(st.deletions);
  }

  /** A line that starts with a space is matched from its second character. */
  lemma SearchPastSpace(body: string)
    requires StatsFrom(body).Some?
    ensures ParseStatLine(" " + body) == StatsFrom(body).value
  {
    var line := " " + body;
    assert line[0..] == line && line[1..] == body;
    assert StatsFrom(line).None?;
    assert SearchStats(line, 0) == SearchStats(line, 1);
    assert SearchStats(line, 1) == StatsFrom(body);
  }

  predicate ValidOpt(o: Option<Numeral>) { o.Some? ==> ValidNumeral(o.value) }

  /** Reading back a summary made of any numerals. */
  lemma ReadSummary(f: Numeral, ins: Option<Numeral>, del: Option<Numeral>)
    requires ValidNumeral(f) && ValidOpt(ins) && ValidOpt(del)
    ensures StatsFrom(Clause(f, " file", " changed") + (OptClause(ins, " insertion", "(+)") + OptClause(del, " deletion", "(-)")))
      == Some(Stats(DigitsValue(f.digits), OptValue(ins), OptValue(del)))
  {
    var fc, ic, dc := Clause(f, " file", " changed"), OptClause(ins, " insertion", "(+)"), OptClause(del, " deletion", "(-)");
    CountPhraseOfClause(f, " file", " changed", ic + dc);
    assert (fc + (ic + dc))[|fc|..] == ic + dc;
    InsertionsRead(ins, dc, del);
    assert (ic + dc)[|ic|..] == dc;
    DeletionsRead(del);
  }

  /** The insertions group reads back what git wrote: its clause, or
      nothing when only a deletions clause follows. */
  lemma InsertionsRead(ins: Option<Numeral>, dc: string, del: Option<Numeral>)
    requires ValidOpt(ins) && ValidOpt(del)
    requires dc == OptClause(del, " deletion", "(-)")
    ensures OptionalCount(OptClause(ins, " insertion", "(+)") + dc, " insertion", "(+)")
      == (OptValue(ins), |OptClause(ins, " insertion", "(+)")|)
  {
    match ins
    case Some(m) =>
      InsertionsPresent(m, dc);
    case None =>
      assert OptClause(ins, " insertion", "(+)") + dc == dc;
      NoInsertionsGroup(del);
  }

  lemma InsertionsPresent(m: Numeral, dc: string)
    requires ValidNumeral(m)
    ensures OptionalCount(OptClause(Some(m), " insertion", "(+)") + dc, " insertion", "(+)")
      == (DigitsValue(m.digits), |OptClause(Some(m), " insertion", "(+)")|)
  {
    OptionalPresent(m, " insertion", "(+)", dc);
  }

  /** Only a deletions clause, or nothing, holds no insertions group. */
  lemma NoInsertionsGroup(del: Option<Numeral>)
    requires ValidOpt(del)
    ensures OptionalCount(OptClause(del, " deletion", "(-)"), " insertion", "(+)") == (0, 0)
  {
    if del.Some? {
      NounsDiffer();
      OptionalOther(" insertion", "(+)", del.value, " deletion", "(-)");
    }
  }

  lemma NounsDiffer()
    ensures |" insertion"| > 1 && |" deletion"| > 1 && " insertion"[1] != " deletion"[1]
  {
  }

  lemma DeletionsRead(del: Option<Numeral>)
    requires ValidOpt(del)
    ensures OptionalCount(OptClause(del, " deletion", "(-)"), " deletion", "(-)").0 == OptValue(del)
  {
    if del.Some? {
      assert OptClause(del, " deletion", "(-)") == OptClause(del, " deletion", "(-)") + "";
      OptionalPresent(del.value, " deletion", "(-)", "");
    }
  }

  // ---------------------------------------------------------------------
  // get_recent_commits
  // ---------------------------------------------------------------------

  datatype Commit = Commit(hash: string, message: string)

  /** A line of `git log --oneline`: text before the first space is the hash,
      the rest the message; a line without a space yields nothing. */
  function CommitOf(line: string): Option<Commit> {
    if line == "" then None
    else
      var i := IndexOf(line, ' ');
      if i < 0 then None else Some(Commit(line[..i], line[i + 1..]))
  }

  function CommitsOf(lines: seq<string>): seq<Commit>
    decreases |lines|
  {
    if lines == [] then []
    else
      var init := CommitsOf(lines[..|lines| - 1]);
      match CommitOf(lines[|lines| - 1])
      case Some(c) => init + [c]
      case None => init
  }

  lemma CommitsOfSnoc(lines: seq<string>, i: nat)
    requires i < |lines|
    ensures CommitOf(lines[i]).Some? ==> CommitsOf(lines[..i + 1]) == CommitsOf(lines[..i]) + [CommitOf(lines[i]).value]
    ensures CommitOf(lines[i]).None? ==> CommitsOf(lines[..i + 1]) == CommitsOf(lines[..i])
  {
    assert lines[..i + 1][..i] == lines[..i];
  }

  lemma CommitsOfAppend(lines: seq<string>, line: string, c: Commit)
    requires CommitOf(line) == Some(c)
    ensures CommitsOf(lines + [line]) == CommitsOf(lines) + [c]
  {
    assert (lines + [line])[..|lines|] == lines;
  }

  /** `get_recent_commits` over the captured stdout. */
  method ParseRecentCommits(stdout: string) returns (commits: seq<Commit>)
    ensures commits == CommitsOf(Split(Strip(stdout), '\n'))
  {
    var lines := Split(Strip(stdout), '\n');
    commits := [];
    for i := 0 to |lines|
      invariant commits == CommitsOf(lines[..i])
    {
      CommitsOfSnoc(lines, i);
      var line := lines[i];
      if line != "" {
        var sp := IndexOf(line, ' ');
        if sp >= 0 {
          commits := commits + [Commit(line[..sp], line[sp + 1..])];
        }
      }
    }
    assert lines[..|lines|] == lines;
  }

  /** How `git log --oneline` prints a commit. */
  function OnelineOf(c: Commit): string { c.hash + " " + c.message }

  function Onelines(cs: seq<Commit>): (r: seq<string>)
    ensures |r| == |cs|
    ensures forall i :: 0 <= i < |cs| ==> r[i] == OnelineOf(cs[i])
    decreases |cs|
  {
    if cs == [] then [] else Onelines(cs[..|cs| - 1]) + [OnelineOf(cs[|cs| - 1])]
  }

  /** An abbreviated hash and a one-line subject as git prints them. */
  predicate PrintableCommit(c: Commit) {
    c.hash != [] && (forall k :: 0 <= k < |c.hash| ==> !IsSpace(c.hash[k]))
    && c.message != [] && '\n' !in c.message && !IsSpace(c.message[|c.message| - 1])
  }

  lemma CommitOfOneline(c: Commit)
    requires PrintableCommit(c)
    ensures CommitOf(OnelineOf(c)) == Some(c)
  {
    var line := OnelineOf(c);
    assert line[|c.hash|] == ' ';
    assert forall k :: 0 <= k < |c.hash| ==> line[k] == c.hash[k];
    assert IndexOf(line, ' ') == |c.hash|;
    assert line[..|c.hash|] == c.hash && line[|c.hash| + 1..] == c.message;
  }

  lemma {:induction false} CommitsOfOnelines(cs: seq<Commit>)
    requires forall c :: c in cs ==> PrintableCommit(c)
    ensures CommitsOf(Onelines(cs)) == cs
    decreases |cs|
  {
    if cs != [] {
      var n := |cs| - 1;
      assert forall d :: d in cs[..n] ==> d in cs;
      CommitsOfOnelines(cs[..n]);
      assert cs[n] in cs;
      CommitOfOneline(cs[n]);
      CommitsOfAppend(Onelines(cs[..n]), OnelineOf(cs[n]), cs[n]);
      SplitLast(cs);
    }  }

  /** Round trip: parsing what `git log --oneline` prints for some commits
      gives those commits back. */
  lemma ParseRecentOfOnelines(cs: seq<Commit>)
    requires forall c :: c in cs ==> PrintableCommit(c)
    ensures CommitsOf(Split(Strip(Join(Onelines(cs), "\n") + "\n"), '\n')) == cs
  {
    if cs == [] {
      NoCommitsPrinted();
    } else {
      StripOnelines(cs);
      SplitOnelines(cs);
    }
  }

  /** An empty log prints a lone newline, which parses to no commits. */
  lemma NoCommitsPrinted()
    ensures CommitsOf(Split(Strip(Join(Onelines([]), "\n") + "\n"), '\n')) == []
  {
    assert Join(Onelines([]), "\n") + "\n" == "\n";
    assert Strip("\n") == "";
    assert Split("", '\n') == [""];
  }

  lemma StripOnelines(cs: seq<Commit>)
    requires |cs| > 0
    requires forall c :: c in cs ==> PrintableCommit(c)
    ensures Strip(Join(Onelines(cs), "\n") + "\n") == Join(Onelines(cs), "\n")
  {
    OnelinesShape(cs);
    JoinTrimmed(Onelines(cs), "\n");
    StripTrailingNewline(Join(Onelines(cs), "\n"));
  }

  lemma SplitOnelines(cs: seq<Commit>)
    requires |cs| > 0
    requires forall c :: c in cs ==> PrintableCommit(c)
    ensures CommitsOf(Split(Join(Onelines(cs), "\n"), '\n')) == cs
  {
    OnelinesShape(cs);
    SplitJoin(Onelines(cs), '\n');
    CommitsOfOnelines(cs);
  }

  predicate Trimmed(s: string) { s != [] && !IsSpace(s[0]) && !IsSpace(s[|s| - 1]) }

  lemma {:induction false} JoinTrimmed(lines: seq<string>, sep: string)
    requires |lines| > 0
    requires forall l :: l in lines ==> Trimmed(l)
    ensures Trimmed(Join(lines, sep))
    decreases |lines|
  {
    assert lines[0] in lines;
    if |lines| > 1 {
      assert forall l :: l in lines[1..] ==> l in lines;
      JoinTrimmed(lines[1..], sep);
      var rest := Join(lines[1..], sep);
      assert Join(lines, sep) == lines[0] + sep + rest;
      assert Join(lines, sep)[0] == lines[0][0];
      assert Join(lines, sep)[|Join(lines, sep)| - 1] == rest[|rest| - 1];
    }
  }

  lemma OnelinesShape(cs: seq<Commit>)
    requires forall c :: c in cs ==> PrintableCommit(c)
    ensures forall l :: l in Onelines(cs) ==> Trimmed(l) && '\n' !in l
  {
    var lines := Onelines(cs);
    forall l | l in lines ensures Trimmed(l) && '\n' !in l {
      var k :| 0 <= k < |cs| && l == lines[k];
      var c := cs[k];
      assert c in cs;
      assert l == c.hash + " " + c.message;
      assert l[0] == c.hash[0] && l[|l| - 1] == c.message[|c.message| - 1];
      assert '\n' !in c.hash by {
        forall i | 0 <= i < |c.hash| ensures c.hash[i] != '\n' {
          assert !IsSpace(c.hash[i]);
        }
      }
    }
  }

  // ---------------------------------------------------------------------
  // check_commit_readiness
  // ---------------------------------------------------------------------

  datatype Readiness = Readiness(ready: bool, stagedFiles: seq<string>, unstagedChanges: bool, message: string)

  const Cross := "❌"
  const Warning := "⚠️"
  const Check := "✅"
  const AddHint := "\n   Use: git add .  or  git add <specific-files>"
  const NothingStagedWithUnstaged := Cross + " No staged files to commit. You have unstaged changes." + AddHint
  const NothingStaged := Cross + " No staged files to commit." + AddHint
  const ReadyWithUnstaged := Warning + "  Ready to commit staged files. You also have unstaged changes."
  const ReadyClean := Check + " Ready to commit staged files."

  /** The blocked messages start with the cross, the others do not. */
  lemma MessageMarks()
    ensures StartsWith(NothingStagedWithUnstaged, Cross) && StartsWith(NothingStaged, Cross)
    ensures !StartsWith(ReadyWithUnstaged, Cross) && !StartsWith(ReadyClean, Cross)
  {
    assert NothingStagedWithUnstaged[..1] == Cross;
    assert NothingStaged[..1] == Cross;
    assert ReadyWithUnstaged[0] == Warning[0] != Cross[0];
    assert ReadyClean[0] == Check[0] != Cross[0];
  }

  /** `check_commit_readiness`, given the staged list and whether the work
      tree has unstaged changes. */
  method CheckCommitReadiness(staged: seq<string>, unstagedChanges: bool) returns (status: Readiness)
    ensures status.ready <==> |staged| > 0
    ensures status.stagedFiles == staged && status.unstagedChanges == unstagedChanges
    ensures !status.ready <==> StartsWith(status.message, Cross)
    ensures status.message == (if |staged| == 0 then (if unstagedChanges then NothingStagedWithUnstaged else NothingStaged)
                               else if unstagedChanges then ReadyWithUnstaged else ReadyClean)
  {
    status := Readiness(|staged| > 0, staged, unstagedChanges, "");
    MessageMarks();
    if |staged| == 0 {
      if unstagedChanges {
        status := status.(message := NothingStagedWithUnstaged);
      } else {
        status := status.(message := NothingStaged);
      }
    } else if unstagedChanges {
      status := status.(message := ReadyWithUnstaged);
    } else {
      status := status.(message := ReadyClean);
    }
  }
}
