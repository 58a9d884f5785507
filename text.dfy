/** String helpers shared by every module: the Python `str` operations the
    source relies on, restricted to ASCII (upper/lower case, whitespace). */
module Text {

  datatype Option<+T> = None | Some(value: T)

  // ---------------------------------------------------------------------
  // Characters
  // ---------------------------------------------------------------------

  /** `str.isspace()` (and `\s` in `re`) on ASCII: space, \t \n \v \f \r and
      the separators 0x1C-0x1F. */
  predicate IsSpace(c: char) {
    c == ' ' || c == '\t' || c == '\n' || c == '\r' || c == '\U{0B}' || c == '\U{0C}'
    || ('\U{1C}' <= c <= '\U{1F}')
  }

  predicate IsDigit(c: char) { '0' <= c <= '9' }
  predicate IsUpper(c: char) { 'A' <= c <= 'Z' }
  predicate IsLower(c: char) { 'a' <= c <= 'z' }
  predicate IsLetter(c: char) { IsUpper(c) || IsLower(c) }

  function LowerChar(c: char): (r: char)
    ensures !IsUpper(r)
    ensures IsLetter(r) == IsLetter(c) && IsSpace(r) == IsSpace(c)
    ensures !IsLetter(c) ==> r == c
  {
    if IsUpper(c) then (c as int + 32) as char else c
  }

  function UpperChar(c: char): (r: char)
    ensures !IsLower(r)
    ensures IsLetter(r) == IsLetter(c)
    ensures !IsLetter(c) ==> r == c
  {
    if IsLower(c) then (c as int - 32) as char else c
  }

  /** `str.lower()`. */
  function Lower(s: string): (r: string)
    ensures |r| == |s|
    ensures forall i :: 0 <= i < |s| ==> r[i] == LowerChar(s[i])
  {
    seq(|s|, i requires 0 <= i < |s| => LowerChar(s[i]))
  }

  // ---------------------------------------------------------------------
  // Prefixes, suffixes and substrings
  // ---------------------------------------------------------------------

  predicate StartsWith(s: string, p: string) { |p| <= |s| && s[..|p|] == p }
  predicate EndsWith(s: string, p: string) { |p| <= |s| && s[|s| - |p|..] == p }

  /** `sub in s` for strings. */
  predicate Contains(s: string, sub: string)
    decreases |s|
  {
    StartsWith(s, sub) || (|s| > 0 && Contains(s[1..], sub))
  }

  /** `re.search(word + r"\s+", s)`: an occurrence of `word` followed by a
      whitespace character. */
  predicate ContainsWordThenSpace(s: string, word: string)
    decreases |s|
  {
    (StartsWith(s, word) && |word| < |s| && IsSpace(s[|word|]))
    || (|s| > 0 && ContainsWordThenSpace(s[1..], word))
  }

  lemma {:induction false} ContainsConcat(a: string, b: string, sub: string)
    requires Contains(b, sub)
    ensures Contains(a + b, sub)
    decreases |a|
  {
    if |a| == 0 {
      assert a + b == b;
    } else {
      ContainsConcat(a[1..], b, sub);
      assert (a + b)[1..] == a[1..] + b;
    }
  }

  lemma {:induction false} ContainsPrefix(a: string, b: string, sub: string)
    requires Contains(a, sub)
    ensures Contains(a + b, sub)
    decreases |a|
  {
    if StartsWith(a, sub) {
      assert (a + b)[..|sub|] == a[..|sub|];
    } else {
      ContainsPrefix(a[1..], b, sub);
      assert (a + b)[1..] == a[1..] + b;
    }
  }

  lemma {:induction false} ContainsSlice(s: string, i: nat, j: nat, sub: string)
    requires i <= j <= |s| && Contains(s[i..j], sub)
    ensures Contains(s, sub)
  {
    assert s == s[..i] + s[i..j] + s[j..];
    ContainsPrefix(s[i..j], s[j..], sub);
    assert s[i..j] + s[j..] == s[i..];
    ContainsConcat(s[..i], s[i..], sub);
    assert s[..i] + s[i..] == s;
  }

  /** Index of the first `c` in `s`, or -1 (`str.find`). */
  function IndexOf(s: string, c: char): (r: int)
    ensures -1 <= r < |s|
    ensures r >= 0 ==> s[r] == c
    ensures forall i :: 0 <= i < |s| && (r < 0 || i < r) ==> s[i] != c
    decreases |s|
  {
    if |s| == 0 then -1
    else if s[0] == c then 0
    else var k := IndexOf(s[1..], c); if k < 0 then -1 else k + 1
  }

  /** Index of the last `c` in `s`, or -1 (`str.rfind`). */
  function LastIndexOf(s: string, c: char): (r: int)
    ensures -1 <= r < |s|
    ensures r >= 0 ==> s[r] == c
    ensures forall i :: 0 <= i < |s| && r < i ==> s[i] != c
    decreases |s|
  {
    if |s| == 0 then -1
    else if s[|s| - 1] == c then |s| - 1
    else LastIndexOf(s[..|s| - 1], c)
  }

  // ---------------------------------------------------------------------
  // Stripping
  // ---------------------------------------------------------------------

  function StripLeft(s: string): (r: string)
    ensures |r| <= |s| && r == s[|s| - |r|..]
    ensures r == [] || !IsSpace(r[0])
    ensures forall i :: 0 <= i < |s| - |r| ==> IsSpace(s[i])
    decreases |s|
  {
    if |s| > 0 && IsSpace(s[0]) then StripLeft(s[1..]) else s
  }

  function StripRight(s: string): (r: string)
    ensures |r| <= |s| && r == s[..|r|]
    ensures r == [] || !IsSpace(r[|r| - 1])
    ensures forall i :: |r| <= i < |s| ==> IsSpace(s[i])
    decreases |s|
  {
    if |s| > 0 && IsSpace(s[|s| - 1]) then StripRight(s[..|s| - 1]) else s
  }

  /** `str.strip()`: no whitespace at either end, and what is left is a slice
      of the input. */
  function Strip(s: string): (r: string)
    ensures |r| <= |s|
    ensures r == [] || (!IsSpace(r[0]) && !IsSpace(r[|r| - 1]))
  {
    StripLeft(StripRight(s))
  }

  /** Whatever `strip()` leaves was already in the input. */
  lemma StripKeepsOnlyInput(s: string, sub: string)
    requires Contains(Strip(s), sub)
    ensures Contains(s, sub)
  {
    var t := StripRight(s);
    var r := StripLeft(t);
    ContainsInSuffix(t, |t| - |r|, sub);
    ContainsInPrefix(s, |t|, sub);
  }

  lemma ContainsInSuffix(s: string, k: nat, sub: string)
    requires k <= |s| && Contains(s[k..], sub)
    ensures Contains(s, sub)
  {
    ContainsConcat(s[..k], s[k..], sub);
    assert s[..k] + s[k..] == s;
  }

  lemma ContainsInPrefix(s: string, j: nat, sub: string)
    requires j <= |s| && Contains(s[..j], sub)
    ensures Contains(s, sub)
  {
    ContainsPrefix(s[..j], s[j..], sub);
    assert s[..j] + s[j..] == s;
  }

  /** A string without whitespace at its ends is its own `strip()`. */
  lemma StripOfTrimmed(s: string)
    requires s == [] || (!IsSpace(s[0]) && !IsSpace(s[|s| - 1]))
    ensures Strip(s) == s
  {
  }

  lemma StripLeadingSpace(s: string)
    requires s == [] || (!IsSpace(s[0]) && !IsSpace(s[|s| - 1]))
    ensures Strip(" " + s) == s
  {
    if s == [] {
      assert StripRight(" ") == StripRight("");
    } else {
      assert StripRight(" " + s) == " " + s;
      assert (" " + s)[1..] == s;
    }
  }

  lemma StripTrailingNewline(s: string)
    requires s != [] && !IsSpace(s[0]) && !IsSpace(s[|s| - 1])
    ensures Strip(s + "\n") == s
  {
    assert (s + "\n")[..|s|] == s;
  }

  /** One blank on the left and a newline on the right are both stripped. */
  lemma StripFramed(s: string)
    requires s != [] && !IsSpace(s[0]) && !IsSpace(s[|s| - 1])
    ensures Strip(" " + s + "\n") == s
  {
    var t := " " + s + "\n";
    assert t[..|t| - 1] == " " + s;
    assert StripRight(" " + s) == " " + s;
    assert (" " + s)[1..] == s;
  }

  /** Leading whitespace is stripped across a concatenation: what is left of
      `a`, then `b`, or only what is left of `b` when `a` is all blank. */
  lemma {:induction false} StripLeftAppend(a: string, b: string)
    ensures StripLeft(a + b) == if StripLeft(a) == [] then StripLeft(b) else StripLeft(a) + b
    decreases |a|
  {
    if a == [] {
      assert a + b == b;
    } else if IsSpace(a[0]) {
      assert (a + b)[1..] == a[1..] + b;
      StripLeftAppend(a[1..], b);
    }
  }

  /** A trailing newline after a non-blank end is all `rstrip` removes. */
  lemma StripRightNewline(s: string)
    requires s != [] && !IsSpace(s[|s| - 1])
    ensures StripRight(s + "\n") == s
  {
    assert (s + "\n")[..|s|] == s;
  }

  /** `s.split("\n")[-1]`. */
  function LastLine(s: string): string {
    var lines := Split(s, '\n');
    lines[|lines| - 1]
  }

  /** The last line of the stripped output is its last printed line, less
      the leading blank when everything before that line strips away. */
  lemma LastLineOfOutput(listing: string, core: string)
    requires listing == [] || listing[|listing| - 1] == '\n'
    requires core != [] && !IsSpace(core[0]) && !IsSpace(core[|core| - 1]) && '\n' !in core
    ensures LastLine(Strip(listing + " " + core + "\n")) == core
      || LastLine(Strip(listing + " " + core + "\n")) == " " + core
  {
    StrippedOutput(listing, core);
    LastLineOfStripped(Strip(listing + " " + core + "\n"), core);
  }

  lemma LastLineOfStripped(t: string, core: string)
    requires '\n' !in core
    requires t == core || (|t| >= |core| + 2 && t[|t| - |core| - 2..] == "\n" + (" " + core))
    ensures LastLine(t) == core || LastLine(t) == " " + core
  {
    if t == core {
      SplitWithout(core, '\n');
    } else {
      LastPartAfterNewline(t, " " + core);
    }
  }

  /** A string ending in a newline and then a line has that line last. */
  lemma LastPartAfterNewline(t: string, q: string)
    requires '\n' !in q && |t| >= |q| + 1 && t[|t| - |q| - 1..] == "\n" + q
    ensures var parts := Split(t, '\n'); parts[|parts| - 1] == q
  {
    var p := t[..|t| - |q| - 1];
    assert t == p + t[|t| - |q| - 1..];
    assert t == p + ['\n'] + q;
    SplitLastPart(p, '\n', q);
  }

  /** Stripping the output leaves the last line alone, or without its blank
      when nothing before it is left. */
  lemma StrippedOutput(listing: string, core: string)
    requires listing == [] || listing[|listing| - 1] == '\n'
    requires core != [] && !IsSpace(core[0]) && !IsSpace(core[|core| - 1])
    ensures var t := Strip(listing + " " + core + "\n");
      t == core || (|t| >= |core| + 2 && t[|t| - |core| - 2..] == "\n" + (" " + core))
  {
    var s := " " + core;
    StripOutputRight(listing, core);
    StripLeftAppend(listing, s);
    var l := StripLeft(listing);
    if l == [] {
      StripLeftOneBlank(core);
    } else {
      StripLeftLast(listing);
      NewlineThenLine(l, core);
    }
  }

  lemma StripOutputRight(listing: string, core: string)
    requires core != [] && !IsSpace(core[|core| - 1])
    ensures Strip(listing + " " + core + "\n") == StripLeft(listing + (" " + core))
  {
    var x := listing + (" " + core);
    assert listing + " " + core + "\n" == x + "\n";
    assert x[|x| - 1] == core[|core| - 1];
    StripRightNewline(x);
  }

  lemma StripLeftOneBlank(core: string)
    requires core != [] && !IsSpace(core[0])
    ensures StripLeft(" " + core) == core
  {
    assert (" " + core)[1..] == core;
  }

  /** What `lstrip` leaves of a string ends as the string does. */
  lemma StripLeftLast(s: string)
    requires StripLeft(s) != []
    ensures var l := StripLeft(s); l[|l| - 1] == s[|s| - 1]
  {
  }

  lemma NewlineThenLine(l: string, core: string)
    requires l != [] && l[|l| - 1] == '\n'
    ensures var t := l + (" " + core); |t| >= |core| + 2 && t[|t| - |core| - 2..] == "\n" + (" " + core)
  {
    var t := l + (" " + core);
    assert t[|t| - |core| - 2..] == [l[|l| - 1]] + " " + core;
  }

  /** A string with a non-blank character does not strip to nothing. */
  lemma StripNonBlank(s: string, i: nat)
    requires i < |s| && !IsSpace(s[i])
    ensures Strip(s) != []
  {
    var t := StripRight(s);
    assert i < |t|;
    assert t[i] == s[i];
  }

  /** Trailing whitespace removal commutes with a character in front. */
  lemma {:induction false} StripRightCons(c: char, d: string)
    ensures StripRight([c] + d) == if StripRight(d) == [] then StripRight([c]) else [c] + StripRight(d)
    decreases |d|
  {
    if |d| > 0 && IsSpace(d[|d| - 1]) {
      assert ([c] + d)[..|d|] == [c] + d[..|d| - 1];
      StripRightCons(c, d[..|d| - 1]);
    } else if |d| > 0 {
      assert ([c] + d)[|[c] + d| - 1] == d[|d| - 1];
    } else {
      assert [c] + d == [c];
    }
  }

  /** A blank in front does not change `strip()`. */
  lemma StripSpacePrefix(d: string)
    ensures Strip(" " + d) == Strip(d)
  {
    StripRightCons(' ', d);
    if StripRight(d) != [] {
      assert (" " + StripRight(d))[1..] == StripRight(d);
    } else {
      assert StripRight(" ") == StripRight(" "[..0]);
    }
  }

  /** `s.lower().lower() == s.lower()`. */
  lemma LowerIdempotent(s: string)
    ensures Lower(Lower(s)) == Lower(s)
  {
  }

  /** `str.strip(chars)`. */
  function StripChars(s: string, chars: set<char>): (r: string)
    ensures |r| <= |s|
    ensures r == [] || (r[0] !in chars && r[|r| - 1] !in chars)
    decreases |s|
  {
    if |s| > 0 && s[0] in chars then StripChars(s[1..], chars)
    else if |s| > 0 && s[|s| - 1] in chars then StripChars(s[..|s| - 1], chars)
    else s
  }

  /** Whatever `strip(chars)` leaves was already in the input. */
  lemma {:induction false} StripCharsKeepsOnlyInput(s: string, chars: set<char>, sub: string)
    requires Contains(StripChars(s, chars), sub)
    ensures Contains(s, sub)
    decreases |s|
  {
    if |s| > 0 && s[0] in chars {
      StripCharsKeepsOnlyInput(s[1..], chars, sub);
      assert s[1..|s|] == s[1..];
      ContainsSlice(s, 1, |s|, sub);
    } else if |s| > 0 && s[|s| - 1] in chars {
      StripCharsKeepsOnlyInput(s[..|s| - 1], chars, sub);
      assert s[0..|s| - 1] == s[..|s| - 1];
      ContainsSlice(s, 0, |s| - 1, sub);
    }
  }

  // ---------------------------------------------------------------------
  // Replacing and collapsing
  // ---------------------------------------------------------------------

  /** `str.replace(a, b)` for a one-character `a` and `b`. */
  function ReplaceChar(s: string, a: char, b: char): (r: string)
    ensures |r| == |s|
    ensures forall i :: 0 <= i < |s| ==> r[i] == (if s[i] == a then b else s[i])
  {
    seq(|s|, i requires 0 <= i < |s| => if s[i] == a then b else s[i])
  }

  /** `str.replace(a, "")` for a one-character `a`. */
  function RemoveChar(s: string, a: char): (r: string)
    ensures a !in r
    ensures |r| <= |s|
    ensures forall c :: c in r <==> c in s && c != a
    decreases |s|
  {
    if |s| == 0 then []
    else if s[0] == a then RemoveChar(s[1..], a)
    else [s[0]] + RemoveChar(s[1..], a)
  }
  /** Removing a character from a string with one more character at its
      end. */
  lemma {:induction false} RemoveCharSnoc(s: string, c: char, a: char)
    ensures RemoveChar(s + [c], a) == RemoveChar(s, a) + (if c == a then [] else [c])
    decreases |s|
  {
    if s == [] {
      assert [] + [c] == [c];
      assert [c][1..] == [];
    } else {
      assert (s + [c])[1..] == s[1..] + [c];
      RemoveCharSnoc(s[1..], c, a);
    }
  }

  /** Nothing is removed from a string without the character. */
  lemma {:induction false} RemoveCharAbsent(s: string, a: char)
    requires a !in s
    ensures RemoveChar(s, a) == s
    decreases |s|
  {
    if s != [] {
      RemoveCharAbsent(s[1..], a);
    }
  }


  /** `str.replace(pat, rep)`: non-overlapping occurrences, left to right. */
  function ReplaceAll(s: string, pat: string, rep: string): string
    requires |pat| > 0
    decreases |s|
  {
    if |s| < |pat| then s
    else if s[..|pat|] == pat then rep + ReplaceAll(s[|pat|..], pat, rep)
    else [s[0]] + ReplaceAll(s[1..], pat, rep)
  }

  /** A non-empty sequence is its prefix followed by its last element. */
  lemma SplitLast<T>(s: seq<T>)
    requires s != []
    ensures s[..|s| - 1] + [s[|s| - 1]] == s
  {
  }

  /** `re.sub(r"\s+", " ", s)`: every run of whitespace becomes one space. */
  function CollapseSpaces(s: string): (r: string)
    ensures |r| <= |s|
    ensures (r == []) == (s == [])
    ensures r != [] ==> IsSpace(r[0]) == IsSpace(s[0])
    ensures r != [] ==> IsSpace(r[|r| - 1]) == IsSpace(s[|s| - 1])
    ensures Collapsed(r)
    decreases |s|
  {
    if s == [] then []
    else if IsSpace(s[0]) then
      var t := StripLeft(s);
      var rest := CollapseSpaces(t);
      assert t != [] ==> t[|t| - 1] == s[|s| - 1];
      assert t == [] ==> IsSpace(s[|s| - 1]);
      CollapsedCons(' ', rest);
      " " + rest
    else
      var rest := CollapseSpaces(s[1..]);
      assert s[1..] != [] ==> s[1..][|s| - 2] == s[|s| - 1];
      CollapsedCons(s[0], rest);
      [s[0]] + rest
  }

  lemma CollapsedCons(c: char, r: string)
    requires Collapsed(r)
    requires IsSpace(c) ==> c == ' ' && (r == [] || !IsSpace(r[0]))
    ensures Collapsed([c] + r)
  {
    var s := [c] + r;
    forall i | 0 <= i < |s| ensures CollapsedAt(s, i) {
      if i > 0 {
        assert s[i] == r[i - 1] && CollapsedAt(r, i - 1);
        assert i + 1 < |s| ==> s[i + 1] == r[i];
      }
    }
  }

  /** Every whitespace character is a single space with no whitespace after it. */
  predicate Collapsed(s: string) {
    forall i :: 0 <= i < |s| ==> CollapsedAt(s, i)
  }

  /** Position `i` holds no whitespace, or a single space. */
  predicate CollapsedAt(s: string, i: nat)
    requires i < |s|
  {
    IsSpace(s[i]) ==> s[i] == ' ' && (i + 1 < |s| ==> !IsSpace(s[i + 1]))
  }

  /** A string already collapsed is left as it is. */
  lemma {:induction false} CollapseOfCollapsed(s: string)
    requires Collapsed(s)
    ensures CollapseSpaces(s) == s
    decreases |s|
  {
    if s != [] {
      CollapsedSuffix(s, 1);
      CollapseOfCollapsed(s[1..]);
      if IsSpace(s[0]) {
        assert CollapsedAt(s, 0);
        CollapseLoneSpace(s);
      } else {
        CollapseNonSpace(s);
      }
      assert s == [s[0]] + s[1..];
    }
  }

  /** A leading character other than whitespace is kept as it is. */
  lemma CollapseNonSpace(s: string)
    requires s != [] && !IsSpace(s[0])
    ensures CollapseSpaces(s) == [s[0]] + CollapseSpaces(s[1..])
  {
  }

  /** A lone leading blank is kept as it is. */
  lemma CollapseLoneSpace(s: string)
    requires s != [] && s[0] == ' ' && (|s| > 1 ==> !IsSpace(s[1]))
    ensures CollapseSpaces(s) == " " + CollapseSpaces(s[1..])
  {
    if |s| > 1 {
      assert StripLeft(s[1..]) == s[1..];
    }
  }

  /** A suffix of a collapsed string is collapsed. */
  lemma CollapsedSuffix(s: string, k: nat)
    requires Collapsed(s) && k <= |s|
    ensures Collapsed(s[k..])
  {
    forall i | 0 <= i < |s[k..]| ensures CollapsedAt(s[k..], i) {
      assert s[k..][i] == s[k + i] && CollapsedAt(s, k + i);
      assert i + 1 < |s[k..]| ==> s[k..][i + 1] == s[k + i + 1];
    }
  }

  // ---------------------------------------------------------------------
  // Splitting and joining
  // ---------------------------------------------------------------------

  /** `s.split(c)`: at least one part, none of which contains `c`. */
  function Split(s: string, c: char): (parts: seq<string>)
    ensures |parts| >= 1
    ensures forall p :: p in parts ==> c !in p
    decreases |s|
  {
    var i := IndexOf(s, c);
    if i < 0 then [s] else [s[..i]] + Split(s[i + 1..], c)
  }

  /** `sep.join(parts)`. */
  function Join(parts: seq<string>, sep: string): string
    decreases |parts|
  {
    if |parts| == 0 then ""
    else if |parts| == 1 then parts[0]
    else parts[0] + sep + Join(parts[1..], sep)
  }

  lemma {:induction false} JoinAppend(parts: seq<string>, last: string, sep: string)
    requires |parts| > 0
    ensures Join(parts + [last], sep) == Join(parts, sep) + sep + last
    decreases |parts|
  {
    if |parts| == 1 {
      assert parts + [last] == [parts[0], last];
    } else {
      assert (parts + [last])[1..] == parts[1..] + [last];
      JoinAppend(parts[1..], last, sep);
    }
  }

  lemma {:induction false} JoinConcat(a: seq<string>, b: seq<string>, sep: string)
    requires |a| > 0 && |b| > 0
    ensures Join(a + b, sep) == Join(a, sep) + sep + Join(b, sep)
    decreases |a|
  {
    if |a| == 1 {
      assert (a + b)[1..] == b;
    } else {
      assert (a + b)[1..] == a[1..] + b;
      JoinConcat(a[1..], b, sep);
    }
  }

  /** The first `c` of `p + [c] + t` when `p` has none. */
  lemma FirstSeparator(p: string, c: char, t: string)
    requires c !in p
    ensures IndexOf(p + [c] + t, c) == |p|
    ensures (p + [c] + t)[..|p|] == p && (p + [c] + t)[|p| + 1..] == t
  {
    var s := p + [c] + t;
    assert s[|p|] == c;
    assert forall i :: 0 <= i < |p| ==> s[i] == p[i];
  }

  /** Splitting undoes joining when no part holds the separator. */
  lemma {:induction false} SplitJoin(parts: seq<string>, c: char)
    requires |parts| > 0
    requires forall p :: p in parts ==> c !in p
    ensures Split(Join(parts, [c]), c) == parts
    decreases |parts|
  {
    if |parts| == 1 {
      assert c !in parts[0];
    } else {
      var p := parts[0];
      var t := Join(parts[1..], [c]);
      assert parts == [p] + parts[1..];
      JoinCons(p, parts[1..], [c]);
      assert p in parts;
      FirstSeparator(p, c, t);
      assert Split(p + [c] + t, c) == [p] + Split(t, c);
      assert forall q :: q in parts[1..] ==> q in parts;
      SplitJoin(parts[1..], c);
    }
  }

  /** Joining undoes splitting. */
  lemma {:induction false} JoinSplit(s: string, c: char)
    ensures Join(Split(s, c), [c]) == s
    decreases |s|
  {
    var i := IndexOf(s, c);
    if i >= 0 {
      JoinCons(s[..i], Split(s[i + 1..], c), [c]);
      JoinSplit(s[i + 1..], c);
      SplitAround(s, i);
    }
  }

  lemma JoinCons(head: string, rest: seq<string>, sep: string)
    requires |rest| >= 1
    ensures Join([head] + rest, sep) == head + sep + Join(rest, sep)
  {
    assert ([head] + rest)[1..] == rest;
  }

  /** The last part of a split is what follows the last separator. */
  lemma {:induction false} SplitLastPart(p: string, c: char, q: string)
    requires c !in q
    ensures var parts := Split(p + [c] + q, c); parts[|parts| - 1] == q
    decreases |p|
  {
    var s := p + [c] + q;
    var i := IndexOf(s, c);
    assert s[|p|] == c;
    assert 0 <= i <= |p|;
    if i == |p| {
      assert s[..i] == p && s[i + 1..] == q;
      SplitWithout(q, c);
    } else {
      assert s[i + 1..] == p[i + 1..] + [c] + q;
      SplitLastPart(p[i + 1..], c, q);
    }
  }

  /** A string without the separator splits into itself alone. */
  lemma SplitWithout(s: string, c: char)
    requires c !in s
    ensures Split(s, c) == [s]
  {
  }

  lemma SplitAround(s: string, i: nat)
    requires i < |s|
    ensures s == s[..i] + [s[i]] + s[i + 1..]
  {
  }

  function Take<T>(n: nat, s: seq<T>): (r: seq<T>)
    ensures |r| <= n && |r| <= |s|
    ensures |s| <= n ==> r == s
    ensures r == s[..|r|]
  {
    if |s| <= n then s else s[..n]
  }

  /** Python's `s[:n]`, where a negative `n` counts from the end. */
  function PySliceTo<T>(s: seq<T>, n: int): (r: seq<T>)
    ensures 0 <= n ==> r == Take(n, s)
    ensures n < 0 ==> |r| == if |s| + n < 0 then 0 else |s| + n
  {
    if n >= 0 then Take(n, s)
    else if |s| + n < 0 then []
    else s[..|s| + n]
  }

  // ---------------------------------------------------------------------
  // Decimal numerals
  // ---------------------------------------------------------------------

  function DigitChar(d: nat): (c: char)
    requires d < 10
    ensures IsDigit(c) && c as int - '0' as int == d
  {
    ('0' as int + d) as char
  }

  /** `str(n)` for a natural number. */
  function NatToString(n: nat): (r: string)
    ensures |r| > 0
    ensures forall i :: 0 <= i < |r| ==> IsDigit(r[i])
    decreases n
  {
    if n < 10 then [DigitChar(n)] else NatToString(n / 10) + [DigitChar(n % 10)]
  }

  predicate AllDigits(s: string) { forall i :: 0 <= i < |s| ==> IsDigit(s[i]) }

  /** `int(s)` for a string of decimal digits. */
  function DigitsValue(s: string): nat
    requires AllDigits(s)
    decreases |s|
  {
    if s == [] then 0 else DigitsValue(s[..|s| - 1]) * 10 + (s[|s| - 1] as int - '0' as int)
  }

  lemma {:induction false} DigitsValueOfNatToString(n: nat)
    ensures DigitsValue(NatToString(n)) == n
    decreases n
  {
    if n >= 10 {
      var s := NatToString(n);
      assert s[..|s| - 1] == NatToString(n / 10);
      DigitsValueOfNatToString(n / 10);
    }
  }

  // ---------------------------------------------------------------------
  // Ordering of strings (Python compares code points lexicographically)
  // ---------------------------------------------------------------------

  predicate Less(a: string, b: string)
    decreases |a|
  {
    |b| > 0 && (|a| == 0 || a[0] < b[0] || (a[0] == b[0] && Less(a[1..], b[1..])))
  }

  lemma {:induction false} LessIrreflexive(a: string)
    ensures !Less(a, a)
    decreases |a|
  {
    if |a| > 0 { LessIrreflexive(a[1..]); }
  }

  lemma {:induction false} LessTransitive(a: string, b: string, c: string)
    requires Less(a, b) && Less(b, c)
    ensures Less(a, c)
    decreases |a|
  {
    if |a| > 0 && a[0] == b[0] && b[0] == c[0] {
      LessTransitive(a[1..], b[1..], c[1..]);
    }
  }

  lemma {:induction false} LessTotal(a: string, b: string)
    requires a != b
    ensures Less(a, b) || Less(b, a)
    decreases |a|
  {
    if |a| > 0 && |b| > 0 && a[0] == b[0] {
      assert a == [a[0]] + a[1..] && b == [b[0]] + b[1..];
      LessTotal(a[1..], b[1..]);
    }
  }

  lemma LessAsymmetric(a: string, b: string)
    requires Less(a, b)
    ensures !Less(b, a)
  {
    if Less(b, a) { LessTransitive(a, b, a); LessIrreflexive(a); }
  }

  /** Strictly increasing, hence free of duplicates. */
  predicate StrictlySorted(s: seq<string>) {
    forall i, j :: 0 <= i < j < |s| ==> Less(s[i], s[j])
  }

  function Elems(s: seq<string>): set<string> { set x | x in s }

  /** Adding `x` to a set kept as a strictly sorted sequence. */
  function InsertSorted(s: seq<string>, x: string): (r: seq<string>)
    requires StrictlySorted(s)
    ensures StrictlySorted(r)
    ensures Elems(r) == Elems(s) + {x}
    decreases |s|
  {
    if s == [] then [x]
    else if x == s[0] then
      ElemsCons(s);
      s
    else if Less(x, s[0]) then
      BelowHead(s, x);
      SortedCons(x, s);
      ElemsCons([x] + s);
      assert ([x] + s)[1..] == s;
      [x] + s
    else
      LessTotal(x, s[0]);
      var rest := InsertSorted(s[1..], x);
      HeadBelowInserted(s, x, rest);
      SortedCons(s[0], rest);
      ElemsCons([s[0]] + rest);
      assert ([s[0]] + rest)[1..] == rest;
      ElemsCons(s);
      [s[0]] + rest
  }

  lemma ElemsCons(s: seq<string>)
    requires s != []
    ensures Elems(s) == {s[0]} + Elems(s[1..])
  {
    assert s == [s[0]] + s[1..];
  }

  lemma SortedCons(y: string, rest: seq<string>)
    requires StrictlySorted(rest) && forall z :: z in rest ==> Less(y, z)
    ensures StrictlySorted([y] + rest)
  {
    var r := [y] + rest;
    forall i, j | 0 <= i < j < |r| ensures Less(r[i], r[j]) {
      assert r[j] == rest[j - 1];
      if i > 0 {
        assert r[i] == rest[i - 1];
      } else {
        assert rest[j - 1] in rest;
      }
    }
  }

  /** Below the head of a sorted sequence is below all of it. */
  lemma BelowHead(s: seq<string>, x: string)
    requires s != [] && StrictlySorted(s) && Less(x, s[0])
    ensures forall z :: z in s ==> Less(x, z)
  {
    forall z | z in s ensures Less(x, z) {
      var j :| 0 <= j < |s| && s[j] == z;
      if j > 0 { LessTransitive(x, s[0], s[j]); }
    }
  }

  /** The head stays below the rest after something above it is inserted. */
  lemma HeadBelowInserted(s: seq<string>, x: string, rest: seq<string>)
    requires s != [] && StrictlySorted(s) && Less(s[0], x)
    requires Elems(rest) == Elems(s[1..]) + {x}
    ensures forall z :: z in rest ==> Less(s[0], z)
  {
    forall z | z in rest ensures Less(s[0], z) {
      assert z in Elems(rest);
      if z != x {
        assert z in Elems(s[1..]);
        var j :| 0 <= j < |s[1..]| && s[1..][j] == z;
        assert s[j + 1] == z;
      }
    }
  }

}
