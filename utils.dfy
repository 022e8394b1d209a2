/**
 * String helpers for file and folder names (utils.py): filename sanitising,
 * unique folder names with a " (n)" suffix, recognising such names, and the
 * ending of a resource file name.
 */
module Utils {
  import opened FileSystem
  import opened Wrappers

  // ---------------------------------------------------------------------------
  // Characters and digits

  predicate IsDigit(c: char) { '0' <= c <= '9' }

  predicate AllDigits(s: string) { forall i :: 0 <= i < |s| ==> IsDigit(s[i]) }

  /** The decimal text of `n`, as `f"{n}"` prints it. */
  function NatToString(n: nat): (r: string)
    ensures |r| > 0 && AllDigits(r)
    ensures n < 10 <==> |r| == 1
    decreases n
  {
    if n < 10 then [DigitChar(n)] else NatToString(n / 10) + [DigitChar(n % 10)]
  }

  function DigitChar(d: nat): (c: char)
    requires d < 10
    ensures IsDigit(c) && c as int == '0' as int + d
  {
    ['0', '1', '2', '3', '4', '5', '6', '7', '8', '9'][d]
  }

  /** Distinct numbers print differently, so suffixed names never collide. */
  lemma {:induction false} NatToStringInjective(a: nat, b: nat)
    requires NatToString(a) == NatToString(b)
    ensures a == b
  {
    if a >= 10 && b >= 10 {
      var sa, sb := NatToString(a), NatToString(b);
      assert sa[..|sa| - 1] == NatToString(a / 10);
      assert sb[..|sb| - 1] == NatToString(b / 10);
      NatToStringInjective(a / 10, b / 10);
      assert DigitChar(a % 10) == sa[|sa| - 1] == DigitChar(b % 10);
    }
  }

  function DigitValue(c: char): (d: nat)
    requires IsDigit(c)
    ensures d < 10 && DigitChar(d) == c
  {
    (c as int - '0' as int) as nat
  }

  /** The value of a string of decimal digits. */
  function DigitsValue(s: string): nat
    requires AllDigits(s)
  {
    if s == [] then 0 else DigitsValue(s[..|s| - 1]) * 10 + DigitValue(s[|s| - 1])
  }

  /** `int(s)` on a string: the value of a non-empty run of ASCII digits, otherwise the
      ValueError that `int` raises (None). */
  function ParseInt(s: string): (r: Option<int>)
    ensures r.Some? <==> |s| > 0 && AllDigits(s)
    ensures r.Some? ==> r.value >= 0
  {
    if |s| > 0 && AllDigits(s) then Some(DigitsValue(s)) else None
  }

  /** Parsing the printed form of a number gives the number back. */
  lemma {:induction false} ParsePrinted(n: nat)
    ensures ParseInt(NatToString(n)) == Some(n)
  {
    var s := NatToString(n);
    if n >= 10 {
      ParsePrinted(n / 10);
      assert s[..|s| - 1] == NatToString(n / 10);
    } else {
      assert s == [DigitChar(n)];
      assert s[..|s| - 1] == [];
      assert DigitsValue(s) == DigitValue(DigitChar(n));
    }
  }

  /** `str(song_id)` and `f"{song_id}"`: the id in decimal. */
  function IdText(id: int): (r: string)
    ensures id >= 0 ==> AllDigits(r) && ParseInt(r) == Some(id)
    ensures id < 0 ==> |r| > 1 && r[0] == '-' && ParseInt(r[1..]) == Some(-id)
  {
    if id >= 0 then
      ParsePrinted(id);
      NatToString(id)
    else
      ParsePrinted(-id);
      assert ("-" + NatToString(-id))[1..] == NatToString(-id);
      "-" + NatToString(-id)
  }

  /** `needle in hay` on strings. */
  predicate Contains(hay: string, needle: string) {
    exists i :: 0 <= i <= |hay| && MatchAt(hay, needle, i)
  }

  /** `needle` occurs in `hay` at index `i`. */
  predicate MatchAt(hay: string, needle: string, i: nat) {
    i + |needle| <= |hay| && hay[i..i + |needle|] == needle
  }

  /** A substring of a substring is a substring. */
  lemma ContainsTransitive(a: string, b: string, c: string)
    requires Contains(a, b) && Contains(b, c)
    ensures Contains(a, c)
  {
    var i :| 0 <= i <= |a| && MatchAt(a, b, i);
    var j :| 0 <= j <= |b| && MatchAt(b, c, j);
    assert a[i..i + |b|] == b;
    forall k | 0 <= k < |c|
      ensures a[i + j + k] == c[k]
    {
      assert a[i + j + k] == a[i..i + |b|][j + k] == b[j + k];
      assert b[j..j + |c|][k] == b[j + k];
    }
    assert MatchAt(a, c, i + j);
  }

  /** The empty string occurs in every string. */
  lemma ContainsEmpty(s: string)
    ensures Contains(s, "")
  {
    assert MatchAt(s, "", 0);
  }

  /** Taking one more element of `s` appends it to what was taken so far. */
  lemma TakeOneMore<T>(pre: seq<T>, s: seq<T>, i: nat)
    requires i < |s|
    ensures (pre + s[..i]) + [s[i]] == pre + s[..i + 1]
  {
    assert s[..i + 1] == s[..i] + [s[i]];
  }

  predicate StartsWith(s: string, prefix: string) {
    |prefix| <= |s| && s[..|prefix|] == prefix
  }

  /** `s.count(pat)` for a non-empty pattern: the matches found scanning left to right
      without overlap (`CountPositiveIffContains` relates it to `pat in s`). */
  function CountOccurrences(s: string, pat: string): nat
    requires |pat| > 0
    decreases |s|
  {
    if |s| < |pat| then 0
    else if StartsWith(s, pat) then 1 + CountOccurrences(s[|pat|..], pat)
    else CountOccurrences(s[1..], pat)
  }

  /** The count is positive exactly when the pattern occurs at all. */
  lemma {:induction false} CountPositiveIffContains(s: string, pat: string)
    requires |pat| > 0
    ensures CountOccurrences(s, pat) > 0 <==> Contains(s, pat)
    decreases |s|
  {
    if |s| < |pat| {
      TooShortContainsNothing(s, pat);
    } else if StartsWith(s, pat) {
      assert MatchAt(s, pat, 0);
    } else {
      CountPositiveIffContains(s[1..], pat);
      ContainsPastFirst(s, pat);
    }
  }

  /** A match at the front is counted and scanning resumes after it. */
  lemma CountLeadingMatch(pat: string, rest: string)
    requires |pat| > 0
    ensures CountOccurrences(pat + rest, pat) == 1 + CountOccurrences(rest, pat)
  {
    var s := pat + rest;
    assert s[..|pat|] == pat;
    assert s[|pat|..] == rest;
  }

  /** `pat * n`: `n` copies of `pat` in a row. */
  function Repeated(pat: string, n: nat): string {
    if n == 0 then "" else pat + Repeated(pat, n - 1)
  }

  /** `n` copies of a pattern in front of a text add `n` to the pattern's count. */
  lemma {:induction false} CountRepeated(pat: string, n: nat, t: string)
    requires |pat| > 0
    ensures CountOccurrences(Repeated(pat, n) + t, pat) == n + CountOccurrences(t, pat)
  {
    var s := Repeated(pat, n) + t;
    if n == 0 {
      assert s == t;
    } else {
      var rest := Repeated(pat, n - 1) + t;
      assert s == pat + rest;
      assert CountOccurrences(s, pat) == 1 + CountOccurrences(rest, pat) by {
        CountLeadingMatch(pat, rest);
      }
      CountRepeated(pat, n - 1, t);
    }
  }

  lemma TooShortContainsNothing(s: string, pat: string)
    requires |s| < |pat|
    ensures !Contains(s, pat)
  {
  }

  /** A pattern that does not start the string occurs in it iff it occurs after its first character. */
  lemma ContainsPastFirst(s: string, pat: string)
    requires |pat| > 0 && |s| >= |pat| && !StartsWith(s, pat)
    ensures Contains(s, pat) <==> Contains(s[1..], pat)
  {
    if Contains(s, pat) {
      var i :| 0 <= i <= |s| && MatchAt(s, pat, i);
      assert i != 0;
      assert s[1..][i - 1..i - 1 + |pat|] == pat;
      assert MatchAt(s[1..], pat, i - 1);
    }
    if Contains(s[1..], pat) {
      var i :| 0 <= i <= |s| - 1 && MatchAt(s[1..], pat, i);
      assert s[i + 1..i + 1 + |pat|] == pat;
      assert MatchAt(s, pat, i + 1);
    }
  }

  // ---------------------------------------------------------------------------
  // sanitize_filename

  /** FILENAME_REPLACEMENTS: each character of the first string becomes the second. */
  const FilenameReplacements: seq<(string, string)> :=
    [("?:\"", ""), ("<", "("), (">", ")"), ("/\\|*", "-")]

  /** Every character some replacement removes. */
  const ForbiddenChars: string := "?:\"<>/\\|*"

  /** `s.replace(c, repl)` for a one-character pattern. */
  function ReplaceChar(s: string, c: char, repl: string): (r: string)
    decreases |s|
  {
    if s == [] then [] else (if s[0] == c then repl else [s[0]]) + ReplaceChar(s[1..], c, repl)
  }

  /** `for char in olds: s = s.replace(char, repl)`. */
  function ReplaceEach(s: string, olds: string, repl: string): string
    decreases |olds|
  {
    if olds == [] then s
    else ReplaceChar(ReplaceEach(s, olds[..|olds| - 1], repl), olds[|olds| - 1], repl)
  }

  /** The replacement pairs applied in order. */
  function ApplyReplacements(s: string, rs: seq<(string, string)>): string
    decreases |rs|
  {
    if rs == [] then s
    else
      var last := rs[|rs| - 1];
      ReplaceEach(ApplyReplacements(s, rs[..|rs| - 1]), last.0, last.1)
  }

  function EndsWith(s: string, suffix: string): bool {
    |s| >= |suffix| && s[|s| - |suffix|..] == suffix
  }

  /** `s.rstrip(chars)`. */
  function RStrip(s: string, chars: string): (r: string)
    ensures |r| <= |s| && r == s[..|r|]
    ensures |r| > 0 ==> r[|r| - 1] !in chars
    decreases |s|
  {
    if |s| > 0 && s[|s| - 1] in chars then RStrip(s[..|s| - 1], chars) else s
  }

  /** What `sanitize_filename` returns. */
  function Sanitized(fname: string): (r: string)
    ensures |r| > 0 ==> r[|r| - 1] != '.'
  {
    var t := ApplyReplacements(fname, FilenameReplacements);
    if EndsWith(t, ".") then RStrip(t, " .") else t
  }

  predicate NoForbidden(s: string) {
    forall i :: 0 <= i < |s| ==> s[i] !in ForbiddenChars
  }

  lemma {:induction false} ReplaceCharRemoves(s: string, c: char, repl: string)
    requires c !in repl
    ensures c !in ReplaceChar(s, c, repl)
    decreases |s|
  {
    if s != [] { ReplaceCharRemoves(s[1..], c, repl); }
  }

  lemma {:induction false} ReplaceCharKeepsAbsent(s: string, c: char, repl: string, d: char)
    requires d !in s && d !in repl
    ensures d !in ReplaceChar(s, c, repl)
    decreases |s|
  {
    if s != [] { ReplaceCharKeepsAbsent(s[1..], c, repl, d); }
  }

  lemma {:induction false} ReplaceCharNoop(s: string, c: char, repl: string)
    requires c !in s
    ensures ReplaceChar(s, c, repl) == s
    decreases |s|
  {
    if s != [] { ReplaceCharNoop(s[1..], c, repl); }
  }

  /** After `ReplaceEach`, none of `olds` is left, and a character absent before and
      not introduced stays absent. */
  lemma {:induction false} ReplaceEachRemoves(s: string, olds: string, repl: string, d: char)
    requires forall c :: c in olds ==> c !in repl
    requires d in olds || (d !in s && d !in repl)
    ensures d !in ReplaceEach(s, olds, repl)
    decreases |olds|
  {
    if olds != [] {
      var init, c := olds[..|olds| - 1], olds[|olds| - 1];
      if d == c {
        ReplaceCharRemoves(ReplaceEach(s, init, repl), c, repl);
      } else {
        assert d in init || (d !in s && d !in repl);
        ReplaceEachRemoves(s, init, repl, d);
        ReplaceCharKeepsAbsent(ReplaceEach(s, init, repl), c, repl, d);
      }
    }
  }

  lemma {:induction false} ReplaceEachNoop(s: string, olds: string, repl: string)
    requires forall c :: c in olds ==> c !in s
    ensures ReplaceEach(s, olds, repl) == s
    decreases |olds|
  {
    if olds != [] {
      ReplaceEachNoop(s, olds[..|olds| - 1], repl);
      ReplaceCharNoop(s, olds[|olds| - 1], repl);
    }
  }

  /** The replacement strings never introduce a character some pair replaces. */
  predicate NoReintroduction(rs: seq<(string, string)>) {
    forall i, j, c :: 0 <= i < |rs| && 0 <= j < |rs| && c in rs[j].0 ==> c !in rs[i].1
  }

  predicate Replaced(rs: seq<(string, string)>, d: char) {
    exists i :: 0 <= i < |rs| && d in rs[i].0
  }

  lemma {:induction false} ApplyReplacementsRemoves(s: string, rs: seq<(string, string)>, d: char)
    requires NoReintroduction(rs)
    requires Replaced(rs, d)
    ensures d !in ApplyReplacements(s, rs)
    decreases |rs|
  {
    var init, last := rs[..|rs| - 1], rs[|rs| - 1];
    assert NoReintroduction(init);
    forall c | c in last.0 ensures c !in last.1 {
      assert c in rs[|rs| - 1].0;
    }
    if d in last.0 {
      ReplaceEachRemoves(ApplyReplacements(s, init), last.0, last.1, d);
    } else {
      var i :| 0 <= i < |rs| && d in rs[i].0;
      assert i < |rs| - 1 && init[i] == rs[i];
      ApplyReplacementsRemoves(s, init, d);
      assert d !in last.1 by { assert d in rs[i].0; }
      ReplaceEachRemoves(ApplyReplacements(s, init), last.0, last.1, d);
    }
  }

  lemma {:induction false} ApplyReplacementsNoop(s: string, rs: seq<(string, string)>)
    requires forall d :: Replaced(rs, d) ==> d !in s
    ensures ApplyReplacements(s, rs) == s
    decreases |rs|
  {
    if rs != [] {
      var init, last := rs[..|rs| - 1], rs[|rs| - 1];
      forall d | Replaced(init, d) ensures d !in s {
        var i :| 0 <= i < |init| && d in init[i].0;
        assert rs[i] == init[i];
      }
      ApplyReplacementsNoop(s, init);
      forall c | c in last.0 ensures c !in s {
        assert Replaced(rs, c) by { assert c in rs[|rs| - 1].0; }
      }
      ReplaceEachNoop(s, last.0, last.1);
    }
  }

  lemma FilenameReplacementsFacts()
    ensures NoReintroduction(FilenameReplacements)
    ensures forall d :: Replaced(FilenameReplacements, d) <==> d in ForbiddenChars
  {
    var rs := FilenameReplacements;
    forall d | d in ForbiddenChars ensures Replaced(rs, d) {
      if d in rs[0].0 {} else if d in rs[1].0 {} else if d in rs[2].0 {} else {
        assert d in rs[3].0;
      }
    }
  }

  /** sanitize_filename leaves none of `? : " < > / \ | *` and never ends with ".". */
  lemma SanitizedIsClean(fname: string)
    ensures NoForbidden(Sanitized(fname))
    ensures !EndsWith(Sanitized(fname), ".")
  {
    var t := ApplyReplacements(fname, FilenameReplacements);
    FilenameReplacementsFacts();
    forall d | d in ForbiddenChars ensures d !in t {
      ApplyReplacementsRemoves(fname, FilenameReplacements, d);
    }
    if EndsWith(t, ".") {
      var r := RStrip(t, " .");
      forall i | 0 <= i < |r| ensures r[i] !in ForbiddenChars {
        assert r[i] == t[i];
      }
    }
  }

  /** A second pass of sanitize_filename finds nothing to replace or strip. */
  lemma SanitizedIdempotent(fname: string)
    ensures Sanitized(Sanitized(fname)) == Sanitized(fname)
  {
    var s := Sanitized(fname);
    SanitizedIsClean(fname);
    FilenameReplacementsFacts();
    forall d | Replaced(FilenameReplacements, d) ensures d !in s {
      assert forall i :: 0 <= i < |s| ==> s[i] != d;
    }
    ApplyReplacementsNoop(s, FilenameReplacements);
  }

  /** `sanitize_filename`: the replacement loops reassign `fname`, then trailing
      periods and spaces are stripped if the name ends with a period. */
  method SanitizeFilename(name: string) returns (fname: string)
    ensures fname == Sanitized(name)
    ensures NoForbidden(fname) && !EndsWith(fname, ".")
  {
    fname := name;
    for i := 0 to |FilenameReplacements|
      invariant fname == ApplyReplacements(name, FilenameReplacements[..i])
    {
      var (olds, repl) := FilenameReplacements[i];
      ghost var before := fname;
      for j := 0 to |olds|
        invariant fname == ReplaceEach(before, olds[..j], repl)
      {
        assert olds[..j + 1][..j] == olds[..j];
        fname := ReplaceChar(fname, olds[j], repl);
      }
      assert olds[..|olds|] == olds;
      assert FilenameReplacements[..i + 1][..i] == FilenameReplacements[..i];
    }
    assert FilenameReplacements[..|FilenameReplacements|] == FilenameReplacements;
    if EndsWith(fname, ".") {
      fname := RStrip(fname, " .");
    }
    SanitizedIsClean(name);
  }

  // ---------------------------------------------------------------------------
  // next_unique_directory and is_name_maybe_with_suffix

  /** The sibling of `path` named "<name> (<n>)". */
  function Suffixed(path: Dir, n: nat): (r: Dir)
    requires |path| > 0
    ensures Parent(r) == Parent(path)
  {
    WithName(path, DirName(path) + " (" + NatToString(n) + ")")
  }

  lemma SuffixedInjective(path: Dir, a: nat, b: nat)
    requires |path| > 0 && Suffixed(path, a) == Suffixed(path, b)
    ensures a == b
  {
    var na := DirName(path) + " (" + NatToString(a) + ")";
    var nb := DirName(path) + " (" + NatToString(b) + ")";
    assert na == DirName(Suffixed(path, a)) == DirName(Suffixed(path, b)) == nb;
    var k := |DirName(path)| + 2;
    assert NatToString(a) == na[k..|na| - 1];
    assert NatToString(b) == nb[k..|nb| - 1];
    NatToStringInjective(a, b);
  }

  lemma SuffixedIsNotPath(path: Dir, n: nat)
    requires |path| > 0
    ensures Suffixed(path, n) != path
  {
    assert |DirName(Suffixed(path, n))| > |DirName(path)|;
  }

  /** The first `k` suffixed siblings. */
  function SuffixedUpTo(path: Dir, k: nat): set<Dir>
    requires |path| > 0
  {
    if k == 0 then {} else SuffixedUpTo(path, k - 1) + {Suffixed(path, k)}
  }

  lemma {:induction false} SuffixedNotBelow(path: Dir, k: nat, m: nat)
    requires |path| > 0 && m < k
    ensures Suffixed(path, k) !in SuffixedUpTo(path, m)
  {
    if m > 0 {
      SuffixedNotBelow(path, k, m - 1);
      if Suffixed(path, k) == Suffixed(path, m) {
        SuffixedInjective(path, k, m);
      }
    }
  }

  lemma {:induction false} SuffixedUpToCard(path: Dir, k: nat)
    requires |path| > 0
    ensures |SuffixedUpTo(path, k)| == k
  {
    if k > 0 {
      SuffixedUpToCard(path, k - 1);
      SuffixedNotBelow(path, k, k - 1);
    }
  }

  lemma {:induction false} SuffixedUpToWithin(path: Dir, existing: set<Dir>, k: nat)
    requires |path| > 0
    requires forall j :: 1 <= j <= k ==> Suffixed(path, j) in existing
    ensures SuffixedUpTo(path, k) <= existing
  {
    if k > 0 {
      SuffixedUpToWithin(path, existing, k - 1);
    }
  }

  /** When the first `k` suffixed siblings all exist, at least `k` paths exist. */
  lemma ExistingBound(path: Dir, existing: set<Dir>, k: nat)
    requires |path| > 0
    requires forall j :: 1 <= j <= k ==> Suffixed(path, j) in existing
    ensures |existing| >= k
  {
    SuffixedUpToCard(path, k);
    SuffixedUpToWithin(path, existing, k);
    var u := SuffixedUpTo(path, k);
    assert existing == u + (existing - u);
  }

  /** The first suffixed sibling from number `k` on that does not exist. */
  function NextUniqueFrom(path: Dir, existing: set<Dir>, k: nat): (r: Dir)
    requires |path| > 0 && k >= 1
    requires forall j :: 1 <= j < k ==> Suffixed(path, j) in existing
    ensures r !in existing
    ensures exists n :: (n >= k && r == Suffixed(path, n)
      && forall j :: 1 <= j < n ==> Suffixed(path, j) in existing)
    decreases |existing| + 1 - k
  {
    if Suffixed(path, k) !in existing then Suffixed(path, k)
    else
      ExistingBound(path, existing, k);
      NextUniqueFrom(path, existing, k + 1)
  }

  /** What `next_unique_directory(path)` returns when `existing` are the paths that exist. */
  function NextUnique(path: Dir, existing: set<Dir>): (r: Dir)
    requires |path| > 0
    ensures r !in existing
    ensures path !in existing ==> r == path
  {
    if path !in existing then path else NextUniqueFrom(path, existing, 1)
  }

  /** `next_unique_directory` returns `path` if it is free, else "name (n)" for the
      smallest n >= 1 that is free; either way a sibling that does not exist. */
  lemma NextUniqueSpec(path: Dir, existing: set<Dir>)
    requires |path| > 0
    ensures NextUnique(path, existing) !in existing
    ensures Parent(NextUnique(path, existing)) == Parent(path)
    ensures NextUnique(path, existing) == path <==> path !in existing
    ensures NextUnique(path, existing) != path ==>
      exists n :: n >= 1 && NextUnique(path, existing) == Suffixed(path, n)
        && forall j :: 1 <= j < n ==> Suffixed(path, j) in existing
  {
    if path in existing {
      var n :| n >= 1 && NextUnique(path, existing) == Suffixed(path, n)
        && forall j :: 1 <= j < n ==> Suffixed(path, j) in existing;
      SuffixedIsNotPath(path, n);
    }
  }

  /** `next_unique_directory`: bumps `suffix` until the suffixed name is free. */
  method NextUniqueDirectory(path: Dir, existing: set<Dir>) returns (outPath: Dir)
    requires |path| > 0
    ensures outPath == NextUnique(path, existing)
    ensures outPath !in existing
  {
    outPath := path;
    var suffix: nat := 0;
    while outPath in existing
      invariant suffix == 0 ==> outPath == path
      invariant suffix >= 1 ==> path in existing && outPath == Suffixed(path, suffix)
      invariant forall j :: 1 <= j < suffix ==> Suffixed(path, j) in existing
      invariant suffix >= 1 ==> NextUniqueFrom(path, existing, suffix) == NextUnique(path, existing)
      decreases |existing| + 1 - suffix
    {
      ExistingBound(path, existing, suffix);
      suffix := suffix + 1;
      outPath := WithName(path, DirName(path) + " (" + NatToString(suffix) + ")");
    }
    NextUniqueSpec(path, existing);
  }

  /** The regex ` \(\d+\)`: a space, then digits in parentheses. */
  predicate IsParenNumber(tail: string) {
    |tail| >= 4 && tail[0] == ' ' && tail[1] == '(' && tail[|tail| - 1] == ')'
    && AllDigits(tail[2..|tail| - 1])
  }

  /** `is_name_maybe_with_suffix`: `text` is `name` or "name (digits)". */
  function IsNameMaybeWithSuffix(text: string, name: string): (r: bool)
    ensures r <==> (text == name
      || exists digits :: |digits| > 0 && AllDigits(digits) && text == name + " (" + digits + ")")
  {
    if !(|text| >= |name| && text[..|name|] == name) then
      assert forall digits :: text != name + " (" + digits + ")" by {
        forall digits ensures text != name + " (" + digits + ")" {
          var t := name + " (" + digits + ")";
          assert t[..|name|] == name;
        }
      }
      false
    else
      var tail := text[|name|..];
      if tail == [] then
        assert text == name;
        true
      else if IsParenNumber(tail) then
        var digits := tail[2..|tail| - 1];
        assert text == name + " (" + digits + ")";
        true
      else
        assert forall digits :: |digits| > 0 && AllDigits(digits) ==> text != name + " (" + digits + ")" by {
          forall digits | |digits| > 0 && AllDigits(digits) ensures text != name + " (" + digits + ")" {
            var t := name + " (" + digits + ")";
            var tt := t[|name|..];
            assert tt == " (" + digits + ")";
            assert tt[2..|tt| - 1] == digits;
            assert IsParenNumber(tt);
          }
        }
        false
  }

  /** The name next_unique_directory picks is always accepted by is_name_maybe_with_suffix. */
  lemma NextUniqueNameAccepted(path: Dir, existing: set<Dir>)
    requires |path| > 0
    ensures IsNameMaybeWithSuffix(DirName(NextUnique(path, existing)), DirName(path))
  {
    NextUniqueSpec(path, existing);
    var r := NextUnique(path, existing);
    if r != path {
      var n :| n >= 1 && r == Suffixed(path, n)
        && forall j :: 1 <= j < n ==> Suffixed(path, j) in existing;
      var digits := NatToString(n);
      assert DirName(r) == DirName(path) + " (" + digits + ")";
    }
  }

  // ---------------------------------------------------------------------------
  // resource_file_ending

  predicate NoDot(s: string) { forall i :: 0 <= i < |s| ==> s[i] != '.' }

  /** The group `(?: \[(?:CO|BG)\])?\.[^.]+`: an optional cover/background tag,
      a period, then at least one character other than a period. */
  predicate IsEndingForm(t: string) {
    || (|t| >= 2 && t[0] == '.' && NoDot(t[1..]))
    || (|t| >= 7 && (t[..5] == " [CO]" || t[..5] == " [BG]") && t[5] == '.' && NoDot(t[6..]))
  }

  /** The lazy `.+?` of the regex tried with `i` characters; `.` does not match a newline. */
  function EndingSearch(name: string, i: nat): string
    requires i >= 1
    decreases |name| + 1 - i
  {
    if i > |name| || name[i - 1] == '\n' then ""
    else if IsEndingForm(name[i..]) then name[i..]
    else EndingSearch(name, i + 1)
  }

  /** What the search finds is "" or a suffix of the name in the ending's form that
      leaves at least `i` characters before it. */
  lemma {:induction false} EndingSearchSuffix(name: string, i: nat)
    requires i >= 1
    ensures var r := EndingSearch(name, i);
      r == "" || (i <= |name| - |r| && r == name[|name| - |r|..] && IsEndingForm(r))
    decreases |name| + 1 - i
  {
    if !(i > |name| || name[i - 1] == '\n') && !IsEndingForm(name[i..]) {
      EndingSearchSuffix(name, i + 1);
    }
  }

  /** `resource_file_ending`: the text the regex group captures on a full match, else "". */
  function ResourceFileEnding(name: string): (r: string)
    ensures r == "" || (0 < |r| < |name| && r == name[|name| - |r|..] && IsEndingForm(r))
  {
    EndingSearchSuffix(name, 1);
    EndingSearch(name, 1)
  }

  lemma TwoDotsNoEnding(t: string, p: nat, q: nat)
    requires p < q < |t| && t[p] == '.' && t[q] == '.'
    ensures !IsEndingForm(t)
  {
    assert !(|t| >= 2 && t[0] == '.' && NoDot(t[1..])) by {
      if |t| >= 2 {
        assert t[1..][q - 1] == '.';
      }
    }
    assert !(|t| >= 7 && (t[..5] == " [CO]" || t[..5] == " [BG]") && t[5] == '.' && NoDot(t[6..])) by {
      if |t| >= 7 {
        if q >= 6 {
          assert t[6..][q - 6] == '.';
        } else {
          assert t[..5][p] == '.';
        }
      }
    }
  }

  /** A period at `q` of the ending, past the one that ends the stem. */
  lemma EndingHasDot(e: string) returns (q: nat)
    requires IsEndingForm(e)
    ensures q < |e| && e[q] == '.'
  {
    if e[0] == '.' { q := 0; } else { q := 5; }
  }

  /** Before the period that ends the stem, the search neither stops nor matches. */
  lemma StemPositionSkipped(name: string, stem: string, e: string, i: nat)
    requires name == stem + "." + e
    requires IsEndingForm(e) && '\n' !in stem
    requires 1 <= i <= |stem|
    ensures EndingSearch(name, i) == EndingSearch(name, i + 1)
  {
    assert name[i - 1] == stem[i - 1];
    var q := EndingHasDot(e);
    assert name[|stem|] == '.' && name[|stem| + 1 + q] == '.';
    TwoDotsNoEnding(name[i..], |stem| - i, |stem| + 1 - i + q);
  }

  /** Right after the period that ends the stem, the search matches the ending. */
  lemma StemDotFound(name: string, stem: string, e: string)
    requires name == stem + "." + e
    requires IsEndingForm(e)
    ensures EndingSearch(name, |stem| + 1) == e
  {
    assert name[|stem|] == '.';
    assert name[|stem| + 1..] == e;
  }

  /** An ending re-appended after "stem." is found again: renaming a file to
      `stem + "." + ending` keeps its ending. */
  lemma EndingAfterStemDot(stem: string, e: string)
    requires IsEndingForm(e) && '\n' !in stem
    ensures ResourceFileEnding(stem + "." + e) == e
  {
    var name := stem + "." + e;
    StemDotFound(name, stem, e);
    var i := |stem| + 1;
    while i > 1
      invariant 1 <= i <= |stem| + 1
      invariant EndingSearch(name, i) == e
    {
      StemPositionSkipped(name, stem, e, i - 1);
      i := i - 1;
    }
  }
}
