/**
 * The text side of gitignore/job_model.py: `normalize_skills` (lower-case,
 * Persian skill names rewritten in dictionary order, characters outside the
 * kept class turned into spaces, whitespace collapsed), the frequency list
 * sorted by count, its length/digit filter, and the per-cluster word filter.
 *
 * The vectoriser and the clustering are library numerics: the model starts
 * from their outputs, the (word, count) pairs and each cluster's top words.
 */
module SkillText {
  import opened Text

  /** A requirements cell of the data frame: missing (NaN) or a string. */
  datatype Cell = Missing | Present(text: string)

  /** `replace_dict`, in insertion order. */
  const REPLACEMENTS: seq<(string, string)> := [
      ("پایتون", "python"),
      ("جاوا", "java"),
      ("جاوااسکریپت", "javascript"),
      ("جاوا اسکریپت", "javascript"),
      ("متلب", "matlab"),
      ("تنسورفلو", "tensorflow"),
      ("پی تورچ", "pytorch"),
      ("پی\U{200C}تورچ", "pytorch"),
      ("اس کی\U{200C}لرن", "scikit-learn"),
      ("اسکیکت لرن", "scikit-learn"),
      ("اسکی لرن", "scikit-learn"),
      ("پانداز", "pandas"),
      ("پانداس", "pandas"),
      ("نامپای", "numpy"),
      ("نامپی", "numpy"),
      ("کراس", "keras"),
      ("کرس", "keras"),
      ("اسپارک", "spark"),
      ("داکر", "docker"),
      ("کوبرنتیز", "kubernetes"),
      ("گیت", "git")
    ]

  predicate NonEmptyPatterns(table: seq<(string, string)>) {
    forall i :: 0 <= i < |table| ==> table[i].0 != []
  }

  /** The `for fa, en in replace_dict.items()` loop: each rule over the whole text, in order. */
  function ApplyReplacements(s: string, table: seq<(string, string)>): string
    requires NonEmptyPatterns(table)
    decreases |table|
  {
    if table == [] then s
    else ApplyReplacements(ReplaceAll(s, table[0].0, table[0].1), table[1..])
  }

  /** A text without the pattern is left as it is by `replace`. */
  lemma {:induction false} ReplaceAllAbsent(s: string, pattern: string, replacement: string)
    requires pattern != [] && !Contains(s, pattern)
    ensures ReplaceAll(s, pattern, replacement) == s
    decreases |s|
  {
    if |s| > 0 {
      ReplaceAllAbsent(s[1..], pattern, replacement);
    }
  }

  /** A prefix without the pattern's first character cannot start an occurrence of it. */
  lemma {:induction false} NoHeadNotContains(a: string, b: string, pattern: string)
    requires pattern != [] && pattern[0] !in a
    ensures Contains(a + b, pattern) ==> Contains(b, pattern)
    decreases |a|
  {
    if |a| > 0 {
      assert (a + b)[1..] == a[1..] + b;
      assert (a + b)[0] == a[0];
      NoHeadNotContains(a[1..], b, pattern);
    } else {
      assert a + b == b;
    }
  }

  /**
   * A prefix of the rewritten text that avoids the replacement's first
   * character was already a prefix of the original text.
   */
  lemma {:induction false} KeptPrefix(s: string, pattern: string, replacement: string, q: string)
    requires pattern != [] && replacement != [] && replacement[0] !in q
    ensures StartsWith(ReplaceAll(s, pattern, replacement), q) ==> StartsWith(s, q)
    decreases |s|
  {
    var r := ReplaceAll(s, pattern, replacement);
    if q != [] && |s| > 0 {
      if StartsWith(s, pattern) {
        assert r[0] == replacement[0];
      } else {
        var r1 := ReplaceAll(s[1..], pattern, replacement);
        assert r == [s[0]] + r1;
        assert forall c :: c in q[1..] ==> c in q;
        KeptPrefix(s[1..], pattern, replacement, q[1..]);
        if StartsWith(r, q) {
          assert r1[..|q| - 1] == r[1..|q|] == q[1..];
          assert s == [s[0]] + s[1..];
          assert s[..|q|] == [s[0]] + s[1..][..|q| - 1];
        }
      }
    }
  }

  /**
   * When the pattern and its replacement share no first characters and the
   * replacement is not empty, `replace` leaves no occurrence of the pattern.
   */
  lemma {:induction false} ReplaceAllRemoves(s: string, pattern: string, replacement: string)
    requires pattern != [] && replacement != []
    requires replacement[0] !in pattern && pattern[0] !in replacement
    ensures !Contains(ReplaceAll(s, pattern, replacement), pattern)
    decreases |s|
  {
    var r := ReplaceAll(s, pattern, replacement);
    KeptPrefix(s, pattern, replacement, pattern);
    if |s| > 0 {
      if StartsWith(s, pattern) {
        var r1 := ReplaceAll(s[|pattern|..], pattern, replacement);
        ReplaceAllRemoves(s[|pattern|..], pattern, replacement);
        NoHeadNotContains(replacement, r1, pattern);
      } else {
        ReplaceAllRemoves(s[1..], pattern, replacement);
        assert r[1..] == ReplaceAll(s[1..], pattern, replacement);
      }
    }
  }

  lemma {:induction false} ContainsExtension(s: string, p: string, q: string)
    ensures Contains(s, p + q) ==> Contains(s, p)
    decreases |s|
  {
    if StartsWith(s, p + q) {
      assert s[..|p|] == (p + q)[..|p|] == p;
    }
    if |s| > 0 {
      ContainsExtension(s[1..], p, q);
    }
  }

  lemma ReplacementPatterns()
    ensures NonEmptyPatterns(REPLACEMENTS)
  {
  }

  lemma JavaPatterns()
    ensures REPLACEMENTS[1] == ("جاوا", "java")
    ensures REPLACEMENTS[2].0 == "جاوا" + "اسکریپت"
    ensures REPLACEMENTS[3].0 == "جاوا" + " اسکریپت"
  {
  }

  /**
   * "جاوا" is rewritten before the two spellings of "جاوا اسکریپت" are
   * tried, so those two rules never fire: the dictionary behaves as if they
   * were absent, and such text comes out as "java" followed by the Persian
   * remainder rather than "javascript".
   */
  lemma JavaScriptRulesNeverFire(t: string)
    ensures NonEmptyPatterns(REPLACEMENTS[..2] + REPLACEMENTS[4..])
    ensures ApplyReplacements(t, REPLACEMENTS) == ApplyReplacements(t, REPLACEMENTS[..2] + REPLACEMENTS[4..])
  {
    ReplacementPatterns();
    JavaPatterns();
    ShadowedRules(t, REPLACEMENTS);
  }

  /** The shadowing argument for any table that starts like `replace_dict`. */
  lemma ShadowedRules(t: string, table: seq<(string, string)>)
    requires |table| >= 4 && NonEmptyPatterns(table)
    requires table[1] == ("جاوا", "java")
    requires table[2].0 == "جاوا" + "اسکریپت" && table[3].0 == "جاوا" + " اسکریپت"
    ensures NonEmptyPatterns(table[..2] + table[4..])
    ensures ApplyReplacements(t, table) == ApplyReplacements(t, table[..2] + table[4..])
  {
    var short := table[..2] + table[4..];
    assert NonEmptyPatterns(short) by {
      forall i | 0 <= i < |short|
        ensures short[i].0 != []
      {
        if i >= 2 {
          assert short[i] == table[i + 2];
        }
      }
    }
    var y := ReplaceAll(t, table[0].0, table[0].1);
    var x := ReplaceAll(y, "جاوا", "java");
    assert 'j' !in "جاوا" && 'ج' !in "java";
    ReplaceAllRemoves(y, "جاوا", "java");
    ContainsExtension(x, "جاوا", "اسکریپت");
    ContainsExtension(x, "جاوا", " اسکریپت");
    ReplaceAllAbsent(x, table[2].0, table[2].1);
    ReplaceAllAbsent(x, table[3].0, table[3].1);
    ApplyStep(t, table);
    ApplyStep(y, table[1..]);
    ApplyStep(x, table[2..]);
    ApplyStep(x, table[3..]);
    ApplyStep(t, short);
    ApplyStep(y, short[1..]);
    assert table[1..][1..] == table[2..] && table[2..][1..] == table[3..] && table[3..][1..] == table[4..];
    assert short[1..][1..] == table[4..];
  }

  lemma ApplyStep(s: string, table: seq<(string, string)>)
    requires table != [] && NonEmptyPatterns(table)
    ensures NonEmptyPatterns(table[1..])
    ensures ApplyReplacements(s, table) == ApplyReplacements(ReplaceAll(s, table[0].0, table[0].1), table[1..])
  {
    assert forall i :: 0 <= i < |table| - 1 ==> table[1..][i] == table[i + 1];
  }

  /** The character class `[آ-یa-zA-Z0-9\s+.\-#]` without its whitespace part. */
  predicate SkillChar(c: char) {
    ('\U{0622}' <= c <= '\U{06CC}') || IsAsciiLetter(c) || IsAsciiDigit(c) ||
    c == '+' || c == '.' || c == '-' || c == '#'
  }

  /** `re.sub(r"[^آ-یa-zA-Z0-9\s+.\-#]", " ", text)`: every other character becomes a space. */
  function KeepSkillChars(s: string): (r: string)
    ensures |r| == |s|
  {
    seq(|s|, i requires 0 <= i < |s| => if SkillChar(s[i]) || IsSpace(s[i]) then s[i] else ' ')
  }

  // ---------------------------------------------------------------------
  // " ".join(text.split())
  // ---------------------------------------------------------------------

  predicate IsWord(w: string) {
    w != [] && forall i :: 0 <= i < |w| ==> !IsSpace(w[i])
  }

  /** The length of the run of non-space characters at the start of `s`. */
  function WordLength(s: string): (n: nat)
    ensures n <= |s|
    ensures forall i :: 0 <= i < n ==> !IsSpace(s[i])
    ensures n < |s| ==> IsSpace(s[n])
    decreases |s|
  {
    if s == [] || IsSpace(s[0]) then 0 else 1 + WordLength(s[1..])
  }

  /** `s.split()`: the maximal runs of non-space characters, left to right. */
  function SplitWords(s: string): (ws: seq<string>)
    ensures forall w :: w in ws ==> IsWord(w)
    ensures forall w, c :: w in ws && c in w ==> c in s
    decreases |s|
  {
    if s == [] then []
    else if IsSpace(s[0]) then SplitWords(s[1..])
    else
      var n := WordLength(s);
      assert forall c :: c in s[n..] ==> c in s;
      [s[..n]] + SplitWords(s[n..])
  }

  /** Single spaces only, each between two non-space characters. */
  predicate Collapsed(r: string) {
    (r != [] ==> !IsSpace(r[0]) && !IsSpace(r[|r| - 1])) &&
    forall i :: 0 <= i < |r| && IsSpace(r[i]) ==> r[i] == ' ' && i + 1 < |r| && !IsSpace(r[i + 1])
  }

  /** `" ".join(words)` */
  function JoinWords(ws: seq<string>): (r: string)
    requires forall w :: w in ws ==> IsWord(w)
    ensures Collapsed(r)
    ensures ws != [] ==> r != []
    ensures forall c :: c in r ==> c == ' ' || exists w :: w in ws && c in w
    decreases |ws|
  {
    if ws == [] then []
    else if |ws| == 1 then
      assert ws[0] in ws && IsWord(ws[0]);
      assert forall i :: 0 <= i < |ws[0]| ==> !IsSpace(ws[0][i]);
      ws[0]
    else
      var w, rest := ws[0], JoinWords(ws[1..]);
      assert w in ws;
      var r := w + " " + rest;
      assert IsWord(w);
      assert forall i :: 0 <= i < |w| ==> r[i] == w[i];
      assert r[0] == w[0];
      assert r[|w|] == ' ' && r[|w| + 1] == rest[0];
      assert r[|r| - 1] == rest[|rest| - 1];
      forall i | |w| < i < |r| && IsSpace(r[i])
        ensures r[i] == ' ' && i + 1 < |r| && !IsSpace(r[i + 1])
      {
        assert r[i] == rest[i - |w| - 1];
        if i + 1 < |r| {
          assert r[i + 1] == rest[i - |w|];
        }
      }
      forall c | c in r
        ensures c == ' ' || exists v :: v in ws && c in v
      {
        if c in rest && c != ' ' {
          var v :| v in ws[1..] && c in v;
          assert v in ws;
        }
      }
      r
  }

  function CollapseSpaces(s: string): string {
    JoinWords(SplitWords(s))
  }

  /** `normalize_skills` */
  function NormalizeSkills(cell: Cell): string {
    match cell
    case Missing => ""
    case Present(text) => CollapseSpaces(KeepSkillChars(ApplyReplacements(Lower(text), REPLACEMENTS)))
  }

  /**
   * A missing value gives the empty string; otherwise every character is a
   * kept skill character or a single space between two of them.
   */
  lemma NormalizeSkillsShape(cell: Cell)
    ensures cell.Missing? ==> NormalizeSkills(cell) == ""
    ensures forall c :: c in NormalizeSkills(cell) ==> c == ' ' || SkillChar(c)
    ensures Collapsed(NormalizeSkills(cell))
  {
    if cell.Present? {
      var k := KeepSkillChars(ApplyReplacements(Lower(cell.text), REPLACEMENTS));
      var ws := SplitWords(k);
      forall c | c in JoinWords(ws)
        ensures c == ' ' || SkillChar(c)
      {
        if c != ' ' {
          var w :| w in ws && c in w;
          var i :| 0 <= i < |w| && w[i] == c;
          assert !IsSpace(c);
          assert c in k;
        }
      }
    }
  }

  // ---------------------------------------------------------------------
  // The requirements column: stringified before normalising
  // ---------------------------------------------------------------------

  /** `.astype(str)`: a missing value becomes the text "nan". */
  function AsStr(cell: Cell): string {
    match cell
    case Missing => "nan"
    case Present(text) => text
  }

  /** Line 96 as written: the column is stringified before `normalize_skills` sees it. */
  function NormalizedColumnAsWritten(cell: Cell): string {
    NormalizeSkills(Present(AsStr(cell)))
  }

  /** Every pattern starts with a character outside ASCII. */
  predicate NonAsciiPatterns(table: seq<(string, string)>) {
    forall i :: 0 <= i < |table| ==> table[i].0 != [] && table[i].0[0] as int >= 128
  }

  lemma ReplacementsNonAscii()
    ensures NonAsciiPatterns(REPLACEMENTS)
  {
  }

  /** Pure ASCII text is left alone by a table of Persian patterns. */
  lemma {:induction false} AsciiUnchanged(s: string, table: seq<(string, string)>)
    requires NonAsciiPatterns(table)
    requires forall i :: 0 <= i < |s| ==> s[i] as int < 128
    ensures NonEmptyPatterns(table)
    ensures ApplyReplacements(s, table) == s
    decreases |table|
  {
    if table != [] {
      var p := table[0].0;
      AbsentHead(s, p);
      ReplaceAllAbsent(s, p, table[0].1);
      assert forall i :: 0 <= i < |table| - 1 ==> table[1..][i] == table[i + 1];
      AsciiUnchanged(s, table[1..]);
    }
  }

  lemma {:induction false} AbsentHead(s: string, p: string)
    requires p != [] && p[0] !in s
    ensures !Contains(s, p)
    decreases |s|
  {
    if |s| > 0 {
      assert s[0] != p[0];
      AbsentHead(s[1..], p);
    }
  }

  predicate LowerAsciiWord(s: string) {
    s != [] && forall i :: 0 <= i < |s| ==> 'a' <= s[i] <= 'z'
  }

  /** A single lower-case ASCII word comes out of `normalize_skills` unchanged. */
  lemma LowerWordUnchanged(s: string)
    requires LowerAsciiWord(s)
    ensures NormalizeSkills(Present(s)) == s
  {
    LowerWordSteps(s);
    ReplacementsNonAscii();
    AsciiUnchanged(s, REPLACEMENTS);
  }

  lemma LowerWordSteps(s: string)
    requires LowerAsciiWord(s)
    ensures Lower(s) == s
    ensures forall i :: 0 <= i < |s| ==> s[i] as int < 128
    ensures KeepSkillChars(s) == s
    ensures JoinWords(SplitWords(s)) == s
  {
    LowerWordChars(s);
    SingleWord(s);
  }

  lemma LowerWordChars(s: string)
    requires LowerAsciiWord(s)
    ensures Lower(s) == s
    ensures forall i :: 0 <= i < |s| ==> s[i] as int < 128
    ensures KeepSkillChars(s) == s
  {
  }

  lemma SingleWord(s: string)
    requires IsWord(s)
    ensures SplitWords(s) == [s]
    ensures JoinWords(SplitWords(s)) == s
  {
    WordSpansAll(s);
    assert !IsSpace(s[0]) && s[..|s|] == s;
    assert SplitWords(s[|s|..]) == [];
  }

  lemma {:induction false} WordSpansAll(s: string)
    requires forall i :: 0 <= i < |s| ==> !IsSpace(s[i])
    ensures WordLength(s) == |s|
    decreases |s|
  {
    if s != [] {
      WordSpansAll(s[1..]);
    }
  }

  /**
   * Because of the stringification the NaN branch of `normalize_skills` is
   * never reached: a missing requirement is normalised to "nan", which the
   * vectoriser then counts as a word.
   */
  lemma MissingBecomesNan(cell: Cell)
    ensures NormalizedColumnAsWritten(cell) == if cell.Missing? then "nan" else NormalizeSkills(cell)
    ensures cell.Missing? ==> NormalizeSkills(cell) == ""
  {
    if cell.Missing? {
      var s := AsStr(cell);
      assert LowerAsciiWord(s);
      LowerWordUnchanged(s);
    }
  }

  // ---------------------------------------------------------------------
  // Frequency list and its filters
  // ---------------------------------------------------------------------

  /** A vocabulary word with its total count over all postings. */
  type Freq = (string, nat)

  /** `sorted(..., key=count, reverse=True)`: place `x` before the first entry whose count is not larger. */
  function Insert(x: Freq, s: seq<Freq>): seq<Freq>
    decreases |s|
  {
    if s == [] || x.1 >= s[0].1 then [x] + s else [s[0]] + Insert(x, s[1..])
  }

  function SortByCount(s: seq<Freq>): seq<Freq>
    decreases |s|
  {
    if s == [] then [] else Insert(s[0], SortByCount(s[1..]))
  }

  predicate CountDescending(s: seq<Freq>) {
    forall i, j :: 0 <= i < j < |s| ==> s[i].1 >= s[j].1
  }

  /** The entries with count `c`, in order. */
  function WithCount(s: seq<Freq>, c: nat): seq<Freq>
    decreases |s|
  {
    if s == [] then [] else (if s[0].1 == c then [s[0]] else []) + WithCount(s[1..], c)
  }

  lemma {:induction false} InsertPermutes(x: Freq, s: seq<Freq>)
    ensures multiset(Insert(x, s)) == multiset(s) + multiset{x}
    decreases |s|
  {
    if s != [] && x.1 < s[0].1 {
      InsertPermutes(x, s[1..]);
      assert s == [s[0]] + s[1..];
    }
  }

  /** Inserting keeps the entries of each count in order, with `x` first among its count. */
  lemma {:induction false} InsertWithCount(x: Freq, s: seq<Freq>, c: nat)
    ensures WithCount(Insert(x, s), c) == (if x.1 == c then [x] else []) + WithCount(s, c)
    decreases |s|
  {
    if s != [] && x.1 < s[0].1 {
      var rest := Insert(x, s[1..]);
      InsertWithCount(x, s[1..], c);
      assert ([s[0]] + rest)[1..] == rest;
      assert WithCount(Insert(x, s), c) == (if s[0].1 == c then [s[0]] else []) + WithCount(rest, c);
      assert WithCount(s, c) == (if s[0].1 == c then [s[0]] else []) + WithCount(s[1..], c);
    } else {
      assert ([x] + s)[1..] == s;
    }
  }

  lemma {:induction false} InsertBounded(x: Freq, s: seq<Freq>, b: nat)
    requires x.1 <= b && forall i :: 0 <= i < |s| ==> s[i].1 <= b
    ensures forall i :: 0 <= i < |Insert(x, s)| ==> Insert(x, s)[i].1 <= b
    decreases |s|
  {
    if s != [] && x.1 < s[0].1 {
      InsertBounded(x, s[1..], b);
      assert Insert(x, s) == [s[0]] + Insert(x, s[1..]);
    } else {
      assert forall i :: 0 < i < |Insert(x, s)| ==> Insert(x, s)[i] == s[i - 1];
    }
  }

  lemma {:induction false} InsertSorted(x: Freq, s: seq<Freq>)
    requires CountDescending(s)
    ensures CountDescending(Insert(x, s))
    decreases |s|
  {
    var r := Insert(x, s);
    if s != [] && x.1 < s[0].1 {
      var rest := Insert(x, s[1..]);
      InsertSorted(x, s[1..]);
      InsertBounded(x, s[1..], s[0].1);
      assert r == [s[0]] + rest;
      assert forall j :: 0 < j < |r| ==> r[j] == rest[j - 1];
    } else {
      assert forall i :: 0 < i < |r| ==> r[i] == s[i - 1];
    }
  }

  /**
   * The frequency list: counts never increase along it, it holds the same
   * entries, and entries with equal counts keep their vocabulary order
   * (Python's sort is stable, also with `reverse=True`).
   */
  lemma {:induction false} SortByCountSpec(s: seq<Freq>)
    ensures CountDescending(SortByCount(s))
    ensures multiset(SortByCount(s)) == multiset(s)
    ensures forall c :: WithCount(SortByCount(s), c) == WithCount(s, c)
    decreases |s|
  {
    if s != [] {
      var t := SortByCount(s[1..]);
      SortByCountSpec(s[1..]);
      InsertSorted(s[0], t);
      InsertPermutes(s[0], t);
      assert s == [s[0]] + s[1..];
      forall c
        ensures WithCount(SortByCount(s), c) == WithCount(s, c)
      {
        InsertWithCount(s[0], t, c);
      }
    }
  }

  /** Short words kept by the frequency filter. */
  const SHORT_SKILLS: seq<string> := ["r", "c++", "c#", "go"]
  /** Short words kept by the per-cluster filter: the same list without "go". */
  const CLUSTER_SHORT_SKILLS: seq<string> := ["r", "c++", "c#"]

  /** The test of the filter loop: at least three characters or a listed short skill, and not all digits. */
  predicate KeepFrequency(word: string) {
    !(|word| < 3 && word !in SHORT_SKILLS) && !IsDigitString(word)
  }

  /** The entries the filter loop keeps, in order. */
  function KeptFrequencies(freqs: seq<Freq>): seq<Freq>
    decreases |freqs|
  {
    if freqs == [] then []
    else
      var last := freqs[|freqs| - 1];
      KeptFrequencies(freqs[..|freqs| - 1]) + (if KeepFrequency(last.0) then [last] else [])
  }

  /** The filter loop over the sorted frequency list. */
  method FilterFrequencies(freqs: seq<Freq>) returns (filtered: seq<Freq>)
    ensures filtered == KeptFrequencies(freqs)
  {
    filtered := [];
    for i := 0 to |freqs|
      invariant filtered == KeptFrequencies(freqs[..i])
    {
      assert freqs[..i + 1][..i] == freqs[..i];
      var (word, count) := freqs[i];
      if |word| < 3 && word !in SHORT_SKILLS {
        continue;
      }
      if IsDigitString(word) {
        continue;
      }
      filtered := filtered + [(word, count)];
    }
    assert freqs[..|freqs|] == freqs;
  }

  /**
   * The filter keeps exactly the entries that pass the test, in their
   * order, so the filtered list is still sorted by count.
   */
  lemma {:induction false} KeptFrequenciesSpec(freqs: seq<Freq>)
    ensures forall e :: e in KeptFrequencies(freqs) <==> e in freqs && KeepFrequency(e.0)
    ensures CountDescending(freqs) ==> CountDescending(KeptFrequencies(freqs))
    ensures |KeptFrequencies(freqs)| <= |freqs|
    decreases |freqs|
  {
    if freqs != [] {
      var init := freqs[..|freqs| - 1];
      var last := freqs[|freqs| - 1];
      KeptFrequenciesSpec(init);
      assert freqs == init + [last];
      var k := KeptFrequencies(freqs);
      if CountDescending(freqs) {
        assert CountDescending(init);
        forall i, j | 0 <= i < j < |k|
          ensures k[i].1 >= k[j].1
        {
          if j == |k| - 1 && KeepFrequency(last.0) {
            assert k[j] == last;
            assert k[i] in KeptFrequencies(init);
            var m :| 0 <= m < |init| && init[m] == k[i];
            assert freqs[m] == k[i];
          } else {
            assert k[i] == KeptFrequencies(init)[i] && k[j] == KeptFrequencies(init)[j];
          }
        }
      }
    }
  }

  /**
   * Order is kept: filtering a list in two pieces gives the filtered pieces
   * one after the other, so no kept entry moves past another.
   */
  lemma {:induction false} KeptFrequenciesAppend(a: seq<Freq>, b: seq<Freq>)
    ensures KeptFrequencies(a + b) == KeptFrequencies(a) + KeptFrequencies(b)
    decreases |b|
  {
    if b == [] {
      assert a + b == a;
    } else {
      var init := b[..|b| - 1];
      var last := b[|b| - 1];
      KeptFrequenciesAppend(a, init);
      assert (a + b)[..|a + b| - 1] == a + init;
      assert (a + b)[|a + b| - 1] == last;
    }
  }

  /** The per-cluster test: at least three characters or "r", "c++", "c#". */
  predicate KeepClusterWord(w: string) {
    |w| >= 3 || w in CLUSTER_SHORT_SKILLS
  }

  /** `[w for w in top_words if len(w) >= 3 or w in ['r', 'c++', 'c#']]` */
  function ClusterWords(words: seq<string>): (kept: seq<string>)
    ensures |kept| <= |words|
    ensures forall w :: w in kept <==> w in words && KeepClusterWord(w)
    decreases |words|
  {
    if words == [] then []
    else (if KeepClusterWord(words[0]) then [words[0]] else []) + ClusterWords(words[1..])
  }

  /** "go" passes the frequency filter but not the per-cluster filter. */
  lemma GoOnlyInFrequencies()
    ensures KeepFrequency("go") && !KeepClusterWord("go")
    ensures ClusterWords(["go"]) == []
  {
    assert "go" == SHORT_SKILLS[3];
    assert !IsAsciiDigit("go"[0]);
  }
}
