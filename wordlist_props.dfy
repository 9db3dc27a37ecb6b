/** Properties of the wordlist generator: the algebra of the word helpers, the
    shape of the combinations and base words, and the growth of the candidate
    set across the stages. */
module WordlistProperties {
  import opened Text
  import opened Wordlist

  // ---------------------------------------------------------------------
  // Word helpers

  /** The facts about the table both leetspeak lemmas rest on: each
      replacement is neither an upper-case letter nor a letter of the table. */
  lemma LeetTableFacts()
    ensures forall j | 0 <= j < |LeetTable| :: !IsUpper(LeetTable[j].1) && LeetTable[j].1 !in LeetLetters
    ensures forall c: Unit :: c in LeetLetters <==> exists j | 0 <= j < |LeetTable| :: LeetTable[j].0 == c
  {
    LeetTableLetters();
    forall c: Unit | c in LeetLetters ensures exists j | 0 <= j < |LeetTable| :: LeetTable[j].0 == c {
      var j :| 0 <= j < |LeetLetters| && LeetLetters[j] == c;
      assert LeetTable[j].0 == c;
    }
  }

  /** Each code unit of `Leet(w)` is a lower-cased code unit of `w` that the
      table leaves alone, or a replacement. */
  lemma LeetAt(w: String, i: nat)
    requires i < |w|
    ensures !IsUpper(Leet(w)[i]) && Leet(w)[i] !in LeetLetters
  {
    var c := ToLowerChar(w[i]);
    LeetTableFacts();
    LookupRange(LeetTable, c);
  }

  /** After leetspeak no table letter is left. */
  lemma LeetRemovesLetters(w: String)
    ensures |Leet(w)| == |w|
    ensures forall i | 0 <= i < |w| :: Leet(w)[i] !in LeetLetters
  {
    forall i | 0 <= i < |w| ensures Leet(w)[i] !in LeetLetters { LeetAt(w, i); }
  }

  /** Applying leetspeak twice is applying it once. */
  lemma LeetIdempotent(w: String)
    ensures Leet(Leet(w)) == Leet(w)
  {
    var l := Leet(w);
    LeetTableFacts();
    forall i | 0 <= i < |w| ensures Leet(l)[i] == l[i] {
      LeetAt(w, i);
      assert ToLowerChar(l[i]) == l[i];
      LookupRange(LeetTable, l[i]);
    }
  }

  /** Reversing twice gives the word back. */
  lemma ReverseInvolution(w: String)
    ensures |ReverseWord(w)| == |w|
    ensures ReverseWord(ReverseWord(w)) == w
  {
  }

  /** Capitalising twice is capitalising once. */
  lemma CapitalizeIdempotent(w: String)
    ensures |CapitalizeWord(w)| == |w|
    ensures CapitalizeWord(CapitalizeWord(w)) == CapitalizeWord(w)
  {
    var c := CapitalizeWord(w);
    var cc := CapitalizeWord(c);
    forall i | 0 <= i < |w| ensures cc[i] == c[i] {
      if i == 0 {
        assert !IsLower(c[0]) && !IsLower(cc[0]);
        assert ToLowerChar(cc[0]) == ToLowerChar(c[0]);
      } else {
        assert !IsUpper(c[i]) && !IsUpper(cc[i]);
      }
    }
  }

  // ---------------------------------------------------------------------
  // Combinations

  lemma {:induction false} PairsBeforeLength(v: seq<String>, i: nat)
    requires i <= |v|
    ensures |PairsBefore(v, i)| == i * (2 * |v| - i - 1)
  {
    if i > 0 {
      PairsBeforeLength(v, i - 1);
      var n := |v|;
      assert (i - 1) * (2 * n - i) + 2 * (n - i) == i * (2 * n - i - 1);
    }
  }

  /** `k` short tokens give exactly `k * (k - 1)` combinations. */
  lemma CombinationsCount(v: seq<String>)
    ensures |Combinations(v)| == |v| * (|v| - 1)
  {
    PairsBeforeLength(v, |v|);
  }

  /** `x` is one of the two concatenations of positions `a` and `b`. */
  predicate JoinsPair(v: seq<String>, a: nat, b: nat, x: String)
    requires a < |v| && b < |v|
  {
    x == v[a] + v[b] || x == v[b] + v[a]
  }

  lemma {:induction false} RowMembers(v: seq<String>, i: nat, j: nat, x: String)
    requires i < j <= |v|
    ensures x in Row(v, i, j) <==> exists b | i < b < j :: JoinsPair(v, i, b, x)
    decreases j
  {
    if j > i + 1 {
      RowMembers(v, i, j - 1, x);
      assert Row(v, i, j) == Row(v, i, j - 1) + [v[i] + v[j - 1], v[j - 1] + v[i]];
      if x in Row(v, i, j) && x !in Row(v, i, j - 1) {
        assert JoinsPair(v, i, j - 1, x);
      }
    }
  }

  lemma {:induction false} PairsBeforeMembers(v: seq<String>, i: nat, x: String)
    requires i <= |v|
    ensures x in PairsBefore(v, i) <==> exists a, b | 0 <= a < i && a < b < |v| :: JoinsPair(v, a, b, x)
  {
    if i > 0 {
      var prev, row := PairsBefore(v, i - 1), Row(v, i - 1, |v|);
      assert PairsBefore(v, i) == prev + row;
      PairsBeforeMembers(v, i - 1, x);
      RowMembers(v, i - 1, |v|, x);
      if x in prev {
        var a, b :| 0 <= a < i - 1 && a < b < |v| && JoinsPair(v, a, b, x);
        assert 0 <= a < i && a < b < |v| && JoinsPair(v, a, b, x);
      } else if x in row {
        var b :| i - 1 < b < |v| && JoinsPair(v, i - 1, b, x);
        assert 0 <= i - 1 < i && i - 1 < b < |v| && JoinsPair(v, i - 1, b, x);
      } else {
        var last := i - 1;
        forall a, b | 0 <= a < i && a < b < |v| ensures !JoinsPair(v, a, b, x) {
          if a == last {
            assert !(exists b' | last < b' < |v| :: JoinsPair(v, last, b', x));
          }
        }
      }
    }
  }

  /** The combinations are exactly the concatenations `v[a] + v[b]` of two
      different positions. */
  lemma CombinationsMembers(v: seq<String>, x: String)
    ensures x in Combinations(v) <==>
            exists a, b | 0 <= a < |v| && 0 <= b < |v| && a != b :: x == v[a] + v[b]
  {
    PairsBeforeMembers(v, |v|, x);
    if x in Combinations(v) {
      var a, b :| 0 <= a < |v| && a < b < |v| && JoinsPair(v, a, b, x);
      if x == v[a] + v[b] {
        assert 0 <= a < |v| && 0 <= b < |v| && a != b && x == v[a] + v[b];
      } else {
        assert 0 <= b < |v| && 0 <= a < |v| && b != a && x == v[b] + v[a];
      }
    }
    if exists a, b | 0 <= a < |v| && 0 <= b < |v| && a != b :: x == v[a] + v[b] {
      var a, b :| 0 <= a < |v| && 0 <= b < |v| && a != b && x == v[a] + v[b];
      if a < b {
        assert JoinsPair(v, a, b, x);
      } else {
        assert JoinsPair(v, b, a, x);
      }
    }
  }

  // ---------------------------------------------------------------------
  // Base words

  /** The base words hold no repetition and no empty string, and they are the
      non-empty field tokens, combinations and capitalised forms of either. */
  lemma BaseWordsShape(f: Facts, x: String)
    ensures Distinct(BaseWords(f))
    ensures forall w | w in BaseWords(f) :: w != []
    ensures x in BaseWords(f) <==>
            x != [] &&
            (x in FieldTokens(f) || x in Combinations(ShortWords(FieldTokens(f))) ||
             exists y | y in FieldTokens(f) + Combinations(ShortWords(FieldTokens(f))) :: x == CapitalizeWord(y))
  {
    ExpandedShape(FieldTokens(f), x);
  }

  /** The same, for any tokens. */
  lemma ExpandedShape(tokens: seq<String>, x: String)
    ensures var r := Dedup(Filter(Expanded(tokens), w => |w| > 0));
            Distinct(r) && (forall w | w in r :: w != []) &&
            (x in r <==>
             x != [] &&
             (x in tokens || x in Combinations(ShortWords(tokens)) ||
              exists y | y in tokens + Combinations(ShortWords(tokens)) :: x == CapitalizeWord(y)))
  {
    var all := tokens + Combinations(ShortWords(tokens));
    assert Expanded(tokens) == all + CapitalizeEach(all);
    CapitalizeEachMembers(all, x);
  }

  /** The capitalised list holds exactly the capitalised forms of the list. */
  lemma CapitalizeEachMembers(all: seq<String>, x: String)
    ensures x in CapitalizeEach(all) <==> exists y | y in all :: x == CapitalizeWord(y)
  {
    var caps := CapitalizeEach(all);
    if x in caps {
      var k :| 0 <= k < |caps| && caps[k] == x;
      assert all[k] in all;
    }
    if exists y | y in all :: x == CapitalizeWord(y) {
      var y :| y in all && x == CapitalizeWord(y);
      var k :| 0 <= k < |all| && all[k] == y;
      assert caps[k] == x;
    }
  }

  /** A filled-in birth year is a base word, and a four-unit birth year also
      contributes its last two units. */
  lemma BirthYearContributes(f: Facts)
    ensures f.birthYear != [] ==> f.birthYear in BaseWords(f)
    ensures |f.birthYear| == 4 ==> f.birthYear[2..] in BaseWords(f)
  {
    var tokens := FieldTokens(f);
    if f.birthYear != [] {
      assert f.birthYear in YearTokens(f.birthYear);
      assert f.birthYear in tokens;
      BaseWordsShape(f, f.birthYear);
      if |f.birthYear| == 4 {
        assert f.birthYear[2..] in YearTokens(f.birthYear);
        assert f.birthYear[2..] in tokens;
        BaseWordsShape(f, f.birthYear[2..]);
      }
    }
  }

  // ---------------------------------------------------------------------
  // A worked example: custom words "rex, Max"

  /** A string with exactly one separator splits into the two sides. */
  lemma SplitOnce(s: String, sep: Unit, i: nat)
    requires i < |s| && s[i] == sep && sep !in s[..i] && sep !in s[i + 1..]
    ensures Split(s, sep) == [s[..i], s[i + 1..]]
  {
    assert IndexOf(s, sep) == i;
  }

  /** Trimming strips one leading white-space unit when the units after it
      start and end with non-white ones. */
  lemma TrimOneLeading(s: String)
    requires |s| >= 2 && IsWhiteSpace(s[0]) && !IsWhiteSpace(s[1]) && !IsWhiteSpace(s[|s| - 1])
    ensures Trim(s) == s[1..]
  {
    assert SkipWhite(s, 1) == 1;
    assert SkipWhite(s, 0) == 1;
    assert SkipWhiteBack(s, 1, |s|) == |s|;
  }

  /** Trimming leaves a string alone that starts and ends with non-white units. */
  lemma TrimKeeps(s: String)
    requires s != [] && !IsWhiteSpace(s[0]) && !IsWhiteSpace(s[|s| - 1])
    ensures Trim(s) == s
  {
    assert SkipWhite(s, 0) == 0;
    assert SkipWhiteBack(s, 0, |s|) == |s|;
  }

  /** Capitalising a concatenation capitalises the first part and lower-cases the rest. */
  lemma CapitalizeConcat(a: String, b: String)
    requires a != []
    ensures CapitalizeWord(a + b) == CapitalizeWord(a) + Lower(b)
  {
    assert (a + b)[1..] == a[1..] + b;
  }

  /** Lower-casing leaves a string with no upper-case unit alone. */
  lemma LowerKeeps(s: String)
    requires forall i | 0 <= i < |s| :: !IsUpper(s[i])
    ensures Lower(s) == s
  {
  }

  /** The custom words `"rex, Max"` split at the comma into `rex` and ` Max`,
      which trim and lower-case to the tokens `rex` and `max`. */
  lemma CustomTokensExample(s: String)
    requires s == Lit("rex, Max")
    ensures CustomTokens(s) == [Lit("rex"), Lit("max")]
  {
    var comma := ',' as Unit;
    SplitOnce(s, comma, 3);
    var rex, spaced := s[..3], s[4..];
    TrimKeeps(rex);
    TrimOneLeading(spaced);
    assert Lower(rex) == Lit("rex");
    assert Lower(spaced[1..]) == Lit("max");
    var pieces := [rex, spaced];
    var lowered := seq(|pieces|, i requires 0 <= i < |pieces| => Lower(Trim(pieces[i])));
    assert lowered == [Lit("rex"), Lit("max")];
  }

  /** With only the custom words filled in, the tokens are the custom tokens. */
  lemma OnlyCustomWords(f: Facts)
    requires f.name == f.surname == f.nickname == f.birthYear == f.pet == f.company == []
    ensures FieldTokens(f) == CustomTokens(f.customWords)
  {
  }

  /** Capitalising two lower-case tokens and their two pairs. */
  lemma CapitalizeEachOfTwo(a: String, b: String, A: String, B: String)
    requires a != [] && b != [] && Lower(a) == a && Lower(b) == b
    requires CapitalizeWord(a) == A && CapitalizeWord(b) == B
    ensures CapitalizeEach([a, b, a + b, b + a]) == [A, B, A + b, B + a]
  {
    CapitalizeConcat(a, b);
    CapitalizeConcat(b, a);
  }

  /** Two short lower-case tokens give themselves, both orders of the pair,
      and all four capitalised. */
  lemma ExpandedOfTwo(a: String, b: String, A: String, B: String)
    requires 0 < |a| < 10 && 0 < |b| < 10
    requires Lower(a) == a && Lower(b) == b && CapitalizeWord(a) == A && CapitalizeWord(b) == B
    ensures Expanded([a, b]) == [a, b, a + b, b + a] + [A, B, A + b, B + a]
    ensures forall x | x in Expanded([a, b]) :: |x| > 0
  {
    var t := [a, b];
    assert ShortWords(t) == t;
    assert Row(t, 0, 2) == [a + b, b + a];
    assert PairsBefore(t, 1) == [a + b, b + a];
    var all := [a, b, a + b, b + a];
    assert t + Combinations(t) == all;
    CapitalizeEachOfTwo(a, b, A, B);
    var caps := [A, B, A + b, B + a];
    forall x | x in all + caps ensures |x| > 0 {
      assert x in all || x in caps;
    }
  }

  /** Expanded tokens that are non-empty and distinct are the base words as they stand. */
  lemma BaseWordsAsExpanded(f: Facts, e: seq<String>)
    requires Expanded(FieldTokens(f)) == e
    requires forall x | x in e :: |x| > 0
    requires Distinct(e)
    ensures BaseWords(f) == e
  {
  }

  /** Facts that yield two short lower-case tokens, whose pairs and
      capitalised forms are all distinct, give exactly those eight base words
      in push order. */
  lemma BaseWordsOfTwo(f: Facts, a: String, b: String, A: String, B: String)
    requires FieldTokens(f) == [a, b] && 0 < |a| < 10 && 0 < |b| < 10
    requires Lower(a) == a && Lower(b) == b && CapitalizeWord(a) == A && CapitalizeWord(b) == B
    requires Distinct([a, b, a + b, b + a] + [A, B, A + b, B + a])
    ensures BaseWords(f) == [a, b, a + b, b + a] + [A, B, A + b, B + a]
  {
    ExpandedOfTwo(a, b, A, B);
    BaseWordsAsExpanded(f, [a, b, a + b, b + a] + [A, B, A + b, B + a]);
  }

  /** The example's tokens are short and lower-case, and capitalise to `Rex` and `Max`. */
  lemma WordsExample(rex: String, max: String, Rex: String, Max: String)
    requires rex == Lit("rex") && max == Lit("max") && Rex == Lit("Rex") && Max == Lit("Max")
    ensures 0 < |rex| < 10 && 0 < |max| < 10
    ensures Lower(rex) == rex && Lower(max) == max
    ensures CapitalizeWord(rex) == Rex && CapitalizeWord(max) == Max
  {
    LowerKeeps(rex);
    LowerKeeps(max);
  }

  /** The example's eight words differ in length or in their first unit. */
  lemma DistinctExample(rex: String, max: String, Rex: String, Max: String)
    requires rex == Lit("rex") && max == Lit("max") && Rex == Lit("Rex") && Max == Lit("Max")
    ensures Distinct([rex, max, rex + max, max + rex] + [Rex, Max, Rex + max, Max + rex])
  {
    var e := [rex, max, rex + max, max + rex] + [Rex, Max, Rex + max, Max + rex];
    assert forall i | 0 <= i < |e| :: e[i] != [] && e[i][0] == [rex, max, rex, max, Rex, Max, Rex, Max][i][0];
    assert forall i, j | 0 <= i < j < |e| :: |e[i]| != |e[j]| || e[i][0] != e[j][0];
  }

  /** Custom words `"rex, Max"` alone give the two tokens, both orders of the
      pair (`rexmax`, `maxrex`) and all four capitalised (`Rex`, `Max`,
      `Rexmax`, `Maxrex`), in push order and without repeats. */
  lemma BaseWordsExample(f: Facts, rex: String, max: String, Rex: String, Max: String)
    requires f.name == f.surname == f.nickname == f.birthYear == f.pet == f.company == []
    requires f.customWords == Lit("rex, Max")
    requires rex == Lit("rex") && max == Lit("max") && Rex == Lit("Rex") && Max == Lit("Max")
    ensures BaseWords(f) == [rex, max, rex + max, max + rex] + [Rex, Max, Rex + max, Max + rex]
  {
    OnlyCustomWords(f);
    CustomTokensExample(f.customWords);
    WordsExample(rex, max, Rex, Max);
    DistinctExample(rex, max, Rex, Max);
    BaseWordsOfTwo(f, rex, max, Rex, Max);
  }

  // ---------------------------------------------------------------------
  // The candidate set

  /** A minimum above the maximum lets nothing through. */
  lemma InvertedBoundsGiveNothing(f: Facts, o: Options)
    requires o.minLength > o.maxLength
    ensures Candidates(f, o) == {}
  {
    CandidatesInBounds(f, o);
  }

  /** Each stage keeps everything the stage before it produced. */
  lemma StagesOnlyGrow(f: Facts, o: Options)
    ensures Gate(Elems(BaseWords(f)), o) <= TransformStage(BaseWords(f), o)
    ensures TransformStage(BaseWords(f), o) <= YearStage(TransformStage(BaseWords(f), o), o)
    ensures YearStage(TransformStage(BaseWords(f), o), o) <= Candidates(f, o)
  {
  }

  /** What the year stage adds is a word of the set before it with a year
      appended or prepended, and passes the gate. */
  lemma YearStageAdditions(s: set<String>, o: Options, x: String)
    requires x in YearStage(s, o) && x !in s
    ensures o.includeYears && InBounds(x, o)
    ensures exists w, y | w in s && y in Years :: x == w + y || x == y + w
  {
  }

  /** What the suffix stage adds is a word of the set after the year stage
      with a suffix appended, and passes the gate. */
  lemma SuffixStageAdditions(s: set<String>, o: Options, x: String)
    requires x in SuffixStage(s, o) && x !in s
    ensures o.includeCommonSuffixes && InBounds(x, o)
    ensures exists w, z | w in s && z in Suffixes :: x == w + z
  {
  }

  lemma GateSameBounds(xs: set<String>, ys: set<String>, o1: Options, o2: Options)
    requires xs <= ys
    requires o1.minLength == o2.minLength && o1.maxLength == o2.maxLength
    ensures Gate(xs, o1) <= Gate(ys, o2)
  {
  }

  lemma YearStageMonotone(s1: set<String>, s2: set<String>, o1: Options, o2: Options)
    requires s1 <= s2
    requires o1.minLength == o2.minLength && o1.maxLength == o2.maxLength
    requires o1.includeYears ==> o2.includeYears
    ensures YearStage(s1, o1) <= YearStage(s2, o2)
  {
    assert YearVariants(s1) <= YearVariants(s2);
    GateSameBounds(YearVariants(s1), YearVariants(s2), o1, o2);
  }

  lemma SuffixStageMonotone(s1: set<String>, s2: set<String>, o1: Options, o2: Options)
    requires s1 <= s2
    requires o1.minLength == o2.minLength && o1.maxLength == o2.maxLength
    requires o1.includeCommonSuffixes ==> o2.includeCommonSuffixes
    ensures SuffixStage(s1, o1) <= SuffixStage(s2, o2)
  {
    assert SuffixVariants(s1) <= SuffixVariants(s2);
    GateSameBounds(SuffixVariants(s1), SuffixVariants(s2), o1, o2);
  }

  /** Switching on any of the four options, with everything else equal, only
      adds candidates. */
  lemma CandidatesMonotone(f: Facts, o1: Options, o2: Options)
    requires o1.minLength == o2.minLength && o1.maxLength == o2.maxLength
    requires o1.includeLeetspeak ==> o2.includeLeetspeak
    requires o1.includeReverse ==> o2.includeReverse
    requires o1.includeYears ==> o2.includeYears
    requires o1.includeCommonSuffixes ==> o2.includeCommonSuffixes
    ensures Candidates(f, o1) <= Candidates(f, o2)
  {
    var b := BaseWords(f);
    assert TransformedWords(b, Transformations(o1)) <= TransformedWords(b, Transformations(o2));
    GateSameBounds(TransformedWords(b, Transformations(o1)), TransformedWords(b, Transformations(o2)), o1, o2);
    GateSameBounds(Elems(b), Elems(b), o1, o2);
    var t1, t2 := TransformStage(b, o1), TransformStage(b, o2);
    YearStageMonotone(t1, t2, o1, o2);
    SuffixStageMonotone(YearStage(t1, o1), YearStage(t2, o2), o1, o2);
  }
}
