/** What the password strength analyser promises, proved about the model. */
module StrengthProperties {
  import opened Text
  import opened Strength

  // ---------------------------------------------------------------------
  // Character classes and the character set

  lemma SymbolClassSize()
    ensures |SymbolChars| == 32
    ensures forall c | c in SymbolChars :: !IsLower(c) && !IsUpper(c) && !IsDigit(c) && c != ' ' as Unit
  {
  }

  /** The character set is one of the sums of the four class sizes. */
  lemma CharsetValues(p: String)
    ensures CharsetSize(p) in {0, 10, 26, 32, 36, 42, 52, 58, 62, 68, 84, 94}
    ensures CharsetSize(p) <= 94
  {
  }

  /** The character set is empty exactly when no code unit belongs to a class. */
  lemma CharsetZeroIff(p: String)
    ensures CharsetSize(p) == 0 <==> forall i | 0 <= i < |p| :: Unclassified(p[i])
  {
    if CharsetSize(p) != 0 {
      if HasLower(p) {
        var i :| 0 <= i < |p| && IsLower(p[i]);
        assert !Unclassified(p[i]);
      } else if HasUpper(p) {
        var i :| 0 <= i < |p| && IsUpper(p[i]);
        assert !Unclassified(p[i]);
      } else if HasDigit(p) {
        var i :| 0 <= i < |p| && IsDigit(p[i]);
        assert !Unclassified(p[i]);
      } else {
        var i :| 0 <= i < |p| && IsSymbol(p[i]);
        assert !Unclassified(p[i]);
      }
    }
  }

  /** A non-empty password of lower-case letters only has the 26-letter set. */
  lemma LowercaseOnly(p: String)
    requires p != []
    requires forall i | 0 <= i < |p| :: IsLower(p[i])
    ensures HasLower(p) && !HasUpper(p) && !HasDigit(p) && !HasSymbol(p)
    ensures CharsetSize(p) == 26
  {
    SymbolClassSize();
    assert IsLower(p[0]);
  }

  /** A class present in `p` stays present in any extension of it. */
  lemma CharsetGrows(p: String, q: String)
    ensures CharsetSize(p) <= CharsetSize(p + q)
  {
    if HasLower(p) { var i :| 0 <= i < |p| && IsLower(p[i]); assert (p + q)[i] == p[i]; }
    if HasUpper(p) { var i :| 0 <= i < |p| && IsUpper(p[i]); assert (p + q)[i] == p[i]; }
    if HasDigit(p) { var i :| 0 <= i < |p| && IsDigit(p[i]); assert (p + q)[i] == p[i]; }
    if HasSymbol(p) { var i :| 0 <= i < |p| && IsSymbol(p[i]); assert (p + q)[i] == p[i]; }
  }

  // ---------------------------------------------------------------------
  // Powers

  lemma {:induction false} PowPositive(b: nat, e: nat)
    requires b > 0
    ensures Pow(b, e) > 0
    decreases e
  {
    if e > 0 { PowPositive(b, e - 1); }
  }

  lemma MulLe(a: nat, b: nat, c: nat)
    requires a <= b
    ensures a * c <= b * c
  {
  }

  lemma {:induction false} PowBaseMonotone(a: nat, b: nat, e: nat)
    requires a <= b
    ensures Pow(a, e) <= Pow(b, e)
    decreases e
  {
    if e > 0 {
      var x, y := Pow(a, e - 1), Pow(b, e - 1);
      PowBaseMonotone(a, b, e - 1);
      MulLe(a, b, x);
      MulLe(x, y, b);
      assert Pow(a, e) == a * x && Pow(b, e) == b * y;
    }
  }

  lemma {:induction false} PowExpMonotone(b: nat, d: nat, e: nat)
    requires b > 0 && d <= e
    ensures Pow(b, d) <= Pow(b, e)
    decreases e
  {
    if d < e {
      var x := Pow(b, e - 1);
      PowExpMonotone(b, d, e - 1);
      MulLe(1, b, x);
      assert Pow(b, e) == b * x;
    }
  }

  lemma {:induction false} PowAdd(b: nat, m: nat, n: nat)
    ensures Pow(b, m + n) == Pow(b, m) * Pow(b, n)
    decreases m
  {
    if m > 0 {
      PowAdd(b, m - 1, n);
      var x, y := Pow(b, m - 1), Pow(b, n);
      assert Pow(b, m + n) == b * Pow(b, m - 1 + n);
      assert b * (x * y) == (b * x) * y;
    }
  }

  /** Small powers of two. */
  lemma PowersOfTwo()
    ensures Pow(2, 4) == 16 && Pow(2, 8) == 256 && Pow(2, 16) == 65536
    ensures Pow(2, 32) == 4294967296
  {
    assert Pow(2, 1) == 2;
    assert Pow(2, 2) == 4 by { PowAdd(2, 1, 1); }
    assert Pow(2, 4) == 16 by { PowAdd(2, 2, 2); }
    assert Pow(2, 8) == 256 by { PowAdd(2, 4, 4); }
    assert Pow(2, 16) == 65536 by { PowAdd(2, 8, 8); }
    assert Pow(2, 32) == 4294967296 by { PowAdd(2, 16, 16); }
  }

  /** Two to the power of each bucket threshold. */
  lemma ThresholdPowers()
    ensures Pow(2, 28) == 268435456
    ensures Pow(2, 35) == 34359738368
    ensures Pow(2, 44) == 17592186044416
    ensures Pow(2, 60) == 1152921504606846976
    ensures Pow(2, 70) == 1180591620717411303424
    ensures Pow(2, 80) == 1208925819614629174706176
  {
    PowersOfTwo();
    assert Pow(2, 3) == 8 by { PowAdd(2, 2, 1); }
    assert Pow(2, 12) == 4096 by { PowAdd(2, 8, 4); }
    assert Pow(2, 28) == 268435456 by { PowAdd(2, 16, 12); }
    assert Pow(2, 35) == 34359738368 by { PowAdd(2, 32, 3); }
    assert Pow(2, 44) == 17592186044416 by { PowAdd(2, 32, 12); }
    assert Pow(2, 60) == 1152921504606846976 by { PowAdd(2, 32, 28); }
    assert Pow(2, 70) == 1180591620717411303424 by { PowAdd(2, 35, 35); }
    assert Pow(2, 80) == 1208925819614629174706176 by { PowAdd(2, 44, 36); PowAdd(2, 32, 4); }
  }

  // ---------------------------------------------------------------------
  // Entropy and crack time

  /** The entropy of a password. */
  function EntropyOf(p: String): Bits {
    Bits(CharsetSize(p), |p|)
  }

  /** A password none of whose code units is classified has an empty character
      set: no keyspace at all, so the fastest bucket and no entropy point. */
  lemma UnclassifiedIsWeakest(p: String)
    requires p != []
    requires forall i | 0 <= i < |p| :: Unclassified(p[i])
    ensures EntropyOf(p).Keyspace() == 0
    ensures EstimateCrackTime(EntropyOf(p)) == Seconds
    ensures !EntropyOf(p).Above(60)
  {
    CharsetZeroIff(p);
    assert Pow(0, |p|) == 0 * Pow(0, |p| - 1);
    PowPositive(2, 28);
  }

  /** More keyspace never gives a faster bucket. */
  lemma {:induction false} CrackTimeMonotone(e1: Bits, e2: Bits)
    requires e1.Keyspace() <= e2.Keyspace()
    ensures EstimateCrackTime(e1).Rank() <= EstimateCrackTime(e2).Rank()
  {
    if e2.Below(28) { assert e1.Below(28); }
    else if e2.Below(35) { assert e1.Below(35); }
    else if e2.Below(44) { assert e1.Below(44); }
    else if e2.Below(60) { assert e1.Below(60); }
    else if e2.Below(70) { assert e1.Below(70); }
    else if e2.Below(80) { assert e1.Below(80); }
  }

  /** Each bucket starts at its threshold: the entropy is at least the bound below it. */
  lemma CrackTimeLowerBound(e: Bits)
    ensures var r := EstimateCrackTime(e).Rank();
            r == 0 || !e.Below(Thresholds[r - 1])
  {
    match EstimateCrackTime(e)
    case Seconds =>
    case Minutes => assert !e.Below(28);
    case Hours => assert !e.Below(35);
    case DaysToMonths => assert !e.Below(44);
    case Years => assert !e.Below(60);
    case Decades => assert !e.Below(70);
    case Centuries => assert !e.Below(80);
  }

  /** Each bucket ends below the next threshold: the entropy is less than the bound above it. */
  lemma CrackTimeUpperBound(e: Bits)
    ensures var r := EstimateCrackTime(e).Rank();
            r == |Thresholds| || e.Below(Thresholds[r])
  {
    if e.Below(28) {
      assert EstimateCrackTime(e) == Seconds;
    } else if e.Below(35) {
      assert EstimateCrackTime(e) == Minutes;
    } else if e.Below(44) {
      assert EstimateCrackTime(e) == Hours;
    } else if e.Below(60) {
      assert EstimateCrackTime(e) == DaysToMonths;
    } else if e.Below(70) {
      assert EstimateCrackTime(e) == Years;
    } else if e.Below(80) {
      assert EstimateCrackTime(e) == Decades;
    }
  }

  /** Extending a non-empty password never lowers its entropy, nor its bucket. */
  lemma ExtendingNeverWeakens(p: String, q: String)
    requires p != []
    ensures EntropyOf(p).Keyspace() <= EntropyOf(p + q).Keyspace()
    ensures EstimateCrackTime(EntropyOf(p)).Rank() <= EstimateCrackTime(EntropyOf(p + q)).Rank()
  {
    var c1, c2 := CharsetSize(p), CharsetSize(p + q);
    CharsetGrows(p, q);
    if c1 == 0 {
      assert Pow(0, |p|) == 0 * Pow(0, |p| - 1);
    } else {
      PowBaseMonotone(c1, c2, |p|);
      PowExpMonotone(c2, |p|, |p + q|);
    }
    CrackTimeMonotone(EntropyOf(p), EntropyOf(p + q));
  }

  /** No password shorter than ten code units earns the point for more than 60
      bits: even the full 94-unit set gives 94^9 < 2^60. */
  lemma EntropyPointNeedsTen(p: String)
    requires |p| < 10
    ensures !EntropyOf(p).Above(60)
  {
    CharsetValues(p);
    var c := CharsetSize(p);
    if c > 0 {
      PowBaseMonotone(c, 94, |p|);
      PowExpMonotone(94, |p|, 9);
    } else if |p| > 0 {
      assert Pow(0, |p|) == 0 * Pow(0, |p| - 1);
    }
    assert Pow(94, 9) == 572994802228616704 by {
      assert Pow(94, 1) == 94;
      assert Pow(94, 2) == 8836 by { PowAdd(94, 1, 1); }
      assert Pow(94, 4) == 78074896 by { PowAdd(94, 2, 2); }
      assert Pow(94, 8) == 6095689385410816 by { PowAdd(94, 4, 4); }
      PowAdd(94, 8, 1);
    }
    ThresholdPowers();
  }

  // ---------------------------------------------------------------------
  // Patterns

  /** The number of a pattern's name, or -1 for any other string. */
  function NameOrdinal(x: string): int {
    if x == SequentialNumbers.Name() then 0
    else if x == SequentialLetters.Name() then 1
    else if x == KeyboardPattern.Name() then 2
    else if x == ContainsPassword.Name() then 3
    else if x == ContainsAdmin.Name() then 4
    else if x == RepeatedCharacters.Name() then 5
    else if x == FourDigitYear.Name() then 6
    else if x == DatePattern.Name() then 7
    else -1
  }

  /** Every pattern has its own name. */
  lemma NameOrdinalOf(pt: Pattern)
    ensures NameOrdinal(pt.Name()) == pt.Ordinal()
  {
  }

  lemma NamesDiffer(a: Pattern, b: Pattern)
    requires a.Name() == b.Name()
    ensures a == b
  {
    NameOrdinalOf(a);
    NameOrdinalOf(b);
    assert PatternAt(a.Ordinal()) == a && PatternAt(b.Ordinal()) == b;
  }

  lemma PatternAtOrdinal(pt: Pattern)
    ensures pt.Ordinal() < PatternCount && PatternAt(pt.Ordinal()) == pt
  {
  }

  /** At most one name per check. */
  lemma {:induction false} FoundLength(p: String, n: nat)
    requires n <= PatternCount
    ensures |Found(p, n)| <= n
  {
    if n > 0 { FoundLength(p, n - 1); }
  }

  /** A name is reported exactly when one of the checks run has it and matches. */
  lemma {:induction false} FoundMembers(p: String, n: nat, x: string)
    requires n <= PatternCount
    ensures x in Found(p, n) <==> exists k | 0 <= k < n :: PatternAt(k).Matches(p) && PatternAt(k).Name() == x
  {
    if n > 0 {
      FoundMembers(p, n - 1, x);
      var pt := PatternAt(n - 1);
      if x in Found(p, n) && x !in Found(p, n - 1) {
        assert pt.Matches(p) && pt.Name() == x;
      }
      if x !in Found(p, n) {
        forall k | 0 <= k < n && PatternAt(k).Matches(p) ensures PatternAt(k).Name() != x {
          if k == n - 1 {
            assert x !in Hit(p, pt);
          }
        }
      }
    }
  }

  /** The names come in the order the checks run, each from a check among the first `n`. */
  lemma {:induction false} FoundOrdered(p: String, n: nat)
    requires n <= PatternCount
    ensures forall i | 0 <= i < |Found(p, n)| :: 0 <= NameOrdinal(Found(p, n)[i]) < n
    ensures forall i, j | 0 <= i < j < |Found(p, n)| :: NameOrdinal(Found(p, n)[i]) < NameOrdinal(Found(p, n)[j])
  {
    if n > 0 {
      FoundOrdered(p, n - 1);
      var pt := PatternAt(n - 1);
      var before := Found(p, n - 1);
      if pt.Matches(p) {
        NameOrdinalOf(pt);
        var r := before + [pt.Name()];
        assert Found(p, n) == r;
        forall i | 0 <= i < |r| ensures 0 <= NameOrdinal(r[i]) < n {
          if i < |before| { assert r[i] == before[i]; }
        }
        forall i, j | 0 <= i < j < |r| ensures NameOrdinal(r[i]) < NameOrdinal(r[j]) {
          assert r[i] == before[i];
          if j < |before| { assert r[j] == before[j]; }
        }
      } else {
        assert Found(p, n) == before;
      }
    }
  }

  /** `detectPatterns` names a pattern exactly when that pattern matches. */
  lemma DetectedIff(p: String, pt: Pattern)
    ensures pt.Name() in Found(p, PatternCount) <==> pt.Matches(p)
  {
    FoundMembers(p, PatternCount, pt.Name());
    PatternAtOrdinal(pt);
    if pt.Name() in Found(p, PatternCount) {
      var k :| 0 <= k < PatternCount && PatternAt(k).Matches(p) && PatternAt(k).Name() == pt.Name();
      NamesDiffer(PatternAt(k), pt);
    }
  }

  /** What `detectPatterns` returns: at most eight names, each once, in the
      order the checks run, every one the name of a pattern. */
  lemma DetectedShape(p: String)
    ensures |Found(p, PatternCount)| <= 8
    ensures Distinct(Found(p, PatternCount))
    ensures forall i | 0 <= i < |Found(p, PatternCount)| ::
              0 <= NameOrdinal(Found(p, PatternCount)[i]) < PatternCount &&
              PatternAt(NameOrdinal(Found(p, PatternCount)[i])).Name() == Found(p, PatternCount)[i]
  {
    FoundLength(p, PatternCount);
    FoundOrdered(p, PatternCount);
    var r := Found(p, PatternCount);
    forall i | 0 <= i < |r| ensures PatternAt(NameOrdinal(r[i])).Name() == r[i] {
      FoundMembers(p, PatternCount, r[i]);
      var k :| 0 <= k < PatternCount && PatternAt(k).Matches(p) && PatternAt(k).Name() == r[i];
      NameOrdinalOf(PatternAt(k));
    }
  }

  /** No names at all exactly when no pattern matches. */
  lemma DetectedNone(p: String)
    ensures Found(p, PatternCount) == [] <==> forall pt: Pattern :: !pt.Matches(p)
  {
    var r := Found(p, PatternCount);
    if r != [] {
      FoundMembers(p, PatternCount, r[0]);
      var k :| 0 <= k < PatternCount && PatternAt(k).Matches(p) && PatternAt(k).Name() == r[0];
    } else {
      forall pt: Pattern ensures !pt.Matches(p) { DetectedIff(p, pt); }
    }
  }

  // ---------------------------------------------------------------------
  // Suggestions and warning

  /** The advice always ends with the passphrase tip and has one to six messages. */
  lemma SuggestionsShape(n: nat, hasUpper: bool, hasNumbers: bool, hasSymbols: bool)
    ensures var s := Suggestions(n, hasUpper, hasNumbers, hasSymbols);
            1 <= |s| <= 6 && s[|s| - 1] == Passphrase
  {
  }

  /** Each message appears exactly when its condition holds. */
  lemma SuggestionsIff(n: nat, hasUpper: bool, hasNumbers: bool, hasSymbols: bool)
    ensures var s := Suggestions(n, hasUpper, hasNumbers, hasSymbols);
            (UseTwelve in s <==> n < 12) &&
            (AddUppercase in s <==> !hasUpper) &&
            (IncludeNumbers in s <==> !hasNumbers) &&
            (AddSpecial in s <==> !hasSymbols) &&
            (TooShort in s <==> n < 8) &&
            Passphrase in s
  {
    MessageLengths();
    SuggestionsMembers(n, hasUpper, hasNumbers, hasSymbols, UseTwelve);
    SuggestionsMembers(n, hasUpper, hasNumbers, hasSymbols, AddUppercase);
    SuggestionsMembers(n, hasUpper, hasNumbers, hasSymbols, IncludeNumbers);
    SuggestionsMembers(n, hasUpper, hasNumbers, hasSymbols, AddSpecial);
    SuggestionsMembers(n, hasUpper, hasNumbers, hasSymbols, TooShort);
  }

  /** A message is given exactly when it is the passphrase tip or its condition holds. */
  lemma SuggestionsMembers(n: nat, hasUpper: bool, hasNumbers: bool, hasSymbols: bool, m: string)
    ensures m in Suggestions(n, hasUpper, hasNumbers, hasSymbols) <==>
            (n < 12 && m == UseTwelve) || (!hasUpper && m == AddUppercase) ||
            (!hasNumbers && m == IncludeNumbers) || (!hasSymbols && m == AddSpecial) ||
            (n < 8 && m == TooShort) || m == Passphrase
  {
  }

  /** No message is given twice. */
  lemma SuggestionsDistinct(n: nat, hasUpper: bool, hasNumbers: bool, hasSymbols: bool)
    ensures Distinct(Suggestions(n, hasUpper, hasNumbers, hasSymbols))
  {
    MessageLengths();
    var s := Suggestions(n, hasUpper, hasNumbers, hasSymbols);
    var lengths := seq(|s|, i requires 0 <= i < |s| => |s[i]|);
    assert forall i | 0 <= i < |s| :: |s[i]| in {46, 21, 15, 33, 56, 45};
    forall i, j | 0 <= i < j < |s| ensures s[i] != s[j] {
      assert |s[i]| != |s[j]|;
    }
  }

  /** The six messages have six different lengths. */
  lemma MessageLengths()
    ensures |UseTwelve| == 46 && |AddUppercase| == 21 && |IncludeNumbers| == 15
    ensures |AddSpecial| == 33 && |TooShort| == 56 && |Passphrase| == 45
  {
  }

  /** The warning lists every pattern found. */
  lemma WarningListsPatterns(p: String, patterns: seq<string>, k: nat)
    requires k < |patterns|
    ensures GenerateWarnings(p, patterns).Some?
    ensures Contains(GenerateWarnings(p, patterns).value, patterns[k])
  {
    var joined := Join(patterns, ", ");
    var w := WarningPrefix + joined + WarningSuffix;
    JoinContainsParts(patterns, ", ", k);
    var q :| 0 <= q <= |joined| - |patterns[k]| && OccursAt(joined, patterns[k], q);
    var off := |WarningPrefix|;
    assert w[off + q..off + q + |patterns[k]|] == joined[q..q + |patterns[k]|];
    assert OccursAt(w, patterns[k], off + q);
  }

  // ---------------------------------------------------------------------
  // The report

  /** Nothing is reported for the empty string, and a report for anything else. */
  lemma AnalysisDefined(p: String)
    ensures Analysis(p).None? <==> p == []
  {
  }

  /** The score: one point per criterion met, capped at 4. */
  lemma ScoreBreakdown(p: String)
    requires p != []
    ensures var r := Analysis(p).value;
            r.score <= 4 &&
            r.score == Min(4, Point(|p| >= 8) + Point(|p| >= 12) +
                              Point(r.hasUppercase && r.hasLowercase) + Point(r.hasNumbers) +
                              Point(r.hasSymbols) + Point(r.entropy.Above(60)) +
                              Point(r.patterns == []))
  {
    var e := EntropyOf(p);
    CriteriaCount(p, e, Found(p, PatternCount));
  }

  /** The point for avoiding patterns is earned exactly when no pattern matches. */
  lemma NoPatternPoint(p: String)
    requires p != []
    ensures Analysis(p).value.patterns == [] <==> forall pt: Pattern :: !pt.Matches(p)
  {
    DetectedNone(p);
  }

  /** A password matching any pattern, or shorter than six, gets a warning, and
      only those do. */
  lemma WarningWhen(p: String)
    requires p != []
    ensures Analysis(p).value.warning.Some? <==> (exists pt: Pattern :: pt.Matches(p)) || |p| < 6
  {
    DetectedNone(p);
  }

  /** A password of length `n >= 12` with every class scores 4, whether or not
      a pattern matches: five points are earned before the cap. */
  lemma StrongPasswordScoresFour(p: String)
    requires |p| >= 12 && HasLower(p) && HasUpper(p) && HasDigit(p) && HasSymbol(p)
    ensures Analysis(p).value.score == 4
  {
    ScoreBreakdown(p);
  }

  // ---------------------------------------------------------------------
  // A worked example

  /** Each code unit of an occurring `t` is a code unit of `s`. */
  lemma ContainedUnits(s: String, t: String, c: Unit)
    ensures Contains(s, t) && c in t ==> c in s
  {
    if Contains(s, t) && c in t {
      var i :| 0 <= i <= |s| - |t| && OccursAt(s, t, i);
      var j :| 0 <= j < |t| && t[j] == c;
      assert s[i + j] == s[i..i + |t|][j];
    }
  }

  /** `s` has no digit, so it matches no digit-based pattern. */
  lemma NoDigitPatterns(s: String)
    requires forall i | 0 <= i < |s| :: !IsDigit(s[i])
    ensures !SequentialNumbers.Matches(s) && !FourDigitYear.Matches(s) && !DatePattern.Matches(s)
  {
    assert Lit("123")[0] == '1' as Unit;
    ContainedUnits(s, Lit("123"), '1' as Unit);
    forall i | 0 <= i < |s| ensures !DigitsAt(s, i, 4) && !DateAt(s, i) {
      assert !IsDigit(s[i]);
    }
  }

  /** No code unit equals the one two places on, so no run of three. */
  lemma NoTriple(s: String)
    requires forall i | 0 <= i < |s| - 2 :: s[i] != s[i + 2]
    ensures !RepeatedCharacters.Matches(s)
  {
  }

  /** When exactly one pattern matches, its name is all that is reported. */
  lemma DetectedExactly(p: String, pt: Pattern)
    requires pt.Matches(p)
    requires forall q: Pattern | q != pt :: !q.Matches(p)
    ensures Found(p, PatternCount) == [pt.Name()]
  {
    var r := Found(p, PatternCount);
    DetectedIff(p, pt);
    DetectedShape(p);
    forall i | 0 <= i < |r| ensures r[i] == pt.Name() {
      var q := PatternAt(NameOrdinal(r[i]));
      DetectedIff(p, q);
    }
    assert Elems(r) == {pt.Name()};
    DistinctCard(r);
  }

  /** The patterns `"password"` does not match. */
  lemma PasswordMisses(p: String, q: Pattern)
    requires p == Lit("password") && q != ContainsPassword
    ensures !q.Matches(p)
  {
    assert forall i | 0 <= i < |p| :: IsLower(p[i]);
    assert Lower(p) == p;
    match q {
      case SequentialNumbers =>
        assert Lit("123")[0] == '1' as Unit;
        ContainedUnits(p, Lit("123"), '1' as Unit);
      case SequentialLetters =>
        assert Lit("abc")[1] == 'b' as Unit;
        ContainedUnits(p, Lit("abc"), 'b' as Unit);
      case KeyboardPattern =>
        assert Lit("qwerty")[0] == 'q' as Unit;
        ContainedUnits(p, Lit("qwerty"), 'q' as Unit);
      case ContainsAdmin =>
        assert Lit("admin")[2] == 'm' as Unit;
        ContainedUnits(p, Lit("admin"), 'm' as Unit);
      case RepeatedCharacters =>
        assert p[0] != p[2] && p[1] != p[3] && p[2] != p[4] && p[3] != p[5] && p[4] != p[6] && p[5] != p[7];
        NoTriple(p);
      case FourDigitYear => NoDigitPatterns(p);
      case DatePattern => NoDigitPatterns(p);
    }
  }

  /** The only pattern `"password"` matches is its own. */
  lemma PasswordPatterns(p: String)
    requires p == Lit("password")
    ensures Found(p, PatternCount) == [ContainsPassword.Name()]
  {
    assert ContainsPassword.Matches(p) by {
      assert forall i | 0 <= i < |p| :: IsLower(p[i]);
      assert Lower(p) == p;
      assert OccursAt(Lower(p), Lit("password"), 0);
    }
    forall q: Pattern | q != ContainsPassword ensures !q.Matches(p) { PasswordMisses(p, q); }
    DetectedExactly(p, ContainsPassword);
  }

  /** Eight lower-case letters forming some pattern: one point (for the length),
      a crack time of hours (26^8 lies between 2^35 and 2^44) and a warning. */
  lemma LowercaseEight(p: String)
    requires |p| == 8 && forall i | 0 <= i < |p| :: IsLower(p[i])
    requires exists pt: Pattern :: pt.Matches(p)
    ensures var r := Analysis(p).value;
            r.score == 1 && r.crackTime == Hours && r.warning.Some?
  {
    LowercaseOnly(p);
    DetectedNone(p);
    EntropyPointNeedsTen(p);
    EightLowercaseBits();
    ScoreBreakdown(p);
  }

  /** 26^8 lies between 2^35 and 2^44. */
  lemma EightLowercaseBits()
    ensures EstimateCrackTime(Bits(26, 8)) == Hours
  {
    assert Pow(26, 8) == 208827064576 by {
      assert Pow(26, 1) == 26;
      assert Pow(26, 2) == 676 by { PowAdd(26, 1, 1); }
      assert Pow(26, 4) == 456976 by { PowAdd(26, 2, 2); }
      PowAdd(26, 4, 4);
    }
    ThresholdPowers();
  }

  /** `"password"`: its own pattern only, one point and a crack time of hours. */
  lemma PasswordExample(p: String)
    requires p == Lit("password")
    ensures var r := Analysis(p).value;
            r.patterns == [ContainsPassword.Name()] && r.score == 1 &&
            r.crackTime == Hours && r.warning.Some?
  {
    assert forall i | 0 <= i < |p| :: IsLower(p[i]);
    PasswordPatterns(p);
    DetectedIff(p, ContainsPassword);
    LowercaseEight(p);
  }
}
