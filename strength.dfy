/** The password strength analyser: character classes, an entropy estimate,
    named weak-pattern checks, an additive score capped at 4, suggestions, a
    warning and a crack-time bucket.

    The entropy `length * log2(charset)` is never computed: every comparison the
    analyser makes with it, `entropy < k` or `entropy > k`, is the comparison of
    the keyspace `charset ^ length` with `2 ^ k`. */
module Strength {
  import opened Text

  datatype Option<T> = None | Some(value: T)

  // ---------------------------------------------------------------------
  // Character classes

  /** The code units of the symbol class: the 32 ASCII punctuation marks (the
      space is not one of them). */
  const SymbolChars: String := Lit("!@#$%^&*()_+-=[]{};':\"\\|,.<>/?~`")

  predicate IsSymbol(c: Unit) { c in SymbolChars }

  predicate HasLower(p: String) { exists i | 0 <= i < |p| :: IsLower(p[i]) }
  predicate HasUpper(p: String) { exists i | 0 <= i < |p| :: IsUpper(p[i]) }
  predicate HasDigit(p: String) { exists i | 0 <= i < |p| :: IsDigit(p[i]) }
  predicate HasSymbol(p: String) { exists i | 0 <= i < |p| :: IsSymbol(p[i]) }

  /** A code unit of none of the four classes. */
  predicate Unclassified(c: Unit) {
    !IsLower(c) && !IsUpper(c) && !IsDigit(c) && !IsSymbol(c)
  }

  // ---------------------------------------------------------------------
  // Entropy

  function Pow(b: nat, e: nat): nat
    decreases e
  {
    if e == 0 then 1 else b * Pow(b, e - 1)
  }

  /** An entropy of `length * log2(charset)` bits, kept as its two integers. */
  datatype Bits = Bits(charset: nat, length: nat) {
    /** `2 ^ entropy`; zero when the charset is empty and the length is not. */
    function Keyspace(): nat { Pow(charset, length) }

    /** `entropy < k`. */
    predicate Below(k: nat) { Keyspace() < Pow(2, k) }

    /** `entropy > k`. */
    predicate Above(k: nat) { Keyspace() > Pow(2, k) }
  }

  /** The size of the character set: 26, 26, 10 and 32 for each class present. */
  function CharsetSize(p: String): nat {
    (if HasLower(p) then 26 else 0) + (if HasUpper(p) then 26 else 0) +
    (if HasDigit(p) then 10 else 0) + (if HasSymbol(p) then 32 else 0)
  }

  /** `calculateEntropy`. */
  method CalculateEntropy(password: String) returns (entropy: Bits)
    ensures entropy == Bits(CharsetSize(password), |password|)
  {
    if password == [] { return Bits(0, 0); }
    var charset := 0;
    if HasLower(password) { charset := charset + 26; }
    if HasUpper(password) { charset := charset + 26; }
    if HasDigit(password) { charset := charset + 10; }
    if HasSymbol(password) { charset := charset + 32; }
    entropy := Bits(charset, |password|);
  }

  // ---------------------------------------------------------------------
  // Crack time

  datatype CrackTime = Seconds | Minutes | Hours | DaysToMonths | Years | Decades | Centuries {
    function Label(): string {
      match this
      case Seconds => "Seconds"
      case Minutes => "Minutes"
      case Hours => "Hours"
      case DaysToMonths => "Days to Months"
      case Years => "Years"
      case Decades => "Decades"
      case Centuries => "Centuries+"
    }

    /** Position in the ascending list of buckets. */
    function Rank(): nat {
      match this
      case Seconds => 0
      case Minutes => 1
      case Hours => 2
      case DaysToMonths => 3
      case Years => 4
      case Decades => 5
      case Centuries => 6
    }
  }

  /** The bucket boundaries, in bits, ascending. */
  const Thresholds: seq<nat> := [28, 35, 44, 60, 70, 80]

  /** `estimateCrackTime`: the first threshold the entropy is strictly below. */
  function EstimateCrackTime(e: Bits): CrackTime {
    if e.Below(28) then Seconds
    else if e.Below(35) then Minutes
    else if e.Below(44) then Hours
    else if e.Below(60) then DaysToMonths
    else if e.Below(70) then Years
    else if e.Below(80) then Decades
    else Centuries
  }

  // ---------------------------------------------------------------------
  // Patterns

  predicate IsLineTerminator(c: Unit) {
    c == '\n' as Unit || c == '\r' as Unit || c == 0x2028 || c == 0x2029
  }

  /** `(.)\1{2,}` matches at `i`: the same code unit three times, not a line terminator. */
  predicate RepeatAt(s: String, i: int) {
    0 <= i && i + 2 < |s| && !IsLineTerminator(s[i]) && s[i + 1] == s[i] && s[i + 2] == s[i]
  }

  /** `\d{n}` matches at `i`. */
  predicate DigitsAt(s: String, i: int, n: nat) {
    0 <= i && i + n <= |s| && forall k | i <= k < i + n :: IsDigit(s[k])
  }

  /** `[\/\-]` matches at `i`. */
  predicate SepAt(s: String, i: int) {
    0 <= i < |s| && (s[i] == '/' as Unit || s[i] == '-' as Unit)
  }

  /** `\d{2,4}` matches at `j`. */
  predicate YearAt(s: String, j: int) {
    DigitsAt(s, j, 2) || DigitsAt(s, j, 3) || DigitsAt(s, j, 4)
  }

  /** `\d{1,2}[\/\-]\d{2,4}` matches at `j`. */
  predicate MonthYearAt(s: String, j: int) {
    (DigitsAt(s, j, 1) && SepAt(s, j + 1) && YearAt(s, j + 2)) ||
    (DigitsAt(s, j, 2) && SepAt(s, j + 2) && YearAt(s, j + 3))
  }

  /** `\d{1,2}[\/\-]\d{1,2}[\/\-]\d{2,4}` matches at `i`. */
  predicate DateAt(s: String, i: int) {
    (DigitsAt(s, i, 1) && SepAt(s, i + 1) && MonthYearAt(s, i + 2)) ||
    (DigitsAt(s, i, 2) && SepAt(s, i + 2) && MonthYearAt(s, i + 3))
  }

  /** The weak patterns, each with the name the report gives it. The four
      literal checks marked `i` in the source ignore ASCII case; without the
      `u` flag no other code unit folds onto an ASCII letter. The names, like
      every message of the report, are fixed ASCII text, kept as `string`. */
  datatype Pattern =
    | SequentialNumbers | SequentialLetters | KeyboardPattern | ContainsPassword
    | ContainsAdmin | RepeatedCharacters | FourDigitYear | DatePattern
  {
    function Name(): string {
      match this
      case SequentialNumbers => "Sequential numbers"
      case SequentialLetters => "Sequential letters"
      case KeyboardPattern => "Keyboard pattern"
      case ContainsPassword => "Contains \"password\""
      case ContainsAdmin => "Contains \"admin\""
      case RepeatedCharacters => "Repeated characters"
      case FourDigitYear => "4-digit year pattern"
      case DatePattern => "Date pattern"
    }

    predicate Matches(p: String) {
      match this
      case SequentialNumbers => Contains(p, Lit("123"))
      case SequentialLetters => Contains(Lower(p), Lit("abc"))
      case KeyboardPattern => Contains(Lower(p), Lit("qwerty"))
      case ContainsPassword => Contains(Lower(p), Lit("password"))
      case ContainsAdmin => Contains(Lower(p), Lit("admin"))
      case RepeatedCharacters => exists i | 0 <= i < |p| :: RepeatAt(p, i)
      case FourDigitYear => exists i | 0 <= i < |p| :: DigitsAt(p, i, 4)
      case DatePattern => exists i | 0 <= i < |p| :: DateAt(p, i)
    }

    /** Position in the order the checks run. */
    function Ordinal(): nat {
      match this
      case SequentialNumbers => 0
      case SequentialLetters => 1
      case KeyboardPattern => 2
      case ContainsPassword => 3
      case ContainsAdmin => 4
      case RepeatedCharacters => 5
      case FourDigitYear => 6
      case DatePattern => 7
    }
  }

  /** The number of checks. */
  const PatternCount: nat := 8

  /** The check that runs `k`-th; the inverse of `Ordinal`. */
  function PatternAt(k: nat): (pt: Pattern)
    requires k < PatternCount
    ensures pt.Ordinal() == k
  {
    match k
    case 0 => SequentialNumbers
    case 1 => SequentialLetters
    case 2 => KeyboardPattern
    case 3 => ContainsPassword
    case 4 => ContainsAdmin
    case 5 => RepeatedCharacters
    case 6 => FourDigitYear
    case _ => DatePattern
  }

  /** The name of `pt` if it matches `p`. */
  function Hit(p: String, pt: Pattern): seq<string> {
    if pt.Matches(p) then [pt.Name()] else []
  }

  /** The names of the first `n` checks that match `p`, in the order they run. */
  function Found(p: String, n: nat): seq<string>
    requires n <= PatternCount
  {
    if n == 0 then [] else Found(p, n - 1) + Hit(p, PatternAt(n - 1))
  }

  /** `detectPatterns`: the names of all the checks that match, in order. */
  method DetectPatterns(password: String) returns (patterns: seq<string>)
    ensures patterns == Found(password, PatternCount)
  {
    patterns := [];
    patterns := Check(password, SequentialNumbers, patterns);
    assert patterns == Found(password, 1);
    patterns := Check(password, SequentialLetters, patterns);
    assert patterns == Found(password, 2);
    patterns := Check(password, KeyboardPattern, patterns);
    assert patterns == Found(password, 3);
    patterns := Check(password, ContainsPassword, patterns);
    assert patterns == Found(password, 4);
    patterns := Check(password, ContainsAdmin, patterns);
    assert patterns == Found(password, 5);
    patterns := Check(password, RepeatedCharacters, patterns);
    assert patterns == Found(password, 6);
    patterns := Check(password, FourDigitYear, patterns);
    assert patterns == Found(password, 7);
    patterns := Check(password, DatePattern, patterns);
  }

  /** One line of `detectPatterns`: pushes the name of `pt` when it matches. */
  method Check(password: String, pt: Pattern, patterns: seq<string>) returns (pushed: seq<string>)
    ensures pushed == patterns + Hit(password, pt)
    ensures pt.Matches(password) ==> pushed == patterns + [pt.Name()]
    ensures !pt.Matches(password) ==> pushed == patterns
  {
    pushed := patterns;
    if pt.Matches(password) { pushed := pushed + [pt.Name()]; }
  }

  // ---------------------------------------------------------------------
  // Suggestions and warning

  const UseTwelve: string := "Use at least 12 characters for better security"
  const AddUppercase: string := "Add uppercase letters"
  const IncludeNumbers: string := "Include numbers"
  const AddSpecial: string := "Add special characters (!@#$%^&*)"
  const TooShort: string := "Password is too short - minimum 8 characters recommended"
  const Passphrase: string := "Consider using a passphrase with random words"

  /** The advice for a password of `length` code units, in the order given. */
  function Suggestions(length: nat, hasUpper: bool, hasNumbers: bool, hasSymbols: bool): seq<string> {
    (if length < 12 then [UseTwelve] else []) +
    (if !hasUpper then [AddUppercase] else []) +
    (if !hasNumbers then [IncludeNumbers] else []) +
    (if !hasSymbols then [AddSpecial] else []) +
    (if length < 8 then [TooShort] else []) +
    [Passphrase]
  }

  /** `generateSuggestions`; the lower-case flag is passed but never read. */
  method GenerateSuggestions(password: String, hasLower: bool, hasUpper: bool, hasNumbers: bool, hasSymbols: bool)
    returns (suggestions: seq<string>)
    ensures suggestions == Suggestions(|password|, hasUpper, hasNumbers, hasSymbols)
  {
    suggestions := [];
    if |password| < 12 { suggestions := suggestions + [UseTwelve]; }
    assert suggestions == (if |password| < 12 then [UseTwelve] else []);
    if !hasUpper { suggestions := suggestions + [AddUppercase]; }
    assert suggestions == (if |password| < 12 then [UseTwelve] else []) +
                          (if !hasUpper then [AddUppercase] else []);
    if !hasNumbers { suggestions := suggestions + [IncludeNumbers]; }
    assert suggestions == (if |password| < 12 then [UseTwelve] else []) +
                          (if !hasUpper then [AddUppercase] else []) +
                          (if !hasNumbers then [IncludeNumbers] else []);
    if !hasSymbols { suggestions := suggestions + [AddSpecial]; }
    assert suggestions == (if |password| < 12 then [UseTwelve] else []) +
                          (if !hasUpper then [AddUppercase] else []) +
                          (if !hasNumbers then [IncludeNumbers] else []) +
                          (if !hasSymbols then [AddSpecial] else []);
    if |password| < 8 { suggestions := suggestions + [TooShort]; }
    suggestions := suggestions + [Passphrase];
  }

  const WarningPrefix: string := "Detected vulnerable patterns: "
  const WarningSuffix: string := ". Consider avoiding predictable sequences."
  const WeakWarning: string := "Password is extremely weak and can be cracked in seconds."

  /** `generateWarnings`. */
  function GenerateWarnings(password: String, patterns: seq<string>): (r: Option<string>)
    ensures r.Some? <==> |patterns| > 0 || |password| < 6
    ensures |patterns| == 0 && |password| < 6 ==> r == Some(WeakWarning)
    ensures |patterns| > 0 ==> r.Some? && OccursAt(r.value, WarningPrefix, 0)
  {
    if |patterns| > 0 then Some(WarningPrefix + Join(patterns, ", ") + WarningSuffix)
    else if |password| < 6 then Some(WeakWarning)
    else None
  }

  // ---------------------------------------------------------------------
  // The report

  datatype Report = Report(
    score: nat,
    entropy: Bits,
    hasLowercase: bool,
    hasUppercase: bool,
    hasNumbers: bool,
    hasSymbols: bool,
    patterns: seq<string>,
    suggestions: seq<string>,
    warning: Option<string>,
    crackTime: CrackTime)

  /** `Math.min`. */
  function Min(a: int, b: int): (m: int)
    ensures m <= a && m <= b && (m == a || m == b)
  {
    if a <= b then a else b
  }

  function CountTrue(bs: seq<bool>): (n: nat)
    ensures n <= |bs|
    decreases |bs|
  {
    if bs == [] then 0 else Point(bs[0]) + CountTrue(bs[1..])
  }

  /** The seven criteria that each earn one point, in the order they are checked. */
  function Criteria(p: String, e: Bits, patterns: seq<string>): seq<bool> {
    [|p| >= 8, |p| >= 12, HasUpper(p) && HasLower(p), HasDigit(p), HasSymbol(p),
     e.Above(60), |patterns| == 0]
  }

  /** `analyzePassword`: nothing for the empty string, a report otherwise. */
  function Analysis(p: String): Option<Report> {
    if p == [] then None
    else
      var e := Bits(CharsetSize(p), |p|);
      var patterns := Found(p, PatternCount);
      Some(Report(
        Min(4, CountTrue(Criteria(p, e, patterns))), e,
        HasLower(p), HasUpper(p), HasDigit(p), HasSymbol(p),
        patterns,
        Suggestions(|p|, HasUpper(p), HasDigit(p), HasSymbol(p)),
        GenerateWarnings(p, patterns),
        EstimateCrackTime(e)))
  }

  /** `analyzePassword`, adding up the score one criterion at a time. */
  method AnalyzePassword(password: String) returns (r: Option<Report>)
    ensures r == Analysis(password)
  {
    if password == [] { return None; }

    var hasLowercase := HasLower(password);
    var hasUppercase := HasUpper(password);
    var hasNumbers := HasDigit(password);
    var hasSymbols := HasSymbol(password);

    var entropy := CalculateEntropy(password);
    var patterns := DetectPatterns(password);

    var score := Score(password, entropy, patterns);

    var suggestions := GenerateSuggestions(password, hasLowercase, hasUppercase, hasNumbers, hasSymbols);
    var warning := GenerateWarnings(password, patterns);
    var crackTime := EstimateCrackTime(entropy);

    r := Some(Report(score, entropy, hasLowercase, hasUppercase, hasNumbers, hasSymbols,
                     patterns, suggestions, warning, crackTime));
  }

  /** The score of `analyzePassword`: a point per criterion met, at most 4. */
  method Score(password: String, entropy: Bits, patterns: seq<string>) returns (score: nat)
    ensures score == Min(4, CountTrue(Criteria(password, entropy, patterns)))
  {
    score := 0;
    if |password| >= 8 { score := score + 1; }
    assert score == Point(|password| >= 8);
    if |password| >= 12 { score := score + 1; }
    assert score == Point(|password| >= 8) + Point(|password| >= 12);
    if HasUpper(password) && HasLower(password) { score := score + 1; }
    assert score == Point(|password| >= 8) + Point(|password| >= 12) + Point(HasUpper(password) && HasLower(password));
    if HasDigit(password) { score := score + 1; }
    assert score == Point(|password| >= 8) + Point(|password| >= 12) + Point(HasUpper(password) && HasLower(password)) + Point(HasDigit(password));
    if HasSymbol(password) { score := score + 1; }
    assert score == Point(|password| >= 8) + Point(|password| >= 12) + Point(HasUpper(password) && HasLower(password)) + Point(HasDigit(password)) + Point(HasSymbol(password));
    if entropy.Above(60) { score := score + 1; }
    assert score == Point(|password| >= 8) + Point(|password| >= 12) + Point(HasUpper(password) && HasLower(password)) + Point(HasDigit(password)) + Point(HasSymbol(password)) + Point(entropy.Above(60));
    if |patterns| == 0 { score := score + 1; }
    assert score == Point(|password| >= 8) + Point(|password| >= 12) + Point(HasUpper(password) && HasLower(password)) + Point(HasDigit(password)) + Point(HasSymbol(password)) + Point(entropy.Above(60)) + Point(|patterns| == 0);
    CriteriaCount(password, entropy, patterns);
    score := Min(4, score);
  }

  function Point(b: bool): nat { if b then 1 else 0 }

  /** The criteria met, counted one by one. */
  lemma CriteriaCount(p: String, e: Bits, patterns: seq<string>)
    ensures CountTrue(Criteria(p, e, patterns)) ==
            Point(|p| >= 8) + Point(|p| >= 12) + Point(HasUpper(p) && HasLower(p)) +
            Point(HasDigit(p)) + Point(HasSymbol(p)) + Point(e.Above(60)) + Point(|patterns| == 0)
  {
    var c := Criteria(p, e, patterns);
    assert CountTrue(c[6..]) == Point(c[6]) by { assert c[6..][1..] == []; }
    assert CountTrue(c[5..]) == Point(c[5]) + CountTrue(c[6..]) by { assert c[5..][1..] == c[6..]; }
    assert CountTrue(c[4..]) == Point(c[4]) + CountTrue(c[5..]) by { assert c[4..][1..] == c[5..]; }
    assert CountTrue(c[3..]) == Point(c[3]) + CountTrue(c[4..]) by { assert c[3..][1..] == c[4..]; }
    assert CountTrue(c[2..]) == Point(c[2]) + CountTrue(c[3..]) by { assert c[2..][1..] == c[3..]; }
    assert CountTrue(c[1..]) == Point(c[1]) + CountTrue(c[2..]) by { assert c[1..][1..] == c[2..]; }
  }
}
