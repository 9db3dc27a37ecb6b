/** The targeted wordlist generator: personal facts are normalised into base
    words, paired up, capitalised, transformed, and extended with years and
    suffixes; every insertion is gated by the length bounds and the candidates
    are collected in a set that is sorted at the end. */
module Wordlist {
  import opened Text
  import opened Ordering

  /** The personal-fact fields; an empty string is a field left blank. */
  datatype Facts = Facts(
    name: String,
    surname: String,
    nickname: String,
    birthYear: String,
    pet: String,
    company: String,
    customWords: String)

  datatype Options = Options(
    includeLeetspeak: bool,
    includeYears: bool,
    includeCommonSuffixes: bool,
    includeReverse: bool,
    minLength: int,
    maxLength: int)

  /** The gate every insertion into the candidate set passes. */
  predicate InBounds(w: String, o: Options) {
    o.minLength <= |w| && |w| <= o.maxLength
  }

  /** The members of `xs` that pass the gate. */
  function Gate(xs: set<String>, o: Options): set<String> {
    set x | x in xs && InBounds(x, o)
  }

  // ---------------------------------------------------------------------
  // Leetspeak

  /** The substitution table, in the order the entries are applied. */
  const LeetTable: seq<(Unit, Unit)> :=
    [('a' as Unit, '@' as Unit), ('e' as Unit, '3' as Unit), ('i' as Unit, '1' as Unit), ('o' as Unit, '0' as Unit),
     ('s' as Unit, '$' as Unit), ('t' as Unit, '7' as Unit), ('l' as Unit, '1' as Unit), ('g' as Unit, '9' as Unit)]

  /** The letters the table replaces. */
  const LeetLetters: String := Lit("aeiostlg")

  /** The table's letters are `LeetLetters`, in order, and every one is a
      lower-case letter, while no replacement is. */
  lemma LeetTableLetters()
    ensures |LeetLetters| == |LeetTable|
    ensures forall j | 0 <= j < |LeetTable| ::
              LeetTable[j].0 == LeetLetters[j] && IsLower(LeetTable[j].0) && !IsLower(LeetTable[j].1)
  {
  }

  /** The replacement of the first entry of `table` whose letter is `c`, or `c`. */
  function Lookup(table: seq<(Unit, Unit)>, c: Unit): Unit
    decreases |table|
  {
    if table == [] then c
    else if table[0].0 == c then table[0].1
    else Lookup(table[1..], c)
  }

  /** `applyLeetspeak` as one substitution per code unit of the lower-cased word. */
  function Leet(w: String): (r: String)
    ensures |r| == |w|
  {
    seq(|w|, i requires 0 <= i < |w| => Lookup(LeetTable, ToLowerChar(w[i])))
  }

  /** `s.replace(new RegExp(from, "g"), to)` for a one-letter pattern and a
      one-character replacement (a lone `$` is copied literally). */
  function ReplaceAll(s: String, from: Unit, to: Unit): (r: String)
    ensures |r| == |s|
    ensures forall i | 0 <= i < |s| :: r[i] == (if s[i] == from then to else s[i])
  {
    seq(|s|, i requires 0 <= i < |s| => if s[i] == from then to else s[i])
  }

  /** Lower-cases the word, then replaces every occurrence of each table
      letter in turn. */
  method ApplyLeetspeak(word: String) returns (leetWord: String)
    ensures leetWord == Leet(word)
  {
    leetWord := Lower(word);
    for k := 0 to |LeetTable|
      invariant |leetWord| == |word|
      invariant forall i | 0 <= i < |word| :: leetWord[i] == Lookup(LeetTable[..k], ToLowerChar(word[i]))
    {
      forall i | 0 <= i < |word|
        ensures Lookup(LeetTable[..k + 1], ToLowerChar(word[i])) ==
                (if leetWord[i] == LeetTable[k].0 then LeetTable[k].1 else leetWord[i])
      {
        LookupStep(k, ToLowerChar(word[i]));
      }
      leetWord := ReplaceAll(leetWord, LeetTable[k].0, LeetTable[k].1);
    }
    assert LeetTable[..|LeetTable|] == LeetTable;
  }

  /** No replacement character is itself a letter of the table, so applying
      the entries one after another is the same as one lookup per character. */
  lemma LookupStep(k: nat, c: Unit)
    requires k < |LeetTable|
    ensures Lookup(LeetTable[..k + 1], c) ==
            (var o := Lookup(LeetTable[..k], c); if o == LeetTable[k].0 then LeetTable[k].1 else o)
  {
    LookupAppend(LeetTable[..k], LeetTable[k], c);
    assert LeetTable[..k + 1] == LeetTable[..k] + [LeetTable[k]];
    LookupRange(LeetTable[..k], c);
    LeetTableLetters();
  }

  lemma {:induction false} LookupAppend(t: seq<(Unit, Unit)>, e: (Unit, Unit), c: Unit)
    ensures Lookup(t + [e], c) ==
            if exists j | 0 <= j < |t| :: t[j].0 == c then Lookup(t, c)
            else if e.0 == c then e.1 else c
    decreases |t|
  {
    if t != [] {
      assert (t + [e])[1..] == t[1..] + [e];
      LookupAppend(t[1..], e, c);
      if t[0].0 != c {
        assert (exists j | 0 <= j < |t| :: t[j].0 == c) <==> (exists j | 0 <= j < |t[1..]| :: t[1..][j].0 == c) by {
          forall j | 0 < j < |t| ensures t[j].0 == t[1..][j - 1].0 { }
        }
      }
    }
  }

  /** A lookup gives back `c` when no entry has letter `c`, and otherwise one of
      the table's replacements. */
  lemma {:induction false} LookupRange(t: seq<(Unit, Unit)>, c: Unit)
    ensures (forall j | 0 <= j < |t| :: t[j].0 != c) ==> Lookup(t, c) == c
    ensures (exists j | 0 <= j < |t| :: t[j].0 == c) ==> exists j | 0 <= j < |t| :: Lookup(t, c) == t[j].1
    decreases |t|
  {
    if t != [] {
      LookupRange(t[1..], c);
      if t[0].0 != c {
        if exists j | 0 <= j < |t| :: t[j].0 == c {
          var j :| 0 <= j < |t| && t[j].0 == c;
          assert t[1..][j - 1].0 == c;
          var m :| 0 <= m < |t[1..]| && Lookup(t[1..], c) == t[1..][m].1;
          assert Lookup(t, c) == t[m + 1].1;
        }
      }
    }
  }

  // ---------------------------------------------------------------------
  // Reversal and capitalisation

  /** `word.split("").reverse().join("")`. */
  function ReverseWord(word: String): (r: String)
    ensures |r| == |word|
    ensures forall i | 0 <= i < |word| :: r[i] == word[|word| - 1 - i]
    decreases |word|
  {
    if word == [] then [] else ReverseWord(word[1..]) + [word[0]]
  }

  /** First code unit upper-cased, the rest lower-cased; the empty word stays. */
  function CapitalizeWord(word: String): (r: String)
    ensures |r| == |word|
    ensures forall i | 0 <= i < |word| :: ToLowerChar(r[i]) == ToLowerChar(word[i])
    ensures r != [] ==> !IsLower(r[0])
    ensures forall i | 1 <= i < |r| :: !IsUpper(r[i])
  {
    if word == [] then word
    else [ToUpperChar(word[0])] + Lower(word[1..])
  }

  // ---------------------------------------------------------------------
  // Base words

  /** The tokens short enough to be paired. */
  function ShortWords(words: seq<String>): (r: seq<String>)
    ensures forall w :: w in r <==> w in words && 0 < |w| < 10
    ensures (forall w | w in words :: 0 < |w| < 10) ==> r == words
  {
    Filter(words, w => 0 < |w| < 10)
  }

  /** The concatenations pushed for `i` and the partners `i + 1 .. j - 1`. */
  function Row(v: seq<String>, i: nat, j: nat): (r: seq<String>)
    requires i < j <= |v|
    ensures |r| == 2 * (j - i - 1)
    decreases j
  {
    if j == i + 1 then []
    else Row(v, i, j - 1) + [v[i] + v[j - 1], v[j - 1] + v[i]]
  }

  /** The concatenations pushed by the first `i` rounds of the outer loop. */
  function PairsBefore(v: seq<String>, i: nat): seq<String>
    requires i <= |v|
  {
    if i == 0 then [] else PairsBefore(v, i - 1) + Row(v, i - 1, |v|)
  }

  /** Both concatenation orders of every pair of `v`, in the source's push order. */
  function Combinations(v: seq<String>): seq<String> {
    PairsBefore(v, |v|)
  }

  /** `generateCombinations`: pairs up the short tokens. */
  method GenerateCombinations(words: seq<String>) returns (combinations: seq<String>)
    ensures combinations == Combinations(ShortWords(words))
  {
    combinations := [];
    var validWords := ShortWords(words);
    for i := 0 to |validWords|
      invariant combinations == PairsBefore(validWords, i)
    {
      combinations := PushRow(validWords, i, combinations);
    }
  }

  /** The inner loop of `generateCombinations` for token `i`: both orders of
      `i` with every later token. */
  method PushRow(validWords: seq<String>, i: nat, combinations: seq<String>) returns (pushed: seq<String>)
    requires i < |validWords|
    ensures pushed == combinations + Row(validWords, i, |validWords|)
  {
    pushed := combinations;
    for j := i + 1 to |validWords|
      invariant pushed == combinations + Row(validWords, i, j)
    {
      pushed := pushed + [validWords[i] + validWords[j]];
      pushed := pushed + [validWords[j] + validWords[i]];
    }
  }

  /** A filled-in name field: lower-cased, then trimmed. */
  function NameToken(field: String): seq<String> {
    if field != [] then [Trim(Lower(field))] else []
  }

  /** The birth year as typed and, for four code units, its last two. */
  function YearTokens(birthYear: String): seq<String> {
    if birthYear == [] then []
    else [birthYear] + (if |birthYear| == 4 then [birthYear[2..]] else [])
  }

  /** The comma-separated custom words, each trimmed and lower-cased, empty ones dropped. */
  function CustomTokens(customWords: String): seq<String> {
    if customWords == [] then []
    else
      var pieces := Split(customWords, ',' as Unit);
      Filter(seq(|pieces|, i requires 0 <= i < |pieces| => Lower(Trim(pieces[i]))), w => |w| > 0)
  }

  /** The tokens pushed before the combinations, in push order. */
  function FieldTokens(f: Facts): seq<String> {
    NameToken(f.name) + NameToken(f.surname) + NameToken(f.nickname) +
    NameToken(f.pet) + NameToken(f.company) +
    YearTokens(f.birthYear) + CustomTokens(f.customWords)
  }

  function CapitalizeEach(words: seq<String>): (r: seq<String>)
    ensures |r| == |words|
  {
    seq(|words|, i requires 0 <= i < |words| => CapitalizeWord(words[i]))
  }

  /** The tokens with their combinations, followed by all of those capitalised. */
  function Expanded(tokens: seq<String>): seq<String> {
    var all := tokens + Combinations(ShortWords(tokens));
    all + CapitalizeEach(all)
  }

  /** What `extractBaseWords` returns for the facts `f`. */
  function BaseWords(f: Facts): seq<String> {
    Dedup(Filter(Expanded(FieldTokens(f)), w => |w| > 0))
  }

  /** Pushes a filled-in name field, lower-cased and trimmed. */
  method PushName(words: seq<String>, field: String) returns (r: seq<String>)
    ensures r == words + NameToken(field)
  {
    r := words;
    if field != [] { r := r + [Trim(Lower(field))]; }
  }

  /** `extractBaseWords`. */
  method ExtractBaseWords(f: Facts) returns (words: seq<String>)
    ensures words == BaseWords(f)
  {
    words := [];
    words := PushName(words, f.name);
    assert words == NameToken(f.name);
    words := PushName(words, f.surname);
    words := PushName(words, f.nickname);
    words := PushName(words, f.pet);
    words := PushName(words, f.company);
    ghost var names := words;
    if f.birthYear != [] {
      words := words + [f.birthYear];
      if |f.birthYear| == 4 {
        words := words + [f.birthYear[|f.birthYear| - 2..]];
      }
    }
    assert words == names + YearTokens(f.birthYear);
    if f.customWords != [] {
      var customList := CustomTokens(f.customWords);
      words := words + customList;
    }
    assert words == FieldTokens(f);
    ghost var tokens := words;
    var combinations := GenerateCombinations(words);
    words := words + combinations;
    var capitalizedWords := CapitalizeEach(words);
    words := words + capitalizedWords;
    assert words == Expanded(tokens);
    words := Dedup(Filter(words, w => |w| > 0));
  }

  // ---------------------------------------------------------------------
  // Years and suffixes

  const Years: seq<String> :=
    [Lit("2020"), Lit("2021"), Lit("2022"), Lit("2023"), Lit("2024"),
     Lit("20"), Lit("21"), Lit("22"), Lit("23"), Lit("24")]

  const Suffixes: seq<String> :=
    [Lit("!"), Lit("@"), Lit("#"), Lit("$"), Lit("123"), Lit("1"), Lit("01"), Lit("99"), Lit("!@#"), Lit("123!")]

  /** Every word with every year appended and prepended. */
  function YearVariants(words: set<String>): set<String> {
    (set w, y | w in words && y in Years :: w + y) + (set w, y | w in words && y in Years :: y + w)
  }

  /** Every word with every suffix appended. */
  function SuffixVariants(words: set<String>): set<String> {
    set w, s | w in words && s in Suffixes :: w + s
  }

  /** `addYearCombinations`: for each word and then each year, `word + year`
      followed by `year + word`. */
  method AddYearCombinations(words: seq<String>) returns (combinations: seq<String>)
    ensures |combinations| == 20 * |words|
    ensures forall i, k | 0 <= i < |words| && 0 <= k < 10 ::
              combinations[20 * i + 2 * k] == words[i] + Years[k] &&
              combinations[20 * i + 2 * k + 1] == Years[k] + words[i]
    ensures Elems(combinations) == YearVariants(Elems(words))
  {
    combinations := [];
    for i := 0 to |words|
      invariant |combinations| == 20 * i
      invariant forall i', k | 0 <= i' < i && 0 <= k < 10 ::
                  combinations[20 * i' + 2 * k] == words[i'] + Years[k] &&
                  combinations[20 * i' + 2 * k + 1] == Years[k] + words[i']
    {
      for k := 0 to |Years|
        invariant |combinations| == 20 * i + 2 * k
        invariant forall i', k' | 0 <= i' < i && 0 <= k' < 10 ::
                    combinations[20 * i' + 2 * k'] == words[i'] + Years[k'] &&
                    combinations[20 * i' + 2 * k' + 1] == Years[k'] + words[i']
        invariant forall k' | 0 <= k' < k ::
                    combinations[20 * i + 2 * k'] == words[i] + Years[k'] &&
                    combinations[20 * i + 2 * k' + 1] == Years[k'] + words[i]
      {
        combinations := combinations + [words[i] + Years[k]];
        combinations := combinations + [Years[k] + words[i]];
      }
    }
    YearCombinationsElems(words, combinations);
  }

  lemma YearCombinationsElems(words: seq<String>, c: seq<String>)
    requires |c| == 20 * |words|
    requires forall i, k | 0 <= i < |words| && 0 <= k < 10 ::
               c[20 * i + 2 * k] == words[i] + Years[k] && c[20 * i + 2 * k + 1] == Years[k] + words[i]
    ensures Elems(c) == YearVariants(Elems(words))
  {
    forall x | x in Elems(c) ensures x in YearVariants(Elems(words)) {
      var m :| 0 <= m < |c| && c[m] == x;
      var i, k, r := YearIndex(m, |words|);
      assert words[i] in Elems(words) && Years[k] in Years;
      if r == 0 {
        assert x == words[i] + Years[k];
      } else {
        assert x == Years[k] + words[i];
      }
    }
    forall x | x in YearVariants(Elems(words)) ensures x in Elems(c) {
      var w, y :| w in words && y in Years && (x == w + y || x == y + w);
      var i :| 0 <= i < |words| && words[i] == w;
      var k :| 0 <= k < 10 && Years[k] == y;
      assert c[20 * i + 2 * k] == w + y && c[20 * i + 2 * k + 1] == y + w;
    }
  }

  /** Position `m` of a 20-per-word list is entry `2 * k + r` of word `i`. */
  lemma YearIndex(m: nat, n: nat) returns (i: nat, k: nat, r: nat)
    requires m < 20 * n
    ensures i < n && k < 10 && r < 2 && m == 20 * i + 2 * k + r
  {
    i, k, r := m / 20, (m % 20) / 2, m % 2;
  }

  /** Position `m` of a 10-per-word list is entry `k` of word `i`. */
  lemma SuffixIndex(m: nat, n: nat) returns (i: nat, k: nat)
    requires m < 10 * n
    ensures i < n && k < 10 && m == 10 * i + k
  {
    i, k := m / 10, m % 10;
  }

  /** `addCommonSuffixes`: for each word and then each suffix, `word + suffix`. */
  method AddCommonSuffixes(words: seq<String>) returns (combinations: seq<String>)
    ensures |combinations| == 10 * |words|
    ensures forall i, k | 0 <= i < |words| && 0 <= k < 10 ::
              combinations[10 * i + k] == words[i] + Suffixes[k]
    ensures Elems(combinations) == SuffixVariants(Elems(words))
  {
    combinations := [];
    for i := 0 to |words|
      invariant |combinations| == 10 * i
      invariant forall i', k | 0 <= i' < i && 0 <= k < 10 ::
                  combinations[10 * i' + k] == words[i'] + Suffixes[k]
    {
      for k := 0 to |Suffixes|
        invariant |combinations| == 10 * i + k
        invariant forall i', k' | 0 <= i' < i && 0 <= k' < 10 ::
                    combinations[10 * i' + k'] == words[i'] + Suffixes[k']
        invariant forall k' | 0 <= k' < k :: combinations[10 * i + k'] == words[i] + Suffixes[k']
      {
        combinations := combinations + [words[i] + Suffixes[k]];
      }
    }
    SuffixCombinationsElems(words, combinations);
  }

  lemma SuffixCombinationsElems(words: seq<String>, c: seq<String>)
    requires |c| == 10 * |words|
    requires forall i, k | 0 <= i < |words| && 0 <= k < 10 :: c[10 * i + k] == words[i] + Suffixes[k]
    ensures Elems(c) == SuffixVariants(Elems(words))
  {
    forall x | x in Elems(c) ensures x in SuffixVariants(Elems(words)) {
      var m :| 0 <= m < |c| && c[m] == x;
      var i, k := SuffixIndex(m, |words|);
      assert words[i] in Elems(words) && Suffixes[k] in Suffixes;
    }
    forall x | x in SuffixVariants(Elems(words)) ensures x in Elems(c) {
      var w, s :| w in words && s in Suffixes && x == w + s;
      var i :| 0 <= i < |words| && words[i] == w;
      var k :| 0 <= k < 10 && Suffixes[k] == s;
      assert c[10 * i + k] == x;
    }
  }

  // ---------------------------------------------------------------------
  // The pipeline

  datatype Transformation = LeetspeakStep | ReverseStep

  /** The transformations, in the order `generateWordlist` lists them. */
  function Transformations(o: Options): seq<Transformation> {
    (if o.includeLeetspeak then [LeetspeakStep] else []) + (if o.includeReverse then [ReverseStep] else [])
  }

  function Transform(t: Transformation, w: String): String {
    match t
    case LeetspeakStep => Leet(w)
    case ReverseStep => ReverseWord(w)
  }

  /** Every transformation of `ts` applied to every word of `words`. */
  function TransformedWords(words: seq<String>, ts: seq<Transformation>): set<String> {
    set w, t | w in words && t in ts :: Transform(t, w)
  }

  /** The set after the year stage. */
  function YearStage(s: set<String>, o: Options): set<String> {
    if o.includeYears then s + Gate(YearVariants(s), o) else s
  }

  /** The set after the suffix stage. */
  function SuffixStage(s: set<String>, o: Options): set<String> {
    if o.includeCommonSuffixes then s + Gate(SuffixVariants(s), o) else s
  }

  /** The set after seeding and the transformations. */
  function TransformStage(base: seq<String>, o: Options): set<String> {
    Gate(Elems(base), o) + Gate(TransformedWords(base, Transformations(o)), o)
  }

  /** The members of the candidate set that `generateWordlist` sorts. */
  function Candidates(f: Facts, o: Options): set<String> {
    SuffixStage(YearStage(TransformStage(BaseWords(f), o), o), o)
  }

  /** `[...set]`: the members of a set, each once. */
  method Snapshot(s: set<String>) returns (xs: seq<String>)
    ensures Elems(xs) == s
    ensures |xs| == |s|
  {
    xs := [];
    var rest := s;
    while rest != {}
      invariant rest <= s
      invariant Elems(xs) == s - rest
      invariant |xs| + |rest| == |s|
      invariant Distinct(xs)
      decreases |rest|
    {
      var x :| x in rest;
      assert Elems(xs + [x]) == Elems(xs) + {x};
      xs := xs + [x];
      rest := rest - {x};
    }
    DistinctCard(xs);
  }

  /** Inserts into `wordlist` every member of `words` that passes the gate. */
  method AddGated(wordlist: set<String>, words: seq<String>, o: Options) returns (grown: set<String>)
    ensures grown == wordlist + Gate(Elems(words), o)
  {
    grown := wordlist;
    for i := 0 to |words|
      invariant grown == wordlist + Gate(Elems(words[..i]), o)
    {
      assert Elems(words[..i + 1]) == Elems(words[..i]) + {words[i]} by {
        assert words[..i + 1] == words[..i] + [words[i]];
      }
      if |words[i]| >= o.minLength && |words[i]| <= o.maxLength {
        grown := grown + {words[i]};
      }
    }
    assert words[..|words|] == words;
  }

  /** Inserts every transformation of every base word that passes the gate. */
  method ApplyTransformations(wordlist: set<String>, baseWords: seq<String>, transformations: seq<Transformation>, o: Options)
    returns (grown: set<String>)
    ensures grown == wordlist + Gate(TransformedWords(baseWords, transformations), o)
  {
    grown := wordlist;
    for i := 0 to |baseWords|
      invariant grown == wordlist + Gate(TransformedWords(baseWords[..i], transformations), o)
    {
      var word := baseWords[i];
      ghost var done := grown;
      for k := 0 to |transformations|
        invariant grown == done + Gate(TransformedWords([word], transformations[..k]), o)
      {
        var transformed;
        match transformations[k] {
          case LeetspeakStep => transformed := ApplyLeetspeak(word);
          case ReverseStep => transformed := ReverseWord(word);
        }
        assert transformed == Transform(transformations[k], word);
        TransformedWordsOneMore(word, transformations, k, o);
        if |transformed| >= o.minLength && |transformed| <= o.maxLength {
          grown := grown + {transformed};
        }
      }
      assert transformations[..|transformations|] == transformations;
      TransformedWordsStep(baseWords, i, transformations, o);
    }
    assert baseWords[..|baseWords|] == baseWords;
  }

  lemma TransformedWordsStep(words: seq<String>, i: nat, ts: seq<Transformation>, o: Options)
    requires i < |words|
    ensures Gate(TransformedWords(words[..i + 1], ts), o) ==
            Gate(TransformedWords(words[..i], ts), o) + Gate(TransformedWords([words[i]], ts), o)
  {
    assert words[..i + 1] == words[..i] + [words[i]];
    assert TransformedWords(words[..i + 1], ts) == TransformedWords(words[..i], ts) + TransformedWords([words[i]], ts);
  }

  lemma TransformedWordsOneMore(w: String, ts: seq<Transformation>, k: nat, o: Options)
    requires k < |ts|
    ensures Gate(TransformedWords([w], ts[..k + 1]), o) ==
            Gate(TransformedWords([w], ts[..k]), o) + (if InBounds(Transform(ts[k], w), o) then {Transform(ts[k], w)} else {})
  {
    assert ts[..k + 1] == ts[..k] + [ts[k]];
    assert TransformedWords([w], ts[..k + 1]) == TransformedWords([w], ts[..k]) + {Transform(ts[k], w)};
  }

  /** `generateWordlist`: the candidates, sorted and each once. */
  method GenerateWordlist(f: Facts, o: Options) returns (r: seq<String>)
    ensures StrictlySorted(r)
    ensures forall x :: x in r <==> x in Candidates(f, o)
    ensures forall k | 0 <= k < |r| :: o.minLength <= |r[k]| <= o.maxLength
    ensures o.minLength > o.maxLength ==> r == []
  {
    var baseWords := ExtractBaseWords(f);
    var wordlist := AddGated({}, baseWords, o);

    var transformations: seq<Transformation> := [];
    if o.includeLeetspeak { transformations := transformations + [LeetspeakStep]; }
    assert transformations == (if o.includeLeetspeak then [LeetspeakStep] else []);
    if o.includeReverse { transformations := transformations + [ReverseStep]; }
    assert transformations == Transformations(o);

    wordlist := ApplyTransformations(wordlist, baseWords, transformations, o);
    assert wordlist == TransformStage(baseWords, o);
    wordlist := YearPass(wordlist, o);
    wordlist := SuffixPass(wordlist, o);
    assert wordlist == Candidates(f, o);

    r := SortedList(wordlist);
    SortedCandidatesInBounds(f, o, r);
  }

  /** Generating twice from the same facts and options gives the same list,
      whichever order the set snapshots happen to take. */
  method GenerateTwice(f: Facts, o: Options) returns (first: seq<String>, second: seq<String>)
    ensures first == second
  {
    first := GenerateWordlist(f, o);
    second := GenerateWordlist(f, o);
    SortedUnique(first, second);
  }

  /** The year stage: year variants of a snapshot of the set, gated and inserted. */
  method YearPass(wordlist: set<String>, o: Options) returns (grown: set<String>)
    ensures grown == YearStage(wordlist, o)
  {
    grown := wordlist;
    if o.includeYears {
      var snapshot := Snapshot(wordlist);
      var wordsWithYears := AddYearCombinations(snapshot);
      grown := AddGated(wordlist, wordsWithYears, o);
    }
  }

  /** The suffix stage: suffix variants of a snapshot of the set, gated and inserted. */
  method SuffixPass(wordlist: set<String>, o: Options) returns (grown: set<String>)
    ensures grown == SuffixStage(wordlist, o)
  {
    grown := wordlist;
    if o.includeCommonSuffixes {
      var snapshot := Snapshot(wordlist);
      var wordsWithSuffixes := AddCommonSuffixes(snapshot);
      grown := AddGated(wordlist, wordsWithSuffixes, o);
    }
  }

  /** A list holding exactly the candidates holds only words within the bounds. */
  lemma SortedCandidatesInBounds(f: Facts, o: Options, r: seq<String>)
    requires forall x :: x in r <==> x in Candidates(f, o)
    ensures forall k | 0 <= k < |r| :: o.minLength <= |r[k]| <= o.maxLength
    ensures o.minLength > o.maxLength ==> r == []
  {
    CandidatesInBounds(f, o);
    forall k | 0 <= k < |r| ensures InBounds(r[k], o) {
      assert r[k] in r;
    }
    if r != [] {
      assert InBounds(r[0], o);
    }
  }

  /** Every candidate passes the length gate. */
  lemma CandidatesInBounds(f: Facts, o: Options)
    ensures forall x | x in Candidates(f, o) :: InBounds(x, o)
  {
  }
}
