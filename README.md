# Password strength analyser and targeted wordlist generator, in Dafny

This project models the two engines of a password tool:

- **The wordlist generator** (`src/utils/wordlistPatterns.js`). It turns personal facts into a sorted, duplicate-free list of candidate passwords. The facts are name, surname, nickname, birth year, pet, company and comma-separated custom words.
  - The facts are normalised into tokens.
  - Short tokens are paired both ways, and everything is capitalised and de-duplicated.
  - The result seeds a set through a length gate.
  - Optional stages add leetspeak and reversed forms, then year variants of a snapshot of the set, then suffix variants of a snapshot taken after that.
  - The set is sorted at the end.
- **The strength analyser** (`src/utils/passwordStrength.js`). It maps a password to a report:
  - four character-class flags;
  - an entropy estimate;
  - the weak patterns it matches;
  - a score from 0 to 4;
  - suggestions;
  - a warning;
  - a crack-time bucket.

The files:

- `text.dfy`, module `Text`: the JavaScript string built-ins both engines use. A JavaScript string is a sequence of UTF-16 code units, so a string here is a `seq<Unit>`, where `Unit` is a `newtype` of the integers 0 to 0xFFFF. A character above U+FFFF is two units, and lone surrogates are allowed, exactly as in JavaScript. `Lit` turns a Dafny literal of such characters into its units.
  - ASCII `toLowerCase`/`toUpperCase`;
  - `trim` with the ECMAScript white-space set;
  - `split`, `join` and `filter`;
  - `[...new Set(xs)]` as `Dedup`;
  - substring search.
- `ordering.dfy`, module `Ordering`: the default `Array.prototype.sort` order (code unit by code unit, a prefix first), and `Array.from(set).sort()` as an insertion into a strictly sorted sequence.
- `wordlist.dfy`, module `Wordlist`: the generator.
  - Each array builder is a method with loops, proved equal to a specification function.
  - The insertion loops of `generateWordlist` are methods that update a `set`.
  - `GenerateWordlist` is proved to return exactly the sorted members of `Candidates(f, o)`.
- `wordlist_props.dfy`, module `WordlistProperties`: the laws of the word helpers, the count and shape of the combinations, the shape of the base words, and the growth and monotonicity of the candidate set.
- `strength.dfy`, module `Strength`: the analyser. The step-by-step parts are methods proved equal to the function `Analysis`: the charset sum, the pattern list, the score tally and the suggestion list. The pattern names, suggestions, warnings and bucket labels are fixed ASCII text, kept as Dafny `string`s.
- `strength_props.dfy`, module `StrengthProperties`: the properties of the report.
  - the charset values;
  - the crack-time thresholds and monotonicity;
  - the pattern list's order, distinctness and exact membership;
  - the suggestion and warning conditions;
  - the score breakdown;
  - a worked example (`"password"`).

Entropy is never computed as a real number. `length * log2(charset)` is kept as the pair `Bits(charset, length)`. Each comparison the analyser makes is a comparison of integers:

- `entropy < k` is `charset ^ length < 2 ^ k`;
- `entropy > k` is `charset ^ length > 2 ^ k`.

`EstimateCrackTime` (`src/utils/passwordStrength.js:144-152`) returns a `CrackTime` bucket rather than its text; `CrackTime.Label()` supplies the display strings of lines 145-151. The lemmas `CrackTimeLowerBound` and `CrackTimeUpperBound` together determine the bucket for every keyspace, and `CrackTimeMonotone` orders the buckets.

A non-empty password none of whose code units is in a class has charset 0. The source then computes `Math.log2(0)`, which is `-Infinity`. Here its keyspace is `0 ^ length = 0`, which gives the fastest bucket and no entropy point, just as the source does (`UnclassifiedIsWeakest`). Space is not in the symbol class.

Behaviour of the code worth knowing:

- Custom words `"rex, Max"` give the tokens `rex` and `max`. They also give the combinations `rexmax` and `maxrex`, and the capitalised `Rex`, `Max`, `Rexmax` and `Maxrex`, in that order (`BaseWordsExample`).
- The birth year is pushed exactly as typed: it is not trimmed or lower-cased. Its last two code units are added only when it is exactly four code units long (`src/utils/wordlistPatterns.js:79-85`).
- Name fields are lower-cased and then trimmed. Custom words are trimmed and then lower-cased. With ASCII case mapping the two orders give the same result.
- The entropy of a non-empty password with an empty character set is `-Infinity`, not 0.
- `(.)\1{2,}` matches three equal code units that are not line terminators, because `.` does not match `\n`, `\r`, U+2028 or U+2029.
- In the leetspeak replacement `"$"`, a lone `$` is copied literally, so `s` becomes `$`.
- A field counts as filled in when it is a non-empty string (JavaScript truthiness). An empty string stands for a missing field.

## Model

| member | source | states |
|---|---|---|
| Text.Lower | src/utils/wordlistPatterns.js:72 | lower-casing keeps the length and maps each code unit by ASCII `toLowerCase` |
| Text.SkipWhite | src/utils/wordlistPatterns.js:72 | the scan from `i` stops at the first unit that is not white space, and everything it passes is white space |
| Text.SkipWhiteBack | src/utils/wordlistPatterns.js:72 | the backward scan stops after the last unit that is not white space, not before `i`, and everything it passes is white space |
| Text.Trim | src/utils/wordlistPatterns.js:72 | the trimmed string is a slice of the original; every unit before and after the slice is ECMAScript white space, and neither its first nor its last unit is |
| Text.Split | src/utils/wordlistPatterns.js:89-90 | splitting on `,` gives at least one piece, and no piece holds a comma |
| Text.JoinSplit | src/utils/wordlistPatterns.js:89-90 | joining the pieces of a split with the separator gives the original string back |
| Text.Filter | src/utils/wordlistPatterns.js:92 | the filtered list holds exactly the elements that satisfy the predicate, is no longer than the input, and is the input itself when every element passes |
| Text.FilterSingleton | src/utils/wordlistPatterns.js:92 | a one-element list keeps its element exactly when it passes |
| Text.FilterAppend | src/utils/wordlistPatterns.js:92 | filtering a concatenation concatenates the filtered parts, so order and repeats are kept; with `FilterSingleton` this determines `filter` completely |
| Text.Dedup | src/utils/wordlistPatterns.js:105 | `[...new Set(xs)]` has no repetition and the same members as `xs`, and is `xs` itself when `xs` has no repetition |
| Text.JoinContainsParts | src/utils/passwordStrength.js:132-134 | every joined piece occurs in the joined string |
| Ordering.InsertSorted | src/utils/wordlistPatterns.js:65 | inserting a new string into a strictly sorted list keeps it strictly sorted, adds one element and adds exactly that member |
| Ordering.SortedList | src/utils/wordlistPatterns.js:65 | `Array.from(set).sort()` is strictly ascending in code-unit order, has as many elements as the set and exactly its members |
| Ordering.SortedIsDistinct | src/utils/wordlistPatterns.js:65 | a strictly sorted list has no duplicates |
| Ordering.SortedUnique | src/utils/wordlistPatterns.js:65 | two strictly sorted lists with the same members are equal, so sorting a set has one result |
| Wordlist.ApplyLeetspeak | src/utils/wordlistPatterns.js:125-143 | lower-casing and then eight global replacements in table order give one table lookup per lower-cased code unit |
| Wordlist.LeetTableLetters | src/utils/wordlistPatterns.js:126-135 | the table's letters are `a e i o s t l g` in order, all lower-case letters, and no replacement is a lower-case letter |
| Wordlist.ReplaceAll | src/utils/wordlistPatterns.js:139 | a global one-letter replacement keeps the length, replaces each occurrence and leaves every other code unit alone |
| WordlistProperties.LeetTableFacts | src/utils/wordlistPatterns.js:126-135 | no replacement is an upper-case letter or one of the letters `aeiostlg`, and those eight letters are exactly the table's keys |
| WordlistProperties.LeetRemovesLetters | src/utils/wordlistPatterns.js:125-143 | leetspeak keeps the length, and none of `a e i o s t l g` is left |
| WordlistProperties.LeetIdempotent | src/utils/wordlistPatterns.js:125-143 | leetspeak applied twice equals leetspeak applied once |
| Wordlist.ReverseWord | src/utils/wordlistPatterns.js:145-147 | the reversal keeps the length, and position `i` holds the code unit at `n - 1 - i` |
| WordlistProperties.ReverseInvolution | src/utils/wordlistPatterns.js:145-147 | reversing twice gives the word back |
| Wordlist.CapitalizeWord | src/utils/wordlistPatterns.js:149-152 | keeps the length and each code unit's lower-case form; the first code unit is not lower case and the others are not upper case; the empty word stays empty |
| WordlistProperties.CapitalizeIdempotent | src/utils/wordlistPatterns.js:149-152 | capitalising twice equals capitalising once |
| Wordlist.ShortWords | src/utils/wordlistPatterns.js:110-112 | a token is kept for pairing if and only if it is non-empty and shorter than 10, and a list of such tokens is kept whole, in order and with its repeats |
| Wordlist.Row | src/utils/wordlistPatterns.js:116-119 | the inner loop for `i` pushes two strings per partner `j > i` |
| Wordlist.PushRow | src/utils/wordlistPatterns.js:116-119 | the inner loop for `i` appends exactly `Row(v, i, n)`: `v[i] + v[j]` and then `v[j] + v[i]` for each later `j` |
| Wordlist.GenerateCombinations | src/utils/wordlistPatterns.js:108-123 | the nested loops push exactly `Combinations(ShortWords(words))`: both orders of each pair, row by row |
| WordlistProperties.CombinationsCount | src/utils/wordlistPatterns.js:115-120 | `k` short tokens give exactly `k * (k - 1)` combinations |
| WordlistProperties.CombinationsMembers | src/utils/wordlistPatterns.js:115-120 | a string is a combination if and only if it is `v[a] + v[b]` for two different positions `a` and `b` |
| Wordlist.PushName | src/utils/wordlistPatterns.js:72-76 | a filled-in name field is pushed lower-cased and trimmed, and an empty one is skipped |
| Wordlist.CapitalizeEach | src/utils/wordlistPatterns.js:101 | the capitalised list has one entry per word |
| Wordlist.ExtractBaseWords | src/utils/wordlistPatterns.js:68-106 | the method returns `BaseWords(f)`: the field tokens, then their combinations, then all of those capitalised, with empties dropped and duplicates removed |
| WordlistProperties.BaseWordsShape | src/utils/wordlistPatterns.js:68-106 | base words are duplicate-free and non-empty; a string is a base word if and only if it is a non-empty field token, one of their combinations, or the capitalised form of either |
| WordlistProperties.ExpandedShape | src/utils/wordlistPatterns.js:96-105 | the same characterisation for any token list |
| WordlistProperties.CapitalizeEachMembers | src/utils/wordlistPatterns.js:101-102 | the capitalised list holds exactly the capitalised forms of the list's words |
| WordlistProperties.BirthYearContributes | src/utils/wordlistPatterns.js:79-85 | a filled-in birth year is a base word, and a four-unit one also contributes its last two code units |
| WordlistProperties.SplitOnce | src/utils/wordlistPatterns.js:90 | a string with a single comma splits into the parts before and after it |
| WordlistProperties.CapitalizeConcat | src/utils/wordlistPatterns.js:149-152 | capitalising `a + b` capitalises `a` and lower-cases `b` |
| WordlistProperties.OnlyCustomWords | src/utils/wordlistPatterns.js:72-94 | with every other field blank, the tokens are exactly the custom tokens |
| WordlistProperties.CustomTokensExample | src/utils/wordlistPatterns.js:88-94 | the custom words `"rex, Max"` give the tokens `rex` and `max` |
| WordlistProperties.ExpandedOfTwo | src/utils/wordlistPatterns.js:97-102 | two short lower-case tokens are followed by both orders of their pair, and then all four are pushed again capitalised |
| WordlistProperties.BaseWordsAsExpanded | src/utils/wordlistPatterns.js:105 | when the expanded list has no empty string and no repetition, the final filter and `Set` leave it unchanged |
| WordlistProperties.BaseWordsOfTwo | src/utils/wordlistPatterns.js:68-106 | two short lower-case tokens whose eight expansions are distinct give exactly those eight base words, in push order |
| WordlistProperties.BaseWordsExample | src/utils/wordlistPatterns.js:68-106 | custom words `"rex, Max"` alone give `rex`, `max`, `rexmax`, `maxrex`, `Rex`, `Max`, `Rexmax`, `Maxrex`, in that order |
| Wordlist.AddYearCombinations | src/utils/wordlistPatterns.js:154-177 | `20 * n` entries; entry `20i + 2k` is `word i + year k` and the next is `year k + word i`; the members are exactly the year variants of the words |
| Wordlist.YearCombinationsElems | src/utils/wordlistPatterns.js:169-174 | a list laid out that way has exactly the year variants as members |
| Wordlist.YearIndex | src/utils/wordlistPatterns.js:169-174 | proof helper (division and remainder): each position of the 20-per-word year list decomposes into one word, one year and one of the two orders |
| Wordlist.AddCommonSuffixes | src/utils/wordlistPatterns.js:179-190 | `10 * n` entries; entry `10i + k` is `word i + suffix k`; the members are exactly the suffix variants |
| Wordlist.SuffixCombinationsElems | src/utils/wordlistPatterns.js:183-187 | a list laid out that way has exactly the suffix variants as members |
| Wordlist.SuffixIndex | src/utils/wordlistPatterns.js:183-187 | proof helper (division and remainder): each position of the 10-per-word suffix list decomposes into one word and one suffix |
| Wordlist.Snapshot | src/utils/wordlistPatterns.js:40 | `[...wordlist]` lists each member of the set exactly once |
| Wordlist.AddGated | src/utils/wordlistPatterns.js:8-12 | the insert loop adds exactly the members of the list whose length lies within the bounds |
| Wordlist.ApplyTransformations | src/utils/wordlistPatterns.js:26-36 | the nested loops add exactly the gated transforms of every base word |
| Wordlist.TransformedWordsStep | src/utils/wordlistPatterns.js:26-36 | the words transformed after one more base word are those before plus that word's transforms |
| Wordlist.TransformedWordsOneMore | src/utils/wordlistPatterns.js:27-35 | one more transformation adds that transform if it passes the gate |
| Wordlist.YearPass | src/utils/wordlistPatterns.js:39-49 | the year stage gives the set plus the gated year variants of its snapshot when years are on, and the set unchanged otherwise |
| Wordlist.SuffixPass | src/utils/wordlistPatterns.js:52-62 | the same for suffixes |
| Wordlist.GenerateWordlist | src/utils/wordlistPatterns.js:3-66 | the output is strictly sorted, its members are exactly the candidates, every one lies within the length bounds, and it is empty when the minimum exceeds the maximum |
| Wordlist.GenerateTwice | src/utils/wordlistPatterns.js:3-66 | generating twice from the same facts and options gives the same list, whatever order the set snapshots take |
| Wordlist.SortedCandidatesInBounds | src/utils/wordlistPatterns.js:42-47 | a list of exactly the candidates holds only in-bounds words, and none when the bounds are inverted |
| Wordlist.CandidatesInBounds | src/utils/wordlistPatterns.js:29-34 | every candidate passes the length gate |
| WordlistProperties.InvertedBoundsGiveNothing | src/utils/wordlistPatterns.js:9 | a minimum above the maximum gives no candidates |
| WordlistProperties.StagesOnlyGrow | src/utils/wordlistPatterns.js:7-62 | the seeded set, the set after the transformations, after the years and after the suffixes each include the one before |
| WordlistProperties.YearStageAdditions | src/utils/wordlistPatterns.js:39-49 | every word the year stage adds is `w + y` or `y + w` for a word `w` of the set before it and a year `y`, passes the gate, and needs years on |
| WordlistProperties.SuffixStageAdditions | src/utils/wordlistPatterns.js:52-62 | every word the suffix stage adds is `w + s` for a word `w` of the set after the year stage and a suffix `s`, passes the gate, and needs suffixes on |
| WordlistProperties.GateSameBounds | src/utils/wordlistPatterns.js:9 | the gate is monotone in the set it filters |
| WordlistProperties.YearStageMonotone | src/utils/wordlistPatterns.js:39-49 | a larger input set, or years switched on, gives a larger year stage |
| WordlistProperties.SuffixStageMonotone | src/utils/wordlistPatterns.js:52-62 | a larger input set, or suffixes switched on, gives a larger suffix stage |
| WordlistProperties.CandidatesMonotone | src/utils/wordlistPatterns.js:17-62 | switching on leetspeak, reversal, years or suffixes, with everything else equal, only adds candidates |
| Strength.CalculateEntropy | src/utils/passwordStrength.js:61-71 | the charset accumulation gives `Bits(CharsetSize(p), length)` |
| StrengthProperties.SymbolClassSize | src/utils/passwordStrength.js:11 | the symbol class has 32 code units, none a letter, a digit or a space |
| StrengthProperties.CharsetValues | src/utils/passwordStrength.js:64-68 | the charset is one of the subset sums of 26, 26, 10 and 32, at most 94 |
| StrengthProperties.CharsetZeroIff | src/utils/passwordStrength.js:64-68 | the charset is 0 if and only if no code unit is in a class |
| StrengthProperties.LowercaseOnly | src/utils/passwordStrength.js:8-11 | a non-empty all-lower-case password has only the lower-case flag and charset 26 |
| StrengthProperties.CharsetGrows | src/utils/passwordStrength.js:64-68 | appending code units never shrinks the charset |
| StrengthProperties.UnclassifiedIsWeakest | src/utils/passwordStrength.js:70 | a non-empty password with no classified code unit has keyspace 0, the bucket "Seconds" and no `> 60` point |
| StrengthProperties.EntropyPointNeedsTen | src/utils/passwordStrength.js:26 | no password shorter than 10 code units has entropy above 60 |
| StrengthProperties.ExtendingNeverWeakens | src/utils/passwordStrength.js:61-71 | extending a non-empty password never lowers its keyspace or its crack-time bucket |
| StrengthProperties.CrackTimeMonotone | src/utils/passwordStrength.js:144-152 | a larger keyspace never gives a faster bucket |
| StrengthProperties.CrackTimeLowerBound | src/utils/passwordStrength.js:144-152 | every bucket but the first needs entropy of at least the threshold below it |
| StrengthProperties.CrackTimeUpperBound | src/utils/passwordStrength.js:144-152 | every bucket but the last has entropy strictly below the threshold above it |
| StrengthProperties.ThresholdPowers | src/utils/passwordStrength.js:145-150 | proof helper (constants): the values of two to the power of each threshold, 28, 35, 44, 60, 70 and 80 |
| StrengthProperties.EightLowercaseBits | src/utils/passwordStrength.js:147 | eight lower-case letters (`26^8`) fall in the "Hours" bucket |
| Strength.PatternAt | src/utils/passwordStrength.js:77-89 | the `k`-th check run is the pattern of ordinal `k` |
| Strength.Check | src/utils/passwordStrength.js:77-89 | one check pushes the pattern's name when the pattern matches and leaves the list alone otherwise |
| Strength.DetectPatterns | src/utils/passwordStrength.js:73-92 | the eight checks push exactly `Found(p, 8)`: the names of matching patterns, in check order |
| StrengthProperties.FoundLength | src/utils/passwordStrength.js:73-92 | the first `n` checks push at most `n` names |
| StrengthProperties.FoundMembers | src/utils/passwordStrength.js:77-89 | a name is pushed if and only if one of the checks run has it and matches |
| StrengthProperties.FoundOrdered | src/utils/passwordStrength.js:77-89 | the names come in strictly increasing check order |
| StrengthProperties.NameOrdinalOf | src/utils/passwordStrength.js:77-89 | each pattern's name identifies it |
| StrengthProperties.NamesDiffer | src/utils/passwordStrength.js:77-89 | two patterns with the same name are the same pattern |
| StrengthProperties.PatternAtOrdinal | src/utils/passwordStrength.js:77-89 | each pattern is the check run at its own position |
| StrengthProperties.DetectedIff | src/utils/passwordStrength.js:77-89 | a pattern's name is reported if and only if that pattern matches; so "Contains \"password\"" is there exactly when the password contains `password`, ignoring ASCII case |
| StrengthProperties.DetectedShape | src/utils/passwordStrength.js:73-92 | at most 8 names, none repeated, each the name of a pattern |
| StrengthProperties.DetectedNone | src/utils/passwordStrength.js:73-92 | no names are reported if and only if no pattern matches |
| StrengthProperties.DetectedExactly | src/utils/passwordStrength.js:73-92 | when exactly one pattern matches, the list is its name alone |
| StrengthProperties.NoDigitPatterns | src/utils/passwordStrength.js:77-88 | a password without digits matches none of the three digit-based patterns |
| StrengthProperties.NoTriple | src/utils/passwordStrength.js:84 | without two equal code units two places apart there is no repeated-character match |
| StrengthProperties.PasswordMisses | src/utils/passwordStrength.js:77-89 | `"password"` matches no pattern except its own |
| StrengthProperties.PasswordPatterns | src/utils/passwordStrength.js:73-92 | `"password"` is reported with the single pattern "Contains \"password\"" |
| Strength.GenerateSuggestions | src/utils/passwordStrength.js:94-128 | the pushes give `Suggestions(length, hasUpper, hasNumbers, hasSymbols)`; the lower-case flag plays no part |
| StrengthProperties.SuggestionsShape | src/utils/passwordStrength.js:101-127 | one to six messages, always ending in the passphrase advice |
| StrengthProperties.SuggestionsMembers | src/utils/passwordStrength.js:103-125 | a message is given exactly when it is the passphrase advice or its own condition holds |
| StrengthProperties.SuggestionsIff | src/utils/passwordStrength.js:103-125 | each message is present if and only if its condition holds: under 12, no upper case, no digit, no symbol, under 8 |
| StrengthProperties.SuggestionsDistinct | src/utils/passwordStrength.js:103-125 | no message is given twice |
| StrengthProperties.MessageLengths | src/utils/passwordStrength.js:104-125 | proof helper (constants): the six fixed messages have six different lengths, so no two are equal |
| Strength.GenerateWarnings | src/utils/passwordStrength.js:130-142 | a warning exists if and only if there are patterns or the password is shorter than 6; with patterns it starts with "Detected vulnerable patterns: "; otherwise a short password gets the "extremely weak" message |
| StrengthProperties.WarningListsPatterns | src/utils/passwordStrength.js:131-134 | the warning contains every detected pattern's name |
| Strength.Min | src/utils/passwordStrength.js:30 | `Math.min` gives the smaller of its arguments |
| Strength.CountTrue | src/utils/passwordStrength.js:20-27 | counting the criteria met gives at most one point per criterion |
| Strength.CriteriaCount | src/utils/passwordStrength.js:20-27 | the points add up to the seven criteria, each counted once |
| Strength.Score | src/utils/passwordStrength.js:20-30 | the step-by-step tally, capped at 4, equals `Min(4, count of criteria met)` |
| Strength.AnalyzePassword | src/utils/passwordStrength.js:4-59 | the method returns `Analysis(p)`: null for the empty string, and otherwise the report assembled from the flags, entropy, patterns, score, suggestions, warning and bucket |
| StrengthProperties.AnalysisDefined | src/utils/passwordStrength.js:5 | the result is null if and only if the password is empty |
| StrengthProperties.ScoreBreakdown | src/utils/passwordStrength.js:20-30 | the score is at most 4 and equals `Min(4, [len>=8] + [len>=12] + [upper and lower] + [digit] + [symbol] + [entropy>60] + [no patterns])` |
| StrengthProperties.NoPatternPoint | src/utils/passwordStrength.js:27 | the no-pattern point's condition, an empty pattern list, holds if and only if no pattern matches |
| StrengthProperties.WarningWhen | src/utils/passwordStrength.js:42 | the report has a warning if and only if some pattern matches or the password is shorter than 6 |
| StrengthProperties.StrongPasswordScoresFour | src/utils/passwordStrength.js:20-30 | at least 12 code units with all four classes scores 4 |
| StrengthProperties.LowercaseEight | src/utils/passwordStrength.js:4-59 | eight lower-case letters forming some pattern score 1, take hours and get a warning |
| StrengthProperties.PasswordExample | src/utils/passwordStrength.js:4-59 | `"password"` reports its own pattern only, score 1, "Hours" and a warning |

## Left out

- The React components, the page layout, the file export (Blob and DOM download, `Date` timestamps) and the styling configuration are not part of this model. They only pass input to the two engines and display or save the results.
- Floating-point entropy: `Math.log2` and the displayed `toFixed(1)` value are not computed. Only the integer comparisons the analyser makes with the entropy are modelled.
- Unicode case mapping: `toLowerCase` and `toUpperCase` map ASCII letters only, and leave every other code unit alone. The full Unicode mapping, which can change a string's length, is not modelled. The strings themselves are modelled exactly, as UTF-16 code units.
- Regular expressions are not interpreted. Each fixed pattern is a direct predicate on the code units.
- The iteration order of a JavaScript `Set` is not modelled. The set is a mathematical `set`, and `[...wordlist]` (`Snapshot`) yields its members in an unspecified order. This does not matter, because every use of the snapshot either feeds a new insertion into the set or is only read through its members.
- Non-string inputs (`undefined`, numbers, `NaN` or non-numeric length bounds) are not modelled. Fields are strings, where empty means absent, and the bounds are integers.
- Strength.GenerateWarnings: for a non-empty pattern list the contract states the fixed prefix, and `WarningListsPatterns` states that every name is contained. The exact `prefix + names.join(", ") + suffix` text is the function's own definition.
