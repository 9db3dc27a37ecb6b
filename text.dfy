/** The handful of JavaScript string built-ins the two engines rely on:
    ASCII case mapping, `trim`, `split`, `join` and substring search.
    A JavaScript string is a sequence of UTF-16 code units: a character above
    U+FFFF is two of them (a surrogate pair), and a lone surrogate is allowed. */
module Text {

  /** One UTF-16 code unit. */
  newtype Unit = n: int | 0 <= n < 0x1_0000

  type String = seq<Unit>

  /** The code units of a string literal all of whose characters lie below
      U+10000, one unit per character. */
  function Lit(s: seq<char>): (r: String)
    requires forall i | 0 <= i < |s| :: s[i] as int < 0x1_0000
    ensures |r| == |s|
    ensures forall i | 0 <= i < |s| :: r[i] as int == s[i] as int
  {
    seq(|s|, i requires 0 <= i < |s| => s[i] as int as Unit)
  }

  predicate IsUpper(c: Unit) { 'A' as Unit <= c <= 'Z' as Unit }
  predicate IsLower(c: Unit) { 'a' as Unit <= c <= 'z' as Unit }
  predicate IsDigit(c: Unit) { '0' as Unit <= c <= '9' as Unit }

  /** `toLowerCase` on one code unit, ASCII letters only. */
  function ToLowerChar(c: Unit): (r: Unit)
    ensures !IsUpper(r)
    ensures IsUpper(c) ==> IsLower(r) && r == c + 32
    ensures !IsUpper(c) ==> r == c
  {
    if IsUpper(c) then c + 32 else c
  }

  /** `toUpperCase` on one code unit, ASCII letters only. */
  function ToUpperChar(c: Unit): (r: Unit)
    ensures !IsLower(r)
    ensures IsLower(c) ==> IsUpper(r) && r == c - 32
    ensures !IsLower(c) ==> r == c
  {
    if IsLower(c) then c - 32 else c
  }

  /** `String.prototype.toLowerCase` on ASCII letters. */
  function Lower(s: String): (r: String)
    ensures |r| == |s|
    ensures forall i | 0 <= i < |s| :: r[i] == ToLowerChar(s[i])
  {
    seq(|s|, i requires 0 <= i < |s| => ToLowerChar(s[i]))
  }

  /** The code units `String.prototype.trim` strips: the WhiteSpace and
      LineTerminator code points of ECMAScript (section 12.2 and 12.3 of ECMA-262). */
  predicate IsWhiteSpace(c: Unit) {
    var n := c as int;
    n == 0x09 || n == 0x0A || n == 0x0B || n == 0x0C || n == 0x0D || n == 0x20 ||
    n == 0xA0 || n == 0x1680 || (0x2000 <= n <= 0x200A) || n == 0x2028 || n == 0x2029 ||
    n == 0x202F || n == 0x205F || n == 0x3000 || n == 0xFEFF
  }

  /** The first position at or after `i` that does not hold white space, or `|s|`. */
  function SkipWhite(s: String, i: nat): (j: nat)
    requires i <= |s|
    ensures i <= j <= |s|
    ensures forall k | i <= k < j :: IsWhiteSpace(s[k])
    ensures j < |s| ==> !IsWhiteSpace(s[j])
    decreases |s| - i
  {
    if i < |s| && IsWhiteSpace(s[i]) then SkipWhite(s, i + 1) else i
  }

  /** Moves the end `j` back over white space, stopping at `i` at the latest. */
  function SkipWhiteBack(s: String, i: nat, j: nat): (e: nat)
    requires i <= j <= |s|
    ensures i <= e <= j
    ensures forall k | e <= k < j :: IsWhiteSpace(s[k])
    ensures e > i ==> !IsWhiteSpace(s[e - 1])
    decreases j
  {
    if j > i && IsWhiteSpace(s[j - 1]) then SkipWhiteBack(s, i, j - 1) else j
  }

  /** `String.prototype.trim`: a middle part of `s` whose ends are not white
      space, everything before and after it being white space. */
  function Trim(s: String): (r: String)
    ensures |r| <= |s|
    ensures r != [] ==> !IsWhiteSpace(r[0]) && !IsWhiteSpace(r[|r| - 1])
    ensures exists i :: StripsTo(s, r, i)
  {
    var a := SkipWhite(s, 0);
    var b := SkipWhiteBack(s, a, |s|);
    assert StripsTo(s, s[a..b], a);
    s[a..b]
  }

  /** `r` starts at position `i` of `s`, and everything in `s` before and
      after it is white space. */
  predicate StripsTo(s: String, r: String, i: int) {
    0 <= i <= |s| - |r| && r == s[i..i + |r|] &&
    (forall k | 0 <= k < i :: IsWhiteSpace(s[k])) &&
    (forall k | i + |r| <= k < |s| :: IsWhiteSpace(s[k]))
  }

  /** Position of the first occurrence of `c`. */
  function IndexOf(s: String, c: Unit): (i: nat)
    requires c in s
    ensures i < |s| && s[i] == c && c !in s[..i]
  {
    if s[0] == c then 0
    else
      var j := IndexOf(s[1..], c);
      assert s[..1 + j] == [s[0]] + s[1..][..j];
      1 + j
  }

  /** `String.prototype.split` with a one-code-unit separator: the pieces
      between separators, so `k` separators give `k + 1` pieces. */
  function Split(s: String, sep: Unit): (r: seq<String>)
    ensures |r| >= 1
    ensures forall k | 0 <= k < |r| :: sep !in r[k]
    decreases |s|
  {
    if sep !in s then [s]
    else
      var i := IndexOf(s, sep);
      [s[..i]] + Split(s[i + 1..], sep)
  }

  /** `Array.prototype.join`. */
  function Join<T>(parts: seq<seq<T>>, sep: seq<T>): seq<T>
    decreases |parts|
  {
    if |parts| == 0 then []
    else if |parts| == 1 then parts[0]
    else parts[0] + sep + Join(parts[1..], sep)
  }

  /** Joining the pieces of a split with the separator gives back the string. */
  lemma {:induction false} JoinSplit(s: String, sep: Unit)
    ensures Join(Split(s, sep), [sep]) == s
    decreases |s|
  {
    if sep in s {
      var i := IndexOf(s, sep);
      var rest := Split(s[i + 1..], sep);
      assert Split(s, sep) == [s[..i]] + rest;
      assert ([s[..i]] + rest)[1..] == rest;
      JoinSplit(s[i + 1..], sep);
      assert s == s[..i] + [sep] + s[i + 1..];
    }
  }

  /** `t` starts at position `i` of `s`. */
  predicate OccursAt<T(==)>(s: seq<T>, t: seq<T>, i: int) {
    0 <= i && i + |t| <= |s| && s[i..i + |t|] == t
  }

  /** `s` contains `t` as a substring (an unanchored regular expression of literal code units). */
  predicate Contains<T(==)>(s: seq<T>, t: seq<T>) {
    exists i | 0 <= i <= |s| - |t| :: OccursAt(s, t, i)
  }

  /** Every piece of a join occurs in the joined string. */
  lemma {:induction false} JoinContainsParts<T>(parts: seq<seq<T>>, sep: seq<T>, k: nat)
    requires k < |parts|
    ensures Contains(Join(parts, sep), parts[k])
    decreases |parts|
  {
    var j := Join(parts, sep);
    if |parts| == 1 {
      assert OccursAt(j, parts[k], 0);
    } else if k == 0 {
      assert j[..|parts[0]|] == parts[0];
      assert OccursAt(j, parts[k], 0);
    } else {
      var rest := Join(parts[1..], sep);
      JoinContainsParts(parts[1..], sep, k - 1);
      var q :| 0 <= q <= |rest| - |parts[k]| && OccursAt(rest, parts[k], q);
      var off := |parts[0]| + |sep|;
      assert j == parts[0] + sep + rest;
      assert j[off + q..off + q + |parts[k]|] == rest[q..q + |parts[k]|];
      assert OccursAt(j, parts[k], off + q);
    }
  }

  /** `xs.filter(keep)`: the kept elements, in order and with their repeats
      (`FilterSingleton` and `FilterAppend` pin it down completely). */
  function Filter(xs: seq<String>, keep: String -> bool): (r: seq<String>)
    ensures |r| <= |xs|
    ensures forall x :: x in r <==> x in xs && keep(x)
    ensures (forall x | x in xs :: keep(x)) ==> r == xs
    decreases |xs|
  {
    if xs == [] then []
    else (if keep(xs[0]) then [xs[0]] else []) + Filter(xs[1..], keep)
  }

  /** A single element is kept exactly when it passes. */
  lemma FilterSingleton(x: String, keep: String -> bool)
    ensures Filter([x], keep) == if keep(x) then [x] else []
  {
    assert [x][1..] == [];
  }

  /** Filtering distributes over concatenation, so order and repeats are kept. */
  lemma {:induction false} FilterAppend(xs: seq<String>, ys: seq<String>, keep: String -> bool)
    ensures Filter(xs + ys, keep) == Filter(xs, keep) + Filter(ys, keep)
    decreases |xs|
  {
    if xs == [] {
      assert xs + ys == ys;
    } else {
      assert (xs + ys)[0] == xs[0];
      assert (xs + ys)[1..] == xs[1..] + ys;
      FilterAppend(xs[1..], ys, keep);
    }
  }

  /** The elements of a sequence as a set. */
  function Elems<T>(xs: seq<T>): set<T> {
    set x | x in xs
  }

  predicate Distinct<T(==)>(xs: seq<T>) {
    forall i, j | 0 <= i < j < |xs| :: xs[i] != xs[j]
  }

  /** A sequence without repetitions has as many elements as members. */
  lemma {:induction false} DistinctCard<T>(xs: seq<T>)
    requires Distinct(xs)
    ensures |Elems(xs)| == |xs|
    decreases |xs|
  {
    if xs != [] {
      var init := xs[..|xs| - 1];
      assert Distinct(init);
      DistinctCard(init);
      assert xs == init + [xs[|xs| - 1]];
      assert Elems(xs) == Elems(init) + {xs[|xs| - 1]};
      assert xs[|xs| - 1] !in Elems(init);
    }
  }

  /** What `[...new Set(xs)]` gives: each element once, in the order of its
      first occurrence. */
  function Dedup(xs: seq<String>): (r: seq<String>)
    ensures Distinct(r)
    ensures forall x :: x in r <==> x in xs
    ensures Distinct(xs) ==> r == xs
    decreases |xs|
  {
    if xs == [] then []
    else
      var d := Dedup(xs[..|xs| - 1]);
      var last := xs[|xs| - 1];
      assert xs == xs[..|xs| - 1] + [last];
      if last in d then d else d + [last]
  }
}
