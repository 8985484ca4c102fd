/**
 * The handful of Python `str` operations the debate code relies on:
 * `strip`, `lower`, `startswith`, `index`, `in`, slicing, `count`, `split`
 * and `join`, plus decimal formatting of integers. Strings are sequences of
 * Unicode scalar values.
 */
module Text {
  import opened Wrappers

  /** The code points for which Python's `str.isspace` holds (the complete list). */
  const Whitespace: set<int> :=
    {9, 10, 11, 12, 13, 28, 29, 30, 31, 32, 0x85, 0xA0, 0x1680,
     0x2000, 0x2001, 0x2002, 0x2003, 0x2004, 0x2005, 0x2006, 0x2007, 0x2008, 0x2009, 0x200A,
     0x2028, 0x2029, 0x202F, 0x205F, 0x3000}

  predicate IsSpace(c: char) {
    c as int in Whitespace
  }

  predicate AllSpace(s: string) {
    forall i | 0 <= i < |s| :: IsSpace(s[i])
  }

  predicate NoSpace(s: string) {
    forall i | 0 <= i < |s| :: !IsSpace(s[i])
  }

  /** A string that `strip()` leaves alone: empty, or non-blank at both ends. */
  predicate IsStripped(s: string) {
    s == [] || (!IsSpace(s[0]) && !IsSpace(s[|s| - 1]))
  }

  /**
   * The first position at or after `from` that is not blank (`|s|` if none):
   * where the leading whitespace of `s[from..]` ends.
   */
  function BlanksEnd(s: string, from: nat): (k: nat)
    requires from <= |s|
    ensures from <= k <= |s|
    decreases |s| - from
  {
    if from < |s| && IsSpace(s[from]) then BlanksEnd(s, from + 1) else from
  }

  lemma {:induction false} BlanksEndMeaning(s: string, from: nat)
    requires from <= |s|
    ensures forall i | from <= i < BlanksEnd(s, from) :: IsSpace(s[i])
    ensures BlanksEnd(s, from) < |s| ==> !IsSpace(s[BlanksEnd(s, from)])
    decreases |s| - from
  {
    if from < |s| && IsSpace(s[from]) {
      BlanksEndMeaning(s, from + 1);
    }
  }

  /** A blank run from `from` up to a non-blank (or the end) is exactly what BlanksEnd skips. */
  lemma {:induction false} BlanksEndAt(s: string, from: nat, k: nat)
    requires from <= k <= |s|
    requires forall i | from <= i < k :: IsSpace(s[i])
    requires k < |s| ==> !IsSpace(s[k])
    ensures BlanksEnd(s, from) == k
    decreases k - from
  {
    if from < k {
      BlanksEndAt(s, from + 1, k);
    }
  }

  /**
   * The first position of the trailing whitespace of `s[..upto]`: the
   * smallest `k` such that `s[k..upto]` is blank.
   */
  function BlanksStart(s: string, upto: nat): (k: nat)
    requires upto <= |s|
    ensures k <= upto
  {
    if 0 < upto && IsSpace(s[upto - 1]) then BlanksStart(s, upto - 1) else upto
  }

  lemma {:induction false} BlanksStartMeaning(s: string, upto: nat)
    requires upto <= |s|
    ensures forall i | BlanksStart(s, upto) <= i < upto :: IsSpace(s[i])
    ensures 0 < BlanksStart(s, upto) ==> !IsSpace(s[BlanksStart(s, upto) - 1])
  {
    if 0 < upto && IsSpace(s[upto - 1]) {
      BlanksStartMeaning(s, upto - 1);
    }
  }

  lemma {:induction false} BlanksStartAt(s: string, k: nat, upto: nat)
    requires k <= upto <= |s|
    requires forall i | k <= i < upto :: IsSpace(s[i])
    requires 0 < k ==> !IsSpace(s[k - 1])
    ensures BlanksStart(s, upto) == k
    decreases upto
  {
    if k < upto {
      BlanksStartAt(s, k, upto - 1);
    }
  }

  /** Where `s.strip()` starts. */
  function StripStart(s: string): nat {
    BlanksEnd(s, 0)
  }

  /** Where `s.strip()` ends; a blank string strips to the empty string at its end. */
  function StripEnd(s: string): (j: nat)
    ensures StripStart(s) <= j <= |s|
  {
    var i := StripStart(s);
    var k := BlanksStart(s, |s|);
    if k < i then i else k
  }

  /** `s.strip()`: the string without its leading and trailing whitespace. */
  function Strip(s: string): (r: string)
    ensures IsStripped(r)
  {
    BlanksEndMeaning(s, 0);
    BlanksStartMeaning(s, |s|);
    s[StripStart(s)..StripEnd(s)]
  }

  /** `strip()` cuts `s` only at blanks. */
  lemma StripCutsBlanks(s: string)
    ensures Strip(s) == s[StripStart(s)..StripEnd(s)]
    ensures AllSpace(s[..StripStart(s)]) && AllSpace(s[StripEnd(s)..])
  {
    BlanksEndMeaning(s, 0);
    BlanksStartMeaning(s, |s|);
    var i, j := StripStart(s), StripEnd(s);
    forall n | 0 <= n < |s[j..]| ensures IsSpace(s[j..][n]) {
      assert s[j..][n] == s[j + n];
    }
  }

  /**
   * Whatever blanks surround a stripped string, `strip()` returns exactly
   * that string: stripping is determined by the non-blank core.
   */
  lemma StripSurrounded(p: string, t: string, q: string)
    requires AllSpace(p) && AllSpace(q) && IsStripped(t)
    ensures Strip(p + t + q) == t
  {
    var s := p + t + q;
    var a, b := |p|, |p| + |t|;
    forall i | 0 <= i < a ensures IsSpace(s[i]) {
      assert s[i] == p[i];
    }
    forall i | b <= i < |s| ensures IsSpace(s[i]) {
      assert s[i] == q[i - b];
    }
    if t == [] {
      BlanksEndAt(s, 0, |s|);
      BlanksStartAt(s, 0, |s|);
      assert Strip(s) == s[|s|..|s|];
    } else {
      assert s[a] == t[0] && s[b - 1] == t[|t| - 1];
      BlanksEndAt(s, 0, a);
      BlanksStartAt(s, b, |s|);
      assert s[a..b] == t;
    }
  }

  /** `strip()` is idempotent. */
  lemma StripIdempotent(s: string)
    ensures Strip(Strip(s)) == Strip(s)
  {
    var t := Strip(s);
    assert [] + t + [] == t;
    StripSurrounded([], t, []);
  }

  /** `str.lower()` on one character; only ASCII letters are mapped here. */
  function LowerChar(c: char): char {
    if 'A' <= c <= 'Z' then (c as int + 32) as char else c
  }

  /** `lower()`: same length, each capital replaced by its small letter, every other character kept. */
  function Lower(s: string): (r: string)
    ensures |r| == |s|
    ensures forall i | 0 <= i < |s| :: !('A' <= r[i] <= 'Z')
    ensures forall i | 0 <= i < |s| :: 'A' <= s[i] <= 'Z' ==> r[i] as int == s[i] as int + 32
    ensures forall i | 0 <= i < |s| :: !('A' <= s[i] <= 'Z') ==> r[i] == s[i]
  {
    seq(|s|, i requires 0 <= i < |s| => LowerChar(s[i]))
  }

  /** `s.startswith(prefix)`. */
  predicate StartsWith(s: string, prefix: string) {
    |prefix| <= |s| && s[..|prefix|] == prefix
  }

  /** `s` starts with `prefix` exactly when it is `prefix` followed by something. */
  lemma StartsWithMeaning(s: string, prefix: string)
    ensures StartsWith(s, prefix) <==> exists rest :: s == prefix + rest
  {
    if StartsWith(s, prefix) {
      assert s == prefix + s[|prefix|..];
    }
  }

  /** `s.index(c)` / `s.find(c)`: the first position of `c`, if any. */
  function IndexOf(s: string, c: char): (r: Option<nat>)
    ensures r.None? <==> c !in s
    ensures r.Some? ==> r.value < |s| && s[r.value] == c && c !in s[..r.value]
  {
    IndexFromMeaning(s, c, 0);
    IndexFrom(s, c, 0)
  }

  /** The first position at or after `from` holding `c`, if any. */
  function IndexFrom(s: string, c: char, from: nat): Option<nat>
    requires from <= |s|
    decreases |s| - from
  {
    if from == |s| then None
    else if s[from] == c then Some(from)
    else IndexFrom(s, c, from + 1)
  }

  lemma {:induction false} IndexFromMeaning(s: string, c: char, from: nat)
    requires from <= |s|
    ensures IndexFrom(s, c, from).None? ==> forall i | from <= i < |s| :: s[i] != c
    ensures IndexFrom(s, c, from).Some? ==>
      var k := IndexFrom(s, c, from).value;
      from <= k < |s| && s[k] == c && forall i | from <= i < k :: s[i] != c
    decreases |s| - from
  {
    if from < |s| && s[from] != c {
      IndexFromMeaning(s, c, from + 1);
    }
  }

  /** `s.rfind(c)`: the last position of `c`, if any. */
  function LastIndexOf(s: string, c: char): (r: Option<nat>)
    ensures r.None? <==> c !in s
    ensures r.Some? ==> r.value < |s| && s[r.value] == c && c !in s[r.value + 1..]
  {
    LastIndexBeforeMeaning(s, c, |s|);
    match LastIndexBefore(s, c, |s|)
    case None => None
    case Some(k) =>
      var tail := s[k + 1..];
      assert forall n | 0 <= n < |tail| :: tail[n] == s[k + 1 + n];
      Some(k)
  }

  /** The last position before `upto` holding `c`, if any. */
  function LastIndexBefore(s: string, c: char, upto: nat): Option<nat>
    requires upto <= |s|
  {
    if upto == 0 then None
    else if s[upto - 1] == c then Some(upto - 1)
    else LastIndexBefore(s, c, upto - 1)
  }

  lemma {:induction false} LastIndexBeforeMeaning(s: string, c: char, upto: nat)
    requires upto <= |s|
    ensures LastIndexBefore(s, c, upto).None? ==> forall i | 0 <= i < upto :: s[i] != c
    ensures LastIndexBefore(s, c, upto).Some? ==>
      var k := LastIndexBefore(s, c, upto).value;
      k < upto && s[k] == c && forall i | k < i < upto :: s[i] != c
  {
    if 0 < upto && s[upto - 1] != c {
      LastIndexBeforeMeaning(s, c, upto - 1);
    }
  }

  /** The first occurrence is the one with none before it. */
  lemma FirstOccurrence(s: string, c: char, e: nat)
    requires e < |s| && s[e] == c && c !in s[..e]
    ensures IndexOf(s, c) == Some(e)
  {
  }

  /** The last occurrence is the one with none after it. */
  lemma LastOccurrence(s: string, c: char, e: nat)
    requires e < |s| && s[e] == c && c !in s[e + 1..]
    ensures LastIndexOf(s, c) == Some(e)
  {
  }

  /** `needle` occurs in `hay` starting at position `i`. */
  predicate OccursAt(hay: string, needle: string, i: nat) {
    i + |needle| <= |hay| && hay[i..i + |needle|] == needle
  }

  /** Python's `needle in hay` for strings. */
  function Contains(hay: string, needle: string): (r: bool)
    ensures r <==> exists i: nat :: OccursAt(hay, needle, i)
  {
    ContainsFromMeaning(hay, needle, 0);
    ContainsFrom(hay, needle, 0)
  }

  /** Whether `needle` occurs in `hay` at some position at or after `from`. */
  function ContainsFrom(hay: string, needle: string, from: nat): bool
    decreases |hay| - from
  {
    if |hay| < from + |needle| then false
    else OccursAt(hay, needle, from) || ContainsFrom(hay, needle, from + 1)
  }

  lemma {:induction false} ContainsFromMeaning(hay: string, needle: string, from: nat)
    ensures ContainsFrom(hay, needle, from) <==> exists i: nat | from <= i :: OccursAt(hay, needle, i)
    decreases |hay| - from
  {
    if |hay| >= from + |needle| {
      ContainsFromMeaning(hay, needle, from + 1);
      if exists i: nat | from <= i :: OccursAt(hay, needle, i) {
        var i: nat :| from <= i && OccursAt(hay, needle, i);
        assert i == from || (from + 1 <= i && OccursAt(hay, needle, i));
      }
    }
  }

  /** A string none of whose characters starts the needle does not contain it. */
  lemma NotContainsWithoutFirst(hay: string, needle: string)
    requires |needle| > 0 && needle[0] !in hay
    ensures !Contains(hay, needle)
  {
    forall i: nat
      ensures !OccursAt(hay, needle, i)
    {
      if i + |needle| <= |hay| {
        assert hay[i..i + |needle|][0] == hay[i];
      }
    }
  }

  /** The slice `s[:n]`. */
  function Take(s: string, n: nat): (r: string)
    ensures |r| == if |s| <= n then |s| else n
    ensures r == s[..|r|]
  {
    if |s| <= n then s else s[..n]
  }

  /** `s.count(c)`: at most the length, and 0 exactly when `c` is absent. */
  function CountChar(s: string, c: char): (n: nat)
    ensures n <= |s|
    ensures n == 0 <==> c !in s
  {
    if s == [] then 0
    else
      assert s == s[..|s| - 1] + [s[|s| - 1]];
      CountChar(s[..|s| - 1], c) + (if s[|s| - 1] == c then 1 else 0)
  }

  /** The count is the multiplicity of `c` in `s`. */
  lemma {:induction false} CountCharMeaning(s: string, c: char)
    ensures CountChar(s, c) == multiset(s)[c]
  {
    if s != [] {
      var front := s[..|s| - 1];
      CountCharMeaning(front, c);
      assert s == front + [s[|s| - 1]];
    }
  }

  /**
   * The first blank position at or after `from` (`|s|` if none): where the
   * word starting at `from` ends.
   */
  function WordEnd(s: string, from: nat): (k: nat)
    requires from <= |s|
    ensures from <= k <= |s|
    ensures from < |s| && !IsSpace(s[from]) ==> from < k
    decreases |s| - from
  {
    if from < |s| && !IsSpace(s[from]) then WordEnd(s, from + 1) else from
  }

  lemma {:induction false} WordEndMeaning(s: string, from: nat)
    requires from <= |s|
    ensures forall i | from <= i < WordEnd(s, from) :: !IsSpace(s[i])
    ensures WordEnd(s, from) < |s| ==> IsSpace(s[WordEnd(s, from)])
    decreases |s| - from
  {
    if from < |s| && !IsSpace(s[from]) {
      WordEndMeaning(s, from + 1);
    }
  }

  /** The words of `s[from..]`, as `split()` finds them. */
  function SplitFrom(s: string, from: nat): seq<string>
    requires from <= |s|
    decreases |s| - from
  {
    var i := BlanksEnd(s, from);
    if i == |s| then []
    else
      BlanksEndMeaning(s, from);
      var j := WordEnd(s, i);
      [s[i..j]] + SplitFrom(s, j)
  }

  /**
   * `s.split()` with no separator: the maximal runs of non-blank
   * characters, in order.
   */
  function Split(s: string): (words: seq<string>)
    ensures forall k | 0 <= k < |words| :: words[k] != [] && NoSpace(words[k])
  {
    SplitFromWords(s, 0);
    SplitFrom(s, 0)
  }

  /** Every word `split()` yields is non-empty and free of whitespace. */
  lemma {:induction false} SplitFromWords(s: string, from: nat)
    requires from <= |s|
    ensures forall k | 0 <= k < |SplitFrom(s, from)| :: SplitFrom(s, from)[k] != [] && NoSpace(SplitFrom(s, from)[k])
    decreases |s| - from
  {
    var i := BlanksEnd(s, from);
    if i < |s| {
      BlanksEndMeaning(s, from);
      var j := WordEnd(s, i);
      WordEndMeaning(s, i);
      SplitFromWords(s, j);
      var w := s[i..j];
      assert forall n | 0 <= n < |w| :: w[n] == s[i + n];
    }
  }

  /** `s.split()` is empty exactly when `s` is blank. */
  lemma SplitEmptyIffBlank(s: string)
    ensures Split(s) == [] <==> AllSpace(s)
  {
    BlanksEndMeaning(s, 0);
    if AllSpace(s) {
      BlanksEndAt(s, 0, |s|);
    }
  }

  /** The word that starts at a non-blank `from` and runs to `k` is exactly what WordEnd finds. */
  lemma {:induction false} WordEndAt(s: string, from: nat, k: nat)
    requires from <= k <= |s|
    requires forall i | from <= i < k :: !IsSpace(s[i])
    requires k < |s| ==> IsSpace(s[k])
    ensures WordEnd(s, from) == k
    decreases k - from
  {
    if from < k {
      WordEndAt(s, from + 1, k);
    }
  }

  /** `gaps[0] + words[0] + gaps[1] + ... + words[n-1] + gaps[n]`. */
  function Weave(gaps: seq<string>, words: seq<string>): string
    requires |gaps| == |words| + 1
  {
    if words == [] then gaps[0] else gaps[0] + words[0] + Weave(gaps[1..], words[1..])
  }

  /**
   * `s` is `words` laid out between blank `gaps`, with at least one blank
   * between each two neighbouring words.
   */
  predicate Separates(s: string, gaps: seq<string>, words: seq<string>) {
    && |gaps| == |words| + 1
    && (forall k | 0 <= k < |gaps| :: AllSpace(gaps[k]))
    && (forall k | 0 < k < |words| :: gaps[k] != [])
    && s == Weave(gaps, words)
  }

  /** Pieces `split()` can yield: non-empty and free of blanks. */
  predicate AreWords(words: seq<string>) {
    forall k | 0 <= k < |words| :: words[k] != [] && NoSpace(words[k])
  }

  /** `split()` on `s[from..]` lays its words out between blanks, starting after `s[from..]`'s leading blanks. */
  lemma {:induction false} SplitFromSeparates(s: string, from: nat) returns (gaps: seq<string>)
    requires from <= |s|
    ensures Separates(s[from..], gaps, SplitFrom(s, from))
    ensures gaps[0] == s[from..BlanksEnd(s, from)]
    decreases |s| - from
  {
    var i := BlanksEnd(s, from);
    BlanksEndMeaning(s, from);
    var lead := s[from..i];
    assert AllSpace(lead) by {
      forall n | 0 <= n < |lead| ensures IsSpace(lead[n]) {
        assert lead[n] == s[from + n];
      }
    }
    if i == |s| {
      gaps := [lead];
    } else {
      var j := WordEnd(s, i);
      WordEndMeaning(s, i);
      var rest := SplitFromSeparates(s, j);
      var words := SplitFrom(s, from);
      assert words == [s[i..j]] + SplitFrom(s, j);
      gaps := [lead] + rest;
      assert gaps[1..] == rest && words[1..] == SplitFrom(s, j);
      assert s[from..] == lead + s[i..j] + s[j..];
      if SplitFrom(s, j) != [] {
        assert j < |s| && IsSpace(s[j]);
        assert rest[0] != [] by {
          assert BlanksEnd(s, j) == BlanksEnd(s, j + 1);
        }
      }
      assert forall k | 0 < k < |words| :: gaps[k] != [] by {
        forall k | 0 < k < |words| ensures gaps[k] != [] {
          assert gaps[k] == rest[k - 1];
        }
      }
    }
  }

  /** `s.split()` lays its words out between blanks that cover the rest of `s`. */
  lemma SplitSeparates(s: string)
    ensures AreWords(Split(s))
    ensures exists gaps :: Separates(s, gaps, Split(s))
  {
    var gaps := SplitFromSeparates(s, 0);
    assert s[0..] == s;
  }

  /** Conversely, words laid out between blanks are exactly what `split()` yields. */
  lemma {:induction false} SeparatedFromSplit(s: string, from: nat, gaps: seq<string>, words: seq<string>)
    requires from <= |s|
    requires Separates(s[from..], gaps, words) && AreWords(words)
    ensures SplitFrom(s, from) == words
    decreases |words|
  {
    var g := gaps[0];
    if words == [] {
      forall i | from <= i < |s| ensures IsSpace(s[i]) {
        assert s[i] == g[i - from];
      }
      BlanksEndAt(s, from, |s|);
    } else {
      var w := words[0];
      var t := Weave(gaps[1..], words[1..]);
      var i, j := from + |g|, from + |g| + |w|;
      assert s[from..] == g + w + t;
      forall n | from <= n < i ensures IsSpace(s[n]) {
        assert s[n] == g[n - from];
      }
      forall n | i <= n < j ensures !IsSpace(s[n]) {
        assert s[n] == w[n - i];
      }
      assert s[i] == w[0];
      BlanksEndAt(s, from, i);
      if t != [] {
        assert gaps[1] != [] by {
          if |words| == 1 {
            assert t == gaps[1..][0];
          }
        }
        if |words| > 1 {
          assert t == gaps[1] + words[1] + Weave(gaps[2..], words[2..]);
        } else {
          assert t == gaps[1];
        }
        assert s[j] == t[0] == gaps[1][0];
      }
      WordEndAt(s, i, j);
      assert s[j..] == t;
      assert s[i..j] == w;
      var gaps', words' := gaps[1..], words[1..];
      forall k | 0 < k < |words'| ensures gaps'[k] != [] {
        assert gaps'[k] == gaps[k + 1];
      }
      SeparatedFromSplit(s, j, gaps', words');
    }
  }

  /** `split()` is determined by the layout: whatever blanks separate the words, they are the result. */
  lemma SplitUnique(s: string, gaps: seq<string>, words: seq<string>)
    requires Separates(s, gaps, words) && AreWords(words)
    ensures Split(s) == words
  {
    assert s[0..] == s;
    SeparatedFromSplit(s, 0, gaps, words);
  }

  /** The non-blank characters of `s`, in order. */
  function NonBlank(s: string): string {
    if s == [] then [] else (if IsSpace(s[0]) then [] else [s[0]]) + NonBlank(s[1..])
  }

  /** The concatenation of some strings. */
  function Concat(parts: seq<string>): string {
    if parts == [] then [] else parts[0] + Concat(parts[1..])
  }

  lemma {:induction false} NonBlankAppend(a: string, b: string)
    ensures NonBlank(a + b) == NonBlank(a) + NonBlank(b)
  {
    if a != [] {
      assert (a + b)[1..] == a[1..] + b;
      NonBlankAppend(a[1..], b);
    } else {
      assert a + b == b;
    }
  }

  lemma {:induction false} NonBlankOfBlanks(s: string)
    requires AllSpace(s)
    ensures NonBlank(s) == []
  {
    if s != [] {
      NonBlankOfBlanks(s[1..]);
    }
  }

  lemma {:induction false} NonBlankOfWord(s: string)
    requires NoSpace(s)
    ensures NonBlank(s) == s
  {
    if s != [] {
      NonBlankOfWord(s[1..]);
    }
  }

  lemma {:induction false} NonBlankWeave(gaps: seq<string>, words: seq<string>)
    requires |gaps| == |words| + 1 && (forall k | 0 <= k < |gaps| :: AllSpace(gaps[k])) && AreWords(words)
    ensures NonBlank(Weave(gaps, words)) == Concat(words)
  {
    NonBlankOfBlanks(gaps[0]);
    if words != [] {
      NonBlankOfWord(words[0]);
      var rest := Weave(gaps[1..], words[1..]);
      NonBlankAppend(gaps[0] + words[0], rest);
      NonBlankAppend(gaps[0], words[0]);
      assert forall k | 0 <= k < |gaps[1..]| :: gaps[1..][k] == gaps[k + 1];
      assert forall k | 0 <= k < |words[1..]| :: words[1..][k] == words[k + 1];
      NonBlankWeave(gaps[1..], words[1..]);
    } else {
      assert Concat(words) == [];
    }
  }

  /** The words of `s.split()`, put together, are the non-blank characters of `s` in order. */
  lemma SplitConcat(s: string)
    ensures Concat(Split(s)) == NonBlank(s)
  {
    var gaps := SplitFromSeparates(s, 0);
    assert s[0..] == s;
    SplitFromWords(s, 0);
    NonBlankWeave(gaps, Split(s));
  }

  /**
   * The number of words in `s`, counted by scanning: a word starts at each
   * non-blank character that follows a blank or begins the string.
   */
  function WordCount(s: string): nat {
    WordsFrom(s, 0, true)
  }

  /** Words counted in `s[from..]` when the character before it was blank (`gap`) or not. */
  function WordsFrom(s: string, from: nat, gap: bool): nat
    requires from <= |s|
    decreases |s| - from
  {
    if from == |s| then 0
    else if IsSpace(s[from]) then WordsFrom(s, from + 1, true)
    else (if gap then 1 else 0) + WordsFrom(s, from + 1, false)
  }

  lemma {:induction false} WordsFromBlanks(s: string, from: nat, gap: bool)
    requires from <= |s|
    ensures WordsFrom(s, from, gap) == WordsFrom(s, BlanksEnd(s, from), if BlanksEnd(s, from) == from then gap else true)
    decreases |s| - from
  {
    if from < |s| && IsSpace(s[from]) {
      WordsFromBlanks(s, from + 1, true);
    }
  }

  lemma {:induction false} WordsFromWord(s: string, from: nat, gap: bool)
    requires from < |s| && !IsSpace(s[from])
    ensures WordsFrom(s, from, gap) == (if gap then 1 else 0) + WordsFrom(s, WordEnd(s, from), false)
    decreases |s| - from
  {
    if from + 1 < |s| && !IsSpace(s[from + 1]) {
      WordsFromWord(s, from + 1, false);
    }
  }

  lemma {:induction false} WordsFromCountsSplit(s: string, from: nat)
    requires from <= |s|
    ensures WordsFrom(s, from, true) == |SplitFrom(s, from)|
    decreases |s| - from
  {
    var i := BlanksEnd(s, from);
    WordsFromBlanks(s, from, true);
    if i < |s| {
      BlanksEndMeaning(s, from);
      var j := WordEnd(s, i);
      WordEndMeaning(s, i);
      WordsFromWord(s, i, true);
      WordsFromCountsSplit(s, j);
    }
  }

  /** The scanning count is the number of words `s.split()` yields: `len(s.split())`. */
  lemma WordCountIsSplitLength(s: string)
    ensures WordCount(s) == |Split(s)|
  {
    WordsFromCountsSplit(s, 0);
  }

  /** A text counts no words exactly when it is all blanks. */
  lemma WordCountZeroIffBlank(s: string)
    ensures WordCount(s) == 0 <==> AllSpace(s)
  {
    WordCountIsSplitLength(s);
    SplitEmptyIffBlank(s);
  }

  /** The total length of some strings. */
  function TotalLength(parts: seq<string>): nat {
    if parts == [] then 0 else |parts[0]| + TotalLength(parts[1..])
  }

  /**
   * `sep.join(parts)`: every part once, in order, with one separator
   * between neighbours, so it starts with the first part.
   */
  function Join(parts: seq<string>, sep: string): (r: string)
    ensures parts == [] ==> r == ""
    ensures parts != [] ==> |r| == TotalLength(parts) + (|parts| - 1) * |sep| && r[..|parts[0]|] == parts[0]
  {
    if |parts| == 0 then ""
    else if |parts| == 1 then parts[0]
    else
      var rest := Join(parts[1..], sep);
      assert (parts[0] + sep + rest)[..|parts[0]|] == parts[0];
      parts[0] + sep + rest
  }

  /** Where `parts[k]` starts in `sep.join(parts)`: after the earlier parts and one separator each. */
  function JoinOffset(parts: seq<string>, sep: string, k: nat): nat
    requires k <= |parts|
  {
    TotalLength(parts[..k]) + k * |sep|
  }

  lemma JoinOffsetStep(parts: seq<string>, sep: string, k: nat)
    requires 0 < |parts| && k < |parts|
    ensures JoinOffset(parts, sep, k + 1) == |parts[0]| + |sep| + JoinOffset(parts[1..], sep, k)
  {
    assert parts[..k + 1][1..] == parts[1..][..k];
  }

  lemma SliceAfter(x: string, y: string, i: nat, j: nat)
    requires i <= j <= |y|
    ensures (x + y)[|x| + i..|x| + j] == y[i..j]
  {
  }

  /** The first part of `sep.join(parts)`, and the separator after it when a part follows. */
  lemma JoinHead(parts: seq<string>, sep: string)
    requires 0 < |parts|
    ensures JoinOffset(parts, sep, 0) == 0 && |parts[0]| <= |Join(parts, sep)|
    ensures Join(parts, sep)[..|parts[0]|] == parts[0]
    ensures 1 < |parts| ==>
      && JoinOffset(parts, sep, 1) == |parts[0]| + |sep| <= |Join(parts, sep)|
      && Join(parts, sep)[|parts[0]|..|parts[0]| + |sep|] == sep
  {
    if 1 < |parts| {
      JoinOffsetStep(parts, sep, 0);
      assert JoinOffset(parts[1..], sep, 0) == 0;
      assert Join(parts, sep) == parts[0] + sep + Join(parts[1..], sep);
    }
  }

  /** `parts[k]` sits at its offset in `sep.join(parts)`, and the next part one separator after it. */
  lemma {:induction false} JoinPart(parts: seq<string>, sep: string, k: nat)
    requires k < |parts|
    ensures JoinOffset(parts, sep, k) + |parts[k]| <= |Join(parts, sep)|
    ensures Join(parts, sep)[JoinOffset(parts, sep, k)..JoinOffset(parts, sep, k) + |parts[k]|] == parts[k]
    ensures k + 1 < |parts| ==>
      && JoinOffset(parts, sep, k + 1) == JoinOffset(parts, sep, k) + |parts[k]| + |sep|
      && JoinOffset(parts, sep, k + 1) <= |Join(parts, sep)|
    decreases k
  {
    JoinHead(parts, sep);
    if 0 < k {
      var tail := parts[1..];
      var head, rest := parts[0] + sep, Join(tail, sep);
      assert Join(parts, sep) == head + rest;
      JoinPart(tail, sep, k - 1);
      JoinOffsetStep(parts, sep, k - 1);
      var o := JoinOffset(tail, sep, k - 1);
      assert tail[k - 1] == parts[k];
      SliceAfter(head, rest, o, o + |parts[k]|);
      if k + 1 < |parts| {
        JoinOffsetStep(parts, sep, k);
      }
    }
  }

  /** The separator fills the gap between `parts[k]` and `parts[k + 1]` in `sep.join(parts)`. */
  lemma {:induction false} JoinSeparator(parts: seq<string>, sep: string, k: nat)
    requires k + 1 < |parts|
    ensures JoinOffset(parts, sep, k) + |parts[k]| <= JoinOffset(parts, sep, k + 1) <= |Join(parts, sep)|
    ensures Join(parts, sep)[JoinOffset(parts, sep, k) + |parts[k]|..JoinOffset(parts, sep, k + 1)] == sep
    decreases k
  {
    JoinHead(parts, sep);
    JoinPart(parts, sep, k);
    if 0 < k {
      var tail := parts[1..];
      var head, rest := parts[0] + sep, Join(tail, sep);
      assert Join(parts, sep) == head + rest;
      JoinSeparator(tail, sep, k - 1);
      JoinOffsetStep(parts, sep, k - 1);
      JoinOffsetStep(parts, sep, k);
      assert tail[k - 1] == parts[k];
      SliceAfter(head, rest, JoinOffset(tail, sep, k - 1) + |parts[k]|, JoinOffset(tail, sep, k));
    }
  }

  /**
   * In `sep.join(parts)`, each `parts[k]` sits at its offset, and `sep`
   * fills the space between each part and the next.
   */
  lemma JoinPlaces(parts: seq<string>, sep: string)
    ensures forall k | 0 <= k < |parts| ::
      JoinOffset(parts, sep, k) + |parts[k]| <= |Join(parts, sep)|
      && Join(parts, sep)[JoinOffset(parts, sep, k)..JoinOffset(parts, sep, k) + |parts[k]|] == parts[k]
    ensures forall k | 0 <= k < |parts| - 1 ::
      JoinOffset(parts, sep, k + 1) == JoinOffset(parts, sep, k) + |parts[k]| + |sep|
    ensures forall k | 0 <= k < |parts| - 1 ::
      Join(parts, sep)[JoinOffset(parts, sep, k) + |parts[k]|..JoinOffset(parts, sep, k + 1)] == sep
  {
    forall k | 0 <= k < |parts|
      ensures JoinOffset(parts, sep, k) + |parts[k]| <= |Join(parts, sep)|
      ensures Join(parts, sep)[JoinOffset(parts, sep, k)..JoinOffset(parts, sep, k) + |parts[k]|] == parts[k]
      ensures k + 1 < |parts| ==>
        && JoinOffset(parts, sep, k + 1) == JoinOffset(parts, sep, k) + |parts[k]| + |sep|
        && JoinOffset(parts, sep, k + 1) <= |Join(parts, sep)|
        && Join(parts, sep)[JoinOffset(parts, sep, k) + |parts[k]|..JoinOffset(parts, sep, k + 1)] == sep
    {
      JoinPart(parts, sep, k);
      if k + 1 < |parts| {
        JoinSeparator(parts, sep, k);
      }
    }
  }

  function DigitChar(d: nat): char
    requires d < 10
  {
    ('0' as int + d) as char
  }

  /** The number that a string of decimal digits denotes, read most significant digit first. */
  function DigitsValue(ds: string): int {
    if ds == [] then 0 else DigitsValue(ds[..|ds| - 1]) * 10 + (ds[|ds| - 1] as int - '0' as int)
  }

  /** The decimal digits of `n`, with no leading zero. */
  function NatToString(n: nat): (r: string)
    ensures r != [] && (r[0] == '0' ==> n == 0)
    ensures forall i | 0 <= i < |r| :: '0' <= r[i] <= '9'
    decreases n
  {
    if n < 10 then [DigitChar(n)] else NatToString(n / 10) + [DigitChar(n % 10)]
  }

  /** The decimal digits of `n` read back as `n`. */
  lemma {:induction false} NatToStringValue(n: nat)
    ensures DigitsValue(NatToString(n)) == n
    decreases n
  {
    if 10 <= n {
      var front := NatToString(n / 10);
      NatToStringValue(n / 10);
      assert (front + [DigitChar(n % 10)])[..|front|] == front;
    }
  }

  /** `str(n)`: a minus sign exactly for a negative number, then decimal digits without a leading zero. */
  function IntToString(n: int): (r: string)
    ensures |r| > (if n < 0 then 1 else 0) && (r[0] == '-' <==> n < 0)
    ensures forall i | (if n < 0 then 1 else 0) <= i < |r| :: '0' <= r[i] <= '9'
    ensures r[if n < 0 then 1 else 0] == '0' ==> n == 0
  {
    if n < 0 then "-" + NatToString(-n) else NatToString(n)
  }

  /** The digits of `str(n)`, after the sign, read back as the magnitude of `n`. */
  lemma IntToStringValue(n: int)
    ensures DigitsValue(IntToString(n)[if n < 0 then 1 else 0..]) == if n < 0 then -n else n
  {
    if n < 0 {
      NatToStringValue(-n);
      assert IntToString(n)[1..] == NatToString(-n);
    } else {
      NatToStringValue(n);
      assert IntToString(n)[0..] == NatToString(n);
    }
  }
}
