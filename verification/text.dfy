/** The few Python `str` operations the scripts rely on: `sub in s`,
    `s.split(sep)[0]` and `s.strip(chars)`. */
module Text {
  import opened Wrappers

  /** `sub` occurs in `s` starting at offset `i`. */
  predicate OccursAt(s: string, sub: string, i: nat) {
    i + |sub| <= |s| && s[i..i + |sub|] == sub
  }

  /** The leftmost offset at or after `from` where `sub` occurs in `s`. */
  function FindFrom(s: string, sub: string, from: nat): (r: Option<nat>)
    ensures r.Some? ==> from <= r.value && OccursAt(s, sub, r.value)
    ensures r.Some? ==> forall j :: from <= j < r.value ==> !OccursAt(s, sub, j)
    ensures r.None? ==> forall j :: from <= j ==> !OccursAt(s, sub, j)
    decreases |s| - from
  {
    if |s| < from + |sub| then None
    else if OccursAt(s, sub, from) then Some(from)
    else FindFrom(s, sub, from + 1)
  }

  /** Python's `sub in s`: a substring test, not a suffix test. */
  function Contains(s: string, sub: string): (r: bool)
    ensures r <==> exists i: nat :: OccursAt(s, sub, i)
  {
    FindFrom(s, sub, 0).Some?
  }

  /** Python's `s.split(sep)[0]`: everything before the first `sep`,
      or all of `s` when `sep` does not occur. */
  function BeforeFirst(s: string, sep: char): (r: string)
    ensures r <= s
    ensures sep !in r
    ensures |r| < |s| ==> s[|r|] == sep
  {
    if |s| == 0 || s[0] == sep then []
    else [s[0]] + BeforeFirst(s[1..], sep)
  }

  /** The first index at or after `i` whose character is not in `chars`,
      or `|s|` when there is none. */
  function LeadEnd(s: string, chars: set<char>, i: nat): (r: nat)
    requires i <= |s|
    ensures i <= r <= |s|
    ensures forall k :: i <= k < r ==> s[k] in chars
    ensures r < |s| ==> s[r] !in chars
    decreases |s| - i
  {
    if i == |s| || s[i] !in chars then i
    else LeadEnd(s, chars, i + 1)
  }

  /** The largest `r` in `lo..j` such that `s[r..j]` holds only characters of
      `chars` and `s[r - 1]` is not one of them (or `r == lo`). */
  function TrailStart(s: string, chars: set<char>, lo: nat, j: nat): (r: nat)
    requires lo <= j <= |s|
    ensures lo <= r <= j
    ensures forall k :: r <= k < j ==> s[k] in chars
    ensures lo < r ==> s[r - 1] !in chars
    decreases j
  {
    if j == lo || s[j - 1] !in chars then j
    else TrailStart(s, chars, lo, j - 1)
  }

  /** The slice `s[lo..hi]` that Python's `s.strip(chars)` keeps: a maximal
      run of `chars` is removed from each end, and nothing else. */
  function StripBounds(s: string, chars: set<char>): (b: (nat, nat))
    ensures b.0 <= b.1 <= |s|
    ensures forall k :: 0 <= k < b.0 ==> s[k] in chars
    ensures forall k :: b.1 <= k < |s| ==> s[k] in chars
    ensures b.0 < b.1 ==> s[b.0] !in chars && s[b.1 - 1] !in chars
    ensures b.0 == b.1 ==> forall k :: 0 <= k < |s| ==> s[k] in chars
  {
    var lo := LeadEnd(s, chars, 0);
    (lo, TrailStart(s, chars, lo, |s|))
  }

  /** `d` sits in `s` at offset `i`, with only characters of `chars` around it. */
  predicate PaddedAt(s: string, d: string, i: nat, chars: set<char>) {
    && i + |d| <= |s| && s[i..i + |d|] == d
    && (forall k :: 0 <= k < i ==> s[k] in chars)
    && (forall k :: i + |d| <= k < |s| ==> s[k] in chars)
  }

  /** Python's `s.strip(chars)`. */
  function Strip(s: string, chars: set<char>): string
  {
    var b := StripBounds(s, chars);
    s[b.0..b.1]
  }

  /** Stripping twice removes nothing more than stripping once. */
  lemma StripIdempotent(s: string, chars: set<char>)
    ensures Strip(Strip(s, chars), chars) == Strip(s, chars)
  {
    var t := Strip(s, chars);
    var b := StripBounds(t, chars);
    if |t| > 0 {
      assert t[0] !in chars && t[|t| - 1] !in chars;
      assert b.0 == 0;
      assert b.1 == |t|;
    }
  }

  /** A last character outside `chars` survives stripping, still last. */
  lemma StripKeepsLast(s: string, chars: set<char>)
    requires |s| > 0 && s[|s| - 1] !in chars
    ensures |Strip(s, chars)| > 0
    ensures Strip(s, chars)[|Strip(s, chars)| - 1] == s[|s| - 1]
  {
    var b := StripBounds(s, chars);
    assert b.1 == |s|;
  }

  /** Splitting `p + [sep] + q` at its first `sep` gives back `p` when `p`
      holds no `sep`. */
  lemma {:induction false} BeforeFirstOfJoin(p: string, sep: char, q: string)
    requires sep !in p
    ensures BeforeFirst(p + [sep] + q, sep) == p
  {
    if |p| > 0 {
      assert (p + [sep] + q)[1..] == p[1..] + [sep] + q;
      BeforeFirstOfJoin(p[1..], sep, q);
      assert [p[0]] + p[1..] == p;
    }
  }
}
