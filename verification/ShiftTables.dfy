/** What the two shift tables of the search mean, as functions of the pattern alone. */
module ShiftTables {
  import opened CTypes
  import opened CString

  // ----- bad character -----

  /** Index of the last `c` among the first `n` letters of `pat`, or -1. */
  function LastIndex(pat: seq<byte>, c: byte, n: nat): (r: int)
    requires n <= |pat|
    ensures -1 <= r < n
  {
    if n == 0 then -1 else if pat[n - 1] == c then n - 1 else LastIndex(pat, c, n - 1)
  }

  lemma {:induction false} LastIndexMeaning(pat: seq<byte>, c: byte, n: nat)
    requires n <= |pat|
    ensures var r := LastIndex(pat, c, n);
      (0 <= r ==> pat[r] == c) && forall k :: r < k < n ==> pat[k] != c
  {
    if n != 0 && pat[n - 1] != c {
      LastIndexMeaning(pat, c, n - 1);
    }
  }

  /** Distance from the last letter back to the last earlier `c`; the whole length if there is none. */
  function BadCharacter(pat: seq<byte>, c: byte): (r: int)
    requires pat != []
    ensures 1 <= r <= |pat|
  {
    |pat| - 1 - LastIndex(pat, c, |pat| - 1)
  }

  // ----- good suffix -----

  /** The test of the first table loop: the pattern from `p` on against its own start. */
  predicate BorderTest(pat: seq<byte>, p: nat)
    requires p < |pat|
  {
    StrncmpEqual(pat, p, pat, 0, |pat| - p)
  }

  /** A proper border: the suffix starting at `q` is also a prefix. */
  predicate IsBorder(pat: seq<byte>, q: nat) {
    1 <= q < |pat| && pat[q..] == pat[..|pat| - q]
  }

  /** The first position from `p` on that passes the test, or the length of the pattern. */
  function NextBorder(pat: seq<byte>, p: nat): (r: nat)
    requires p <= |pat|
    ensures p <= r <= |pat|
    decreases |pat| - p
  {
    if p == |pat| || BorderTest(pat, p) then p else NextBorder(pat, p + 1)
  }

  lemma {:induction false} NextBorderMeaning(pat: seq<byte>, p: nat)
    requires p <= |pat|
    ensures var r := NextBorder(pat, p);
      (r < |pat| ==> BorderTest(pat, r)) && forall k :: p <= k < r ==> !BorderTest(pat, k)
    decreases |pat| - p
  {
    if p != |pat| && !BorderTest(pat, p) {
      NextBorderMeaning(pat, p + 1);
    }
  }

  /** `last_prefix` once position `p` has been handled. */
  function LastPrefix(pat: seq<byte>, p: nat): int
    requires p <= |pat|
  {
    var q := NextBorder(pat, p);
    if q < |pat| then q + 1 else |pat| - 1
  }

  /** The suffix after `j` also occurs `d` places to the left, after a letter other than `pat[j]`. */
  predicate Recurs(pat: seq<byte>, j: nat, d: nat)
    requires j < |pat|
  {
    1 <= d <= j && pat[j - d] != pat[j] && pat[j + 1 - d..|pat| - d] == pat[j + 1..]
  }

  /** The least such distance from `lo` on, or the length of the pattern. */
  function NextRecurrence(pat: seq<byte>, j: nat, lo: nat): (r: nat)
    requires j < |pat|
    ensures r == |pat| || lo <= r <= j
    decreases j + 1 - lo
  {
    if lo > j then |pat| else if Recurs(pat, j, lo) then lo else NextRecurrence(pat, j, lo + 1)
  }

  lemma {:induction false} NextRecurrenceMeaning(pat: seq<byte>, j: nat, lo: nat)
    requires j < |pat|
    ensures var r := NextRecurrence(pat, j, lo);
      (r < |pat| ==> Recurs(pat, j, r)) && forall d :: lo <= d < r ==> !Recurs(pat, j, d)
    decreases j + 1 - lo
  {
    if lo <= j && !Recurs(pat, j, lo) {
      NextRecurrenceMeaning(pat, j, lo + 1);
    }
  }

  lemma RecurrenceStep(pat: seq<byte>, j: nat, lo: nat)
    requires j < |pat|
    ensures Recurs(pat, j, lo) ==> NextRecurrence(pat, j, lo) == lo
    ensures !Recurs(pat, j, lo) ==> NextRecurrence(pat, j, lo) == NextRecurrence(pat, j, lo + 1)
  {
    if lo > j { assert NextRecurrence(pat, j, lo) == NextRecurrence(pat, j, lo + 1); }
  }

  /** The entry for a mismatch at `j`, counting only recurrences at distance `lo` or more. */
  function GoodSuffixFrom(pat: seq<byte>, j: nat, lo: nat): int
    requires j < |pat|
  {
    var d := NextRecurrence(pat, j, lo);
    |pat| - 1 - j + if d < |pat| then d else LastPrefix(pat, j)
  }

  /** The good-suffix table with only the recurrences at distance `lo` or more counted. */
  function Row(pat: seq<byte>, lo: nat): (r: seq<int>)
    ensures |r| == |pat|
  {
    seq(|pat|, j requires 0 <= j < |pat| => GoodSuffixFrom(pat, j, lo))
  }

  function BadCharacterTable(pat: seq<byte>): (r: seq<int>)
    requires pat != []
    ensures |r| == ALPHABET_LEN
  {
    seq(ALPHABET_LEN, c requires 0 <= c < ALPHABET_LEN => BadCharacter(pat, c))
  }

  function GoodSuffixTable(pat: seq<byte>): (r: seq<int>)
    ensures |r| == |pat|
  {
    Row(pat, 1)
  }

  lemma BorderAtZero(pat: seq<byte>)
    requires pat != []
    ensures BorderTest(pat, 0)
  {
    StrncmpMeaning(pat, 0, pat, 0, |pat|);
  }

  /** On a NUL-free pattern the library comparison finds exactly the borders. */
  lemma BorderTestMeaning(pat: seq<byte>, q: nat)
    requires NulFree(pat) && 1 <= q < |pat|
    ensures BorderTest(pat, q) <==> IsBorder(pat, q)
  {
    StrncmpMeaning(pat, q, pat, 0, |pat| - q);
    assert pat[0..] == pat;
    CutNulFree(pat[q..]);
    CutNulFree(pat);
  }

  lemma LastPrefixRange(pat: seq<byte>, p: nat)
    requires p < |pat|
    ensures 1 <= LastPrefix(pat, p) <= |pat|
  {
    if p == 0 {
      BorderAtZero(pat);
    }
  }

  lemma LastPrefixBeyond(pat: seq<byte>, j: nat)
    requires j < |pat|
    ensures j <= LastPrefix(pat, j)
  {
  }

  /** Every entry moves the window on, and never by more than the length of the pattern. */
  lemma GoodSuffixRange(pat: seq<byte>, j: nat, lo: nat)
    requires j < |pat| && 1 <= lo
    ensures |pat| - 1 - j < GoodSuffixFrom(pat, j, lo) <= |pat| - 1 - j + |pat|
  {
    LastPrefixRange(pat, j);
  }

  /** Taking more recurrences into account never raises an entry: the second loop only lowers the first. */
  lemma GoodSuffixAntitone(pat: seq<byte>, j: nat, lo: nat)
    requires j < |pat| && 1 <= lo
    ensures GoodSuffixFrom(pat, j, lo) <= |pat| - 1 - j + LastPrefix(pat, j)
  {
    LastPrefixRange(pat, j);
    LastPrefixBeyond(pat, j);
  }

  /** Entry `c` leads back to the last `c` before the final letter; there is none between. */
  lemma BadCharacterMeaning(pat: seq<byte>, c: byte)
    requires pat != []
    ensures var r := |pat| - 1 - BadCharacterTable(pat)[c];
      (r == -1 || (0 <= r < |pat| - 1 && pat[r] == c)) && forall k :: r < k < |pat| - 1 ==> pat[k] != c
  {
    LastIndexMeaning(pat, c, |pat| - 1);
  }

  /**
   * Entry `j` is the number of matched letters plus the least distance at which they recur after a different
   * letter; failing that, plus one more than the next position that passes the border test; failing that too,
   * plus the length of the pattern less one.
   */
  lemma GoodSuffixMeaning(pat: seq<byte>, j: nat, q: nat)
    requires j < |pat|
    ensures var d := GoodSuffixTable(pat)[j] - (|pat| - 1 - j);
      && (Recurs(pat, j, q) ==> Recurs(pat, j, d) && d <= q)
      && (Recurs(pat, j, d)
          || (1 <= d && j <= d - 1 < |pat| && BorderTest(pat, d - 1))
          || d == |pat| - 1)
      && (!Recurs(pat, j, d) && j <= q < |pat| && BorderTest(pat, q) ==> BorderTest(pat, d - 1) && j <= d - 1 <= q)
  {
    NextRecurrenceMeaning(pat, j, 1);
    NextBorderMeaning(pat, j);
  }
}
