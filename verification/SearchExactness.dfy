/** When the search agrees with naive leftmost search, for which patterns, and why. */
module SearchExactness {
  import opened CTypes
  import opened CString
  import opened ShiftTables
  import opened BoyerMoore

  // ----- the reference -----

  predicate OccursAt(text: seq<byte>, n: nat, pat: seq<byte>, k: nat) {
    k + |pat| <= n <= |text| && forall i :: 0 <= i < |pat| ==> text[k + i] == pat[i]
  }

  /** Naive search: try every position from `k` on. */
  function Naive(text: seq<byte>, n: nat, pat: seq<byte>, k: nat): Option<nat>
    requires n <= |text|
    decreases n - k
  {
    if k + |pat| > n then None else if OccursAt(text, n, pat, k) then Some(k)
    else if k == n then None else Naive(text, n, pat, k + 1)
  }

  ghost predicate IsLeftmost(text: seq<byte>, n: nat, pat: seq<byte>, r: Option<nat>) {
    match r
    case None => forall k: nat :: !OccursAt(text, n, pat, k)
    case Some(p) => OccursAt(text, n, pat, p) && forall k :: 0 <= k < p ==> !OccursAt(text, n, pat, k)
  }

  lemma {:induction false} NaiveIsLeftmost(text: seq<byte>, n: nat, pat: seq<byte>, k: nat)
    requires n <= |text| && pat != []
    requires forall i :: 0 <= i < k ==> !OccursAt(text, n, pat, i)
    ensures IsLeftmost(text, n, pat, Naive(text, n, pat, k))
    decreases n - k
  {
    if k + |pat| <= n && !OccursAt(text, n, pat, k) {
      NaiveIsLeftmost(text, n, pat, k + 1);
    }
  }

  lemma {:induction false} NaiveSkip(text: seq<byte>, n: nat, pat: seq<byte>, k: nat, to: nat)
    requires n <= |text| && pat != [] && k <= to
    requires forall i :: k <= i < to ==> !OccursAt(text, n, pat, i)
    ensures Naive(text, n, pat, k) == Naive(text, n, pat, to)
    decreases n - k
  {
    if k < to && k + |pat| <= n {
      NaiveSkip(text, n, pat, k + 1, to);
    }
  }

  // ----- soundness, for every pattern and any tables that move the window on -----

  lemma {:induction false} ScanSound(text: seq<byte>, n: nat, pat: seq<byte>, t1: seq<int>, t2: seq<int>, e: nat)
    requires n <= |text| && Tables(pat, t1, t2) && |pat| - 1 <= e
    ensures var r := Scan(text, n, pat, t1, t2, e); r.Some? ==> OccursAt(text, n, pat, r.value)
    decreases n - e
  {
    if e < n {
      var s := MatchedSuffix(text, pat, e, 0);
      MatchedSuffixMeaning(text, pat, e, 0);
      if s < |pat| {
        ScanSound(text, n, pat, t1, t2, e - s + Max(t1[text[e - s]], t2[|pat| - 1 - s]));
      }
    }
  }

  lemma SearchSound(text: seq<byte>, n: nat, pat: seq<byte>)
    requires n <= |text| && pat != []
    ensures var r := Search(text, n, pat); r.Some? ==> OccursAt(text, n, pat, r.value)
  {
    TablesFit(pat);
    ScanSound(text, n, pat, BadCharacterTable(pat), GoodSuffixTable(pat), |pat| - 1);
  }

  // ----- what one mismatch tells about the occurrences ahead -----

  /** Jumping by the bad-character entry alone never passes an occurrence, for every pattern. */
  lemma BadCharacterSafe(text: seq<byte>, n: nat, pat: seq<byte>, e: nat, x: nat)
    requires 0 <= |pat| - 1 <= e < n <= |text| && 1 <= x
    requires MatchedSuffix(text, pat, e, 0) < |pat|
    requires OccursAt(text, n, pat, e + x - (|pat| - 1))
    ensures var s := MatchedSuffix(text, pat, e, 0); BadCharacter(pat, text[e - s]) - s <= x
  {
    var s, k := MatchedSuffix(text, pat, e, 0), e + x - (|pat| - 1);
    var j := |pat| - 1 - s;
    if x <= j {
      assert text[k + (j - x)] == pat[j - x];
      LastIndexMeaning(pat, text[e - s], |pat| - 1);
    }
  }

  lemma OverlapRepeats(text: seq<byte>, n: nat, pat: seq<byte>, e: nat, x: nat, j: nat)
    requires 0 <= |pat| - 1 <= e < n <= |text| && 1 <= x <= j < |pat|
    requires j == |pat| - 1 - MatchedSuffix(text, pat, e, 0)
    requires OccursAt(text, n, pat, e + x - (|pat| - 1))
    ensures pat[j + 1 - x..|pat| - x] == pat[j + 1..]
  {
    MatchedSuffixMeaning(text, pat, e, 0);
    var there, here := pat[j + 1 - x..|pat| - x], pat[j + 1..];
    forall i | 0 <= i < |here| ensures there[i] == here[i] {
      assert pat[j + 1 + i] == text[e - (|pat| - 1) + (j + 1 + i)] == pat[j + 1 - x + i];
    }
  }

  lemma MismatchIsNoMatch(text: seq<byte>, n: nat, pat: seq<byte>, e: nat)
    requires 0 <= |pat| - 1 <= e < n <= |text| && MatchedSuffix(text, pat, e, 0) < |pat|
    ensures !OccursAt(text, n, pat, e - (|pat| - 1))
  {
    MatchedSuffixMeaning(text, pat, e, 0);
  }

  /** An occurrence `x` ahead that overlaps the mismatch is a recurrence of the matched suffix. */
  lemma OverlapRecurs(text: seq<byte>, n: nat, pat: seq<byte>, e: nat, x: nat, j: nat)
    requires 0 <= |pat| - 1 <= e < n <= |text| && 1 <= x <= j < |pat|
    requires j == |pat| - 1 - MatchedSuffix(text, pat, e, 0)
    requires OccursAt(text, n, pat, e + x - (|pat| - 1))
    ensures Recurs(pat, j, x)
  {
    OverlapRepeats(text, n, pat, e, x, j);
    MatchedSuffixMeaning(text, pat, e, 0);
    assert pat[j - x] == text[e + x - (|pat| - 1) + (j - x)];
  }

  /** An occurrence `x` ahead that overlaps only matched letters is a border. */
  lemma OverlapIsBorder(text: seq<byte>, n: nat, pat: seq<byte>, e: nat, x: nat, j: nat)
    requires 0 <= |pat| - 1 <= e < n <= |text| && j < x < |pat|
    requires j == |pat| - 1 - MatchedSuffix(text, pat, e, 0)
    requires OccursAt(text, n, pat, e + x - (|pat| - 1))
    ensures IsBorder(pat, x)
  {
    MatchedSuffixMeaning(text, pat, e, 0);
    var suffix, prefix := pat[x..], pat[..|pat| - x];
    forall i | 0 <= i < |suffix| ensures suffix[i] == prefix[i] {
      assert pat[x + i] == text[e - (|pat| - 1) + (x + i)] == pat[i];
    }
  }

  // ----- which patterns are searched exactly -----

  /** No entry jumps past a border that the matched letters leave possible. */
  ghost predicate TableSafe(pat: seq<byte>) {
    forall j, x :: 0 <= j < x < |pat| && IsBorder(pat, x) ==> GoodSuffixTable(pat)[j] - (|pat| - 1 - j) <= x
  }

  /** The search agrees with naive search on every text. */
  ghost predicate Exact(pat: seq<byte>)
    requires pat != []
  {
    forall text: seq<byte>, n: nat :: n <= |text| ==> Search(text, n, pat) == Naive(text, n, pat, 0)
  }

  lemma GoodSuffixSafe(text: seq<byte>, n: nat, pat: seq<byte>, e: nat, x: nat)
    requires TableSafe(pat)
    requires 0 <= |pat| - 1 <= e < n <= |text| && 1 <= x
    requires MatchedSuffix(text, pat, e, 0) < |pat|
    requires OccursAt(text, n, pat, e + x - (|pat| - 1))
    ensures var s := MatchedSuffix(text, pat, e, 0); GoodSuffixTable(pat)[|pat| - 1 - s] - s <= x
  {
    var j := |pat| - 1 - MatchedSuffix(text, pat, e, 0);
    GoodSuffixRange(pat, j, 1);
    if x <= j {
      OverlapRecurs(text, n, pat, e, x, j);
      NextRecurrenceMeaning(pat, j, 1);
    } else if x < |pat| {
      OverlapIsBorder(text, n, pat, e, x, j);
    }
  }

  /** No jump from a mismatch passes an occurrence. */
  ghost predicate PassesNone(text: seq<byte>, n: nat, pat: seq<byte>, t1: seq<int>, t2: seq<int>)
    requires n <= |text| && Tables(pat, t1, t2)
  {
    forall e: nat, i: nat ::
      |pat| - 1 <= e < n && MatchedSuffix(text, pat, e, 0) < |pat| &&
      e - (|pat| - 1) <= i && OccursAt(text, n, pat, i) ==>
        var s := MatchedSuffix(text, pat, e, 0);
        i + |pat| - 1 >= e - s + Max(t1[text[e - s]], t2[|pat| - 1 - s])
  }

  lemma TableSafePassesNone(text: seq<byte>, n: nat, pat: seq<byte>)
    requires n <= |text| && pat != [] && TableSafe(pat) && Tables(pat, BadCharacterTable(pat), GoodSuffixTable(pat))
    ensures PassesNone(text, n, pat, BadCharacterTable(pat), GoodSuffixTable(pat))
  {
    forall e: nat, i: nat |
      |pat| - 1 <= e < n && MatchedSuffix(text, pat, e, 0) < |pat| &&
      e - (|pat| - 1) <= i && OccursAt(text, n, pat, i)
      ensures var s := MatchedSuffix(text, pat, e, 0);
        i + |pat| - 1 >= e - s + Max(BadCharacterTable(pat)[text[e - s]], GoodSuffixTable(pat)[|pat| - 1 - s])
    {
      if i == e - (|pat| - 1) {
        MismatchIsNoMatch(text, n, pat, e);
      } else {
        BadCharacterSafe(text, n, pat, e, i - (e - (|pat| - 1)));
        GoodSuffixSafe(text, n, pat, e, i - (e - (|pat| - 1)));
      }
    }
  }

  lemma MismatchSkips(text: seq<byte>, n: nat, pat: seq<byte>, t1: seq<int>, t2: seq<int>, e: nat, next: nat)
    requires n <= |text| && Tables(pat, t1, t2) && PassesNone(text, n, pat, t1, t2) && |pat| - 1 <= e < n
    requires var s := MatchedSuffix(text, pat, e, 0);
      s < |pat| && next == e - s + Max(t1[text[e - s]], t2[|pat| - 1 - s])
    ensures Naive(text, n, pat, e - (|pat| - 1)) == Naive(text, n, pat, next - (|pat| - 1))
  {
    forall i: nat | e - (|pat| - 1) <= i < next - (|pat| - 1) ensures !OccursAt(text, n, pat, i) {
    }
    NaiveSkip(text, n, pat, e - (|pat| - 1), next - (|pat| - 1));
  }

  lemma {:induction false} ScanExact(text: seq<byte>, n: nat, pat: seq<byte>, t1: seq<int>, t2: seq<int>, e: nat)
    requires n <= |text| && Tables(pat, t1, t2) && |pat| - 1 <= e
    requires PassesNone(text, n, pat, t1, t2)
    ensures Scan(text, n, pat, t1, t2, e) == Naive(text, n, pat, e - (|pat| - 1))
    decreases n - e
  {
    if e < n {
      var s := MatchedSuffix(text, pat, e, 0);
      if s < |pat| {
        var next := e - s + Max(t1[text[e - s]], t2[|pat| - 1 - s]);
        MismatchSkips(text, n, pat, t1, t2, e, next);
        ScanExact(text, n, pat, t1, t2, next);
      } else {
        MatchedSuffixMeaning(text, pat, e, 0);
        assert OccursAt(text, n, pat, e - (|pat| - 1));
      }
    }
  }

  /** A text on which an unsafe entry makes the search jump past the only occurrence. */
  function Trap(pat: seq<byte>, j: nat, x: nat): seq<byte>
    requires j < x < |pat|
  {
    pat[..x][j := if pat[j] == 1 then 2 else 1] + pat
  }

  lemma {:induction false} TrapMatches(pat: seq<byte>, j: nat, x: nat, s: nat)
    requires IsBorder(pat, x) && j < x && s <= |pat| - 1 - j
    ensures MatchedSuffix(Trap(pat, j, x), pat, |pat| - 1, s) == |pat| - 1 - j
    decreases |pat| - s
  {
    var text, i := Trap(pat, j, x), |pat| - 1 - s;
    if i >= x {
      assert text[i] == pat[i - x] == pat[..|pat| - x][i - x] == pat[x..][i - x];
    }
    if i > j {
      TrapMatches(pat, j, x, s + 1);
    }
  }

  lemma FirstJumpPastEnd(text: seq<byte>, n: nat, pat: seq<byte>, t1: seq<int>, t2: seq<int>, j: nat)
    requires j < |pat| <= n <= |text| && Tables(pat, t1, t2)
    requires MatchedSuffix(text, pat, |pat| - 1, 0) == |pat| - 1 - j && j + t2[j] >= n
    ensures Scan(text, n, pat, t1, t2, |pat| - 1) == None
  {
  }

  lemma TrapMissed(pat: seq<byte>, j: nat, x: nat)
    requires IsBorder(pat, x) && j < x && GoodSuffixTable(pat)[j] - (|pat| - 1 - j) > x
    ensures var text := Trap(pat, j, x);
      OccursAt(text, |text|, pat, x) && Search(text, |text|, pat) == None
  {
    TrapMatches(pat, j, x, 0);
    TablesFit(pat);
    var text := Trap(pat, j, x);
    FirstJumpPastEnd(text, |text|, pat, BadCharacterTable(pat), GoodSuffixTable(pat), j);
  }

  lemma TableSafeIsExact(pat: seq<byte>)
    requires pat != [] && TableSafe(pat)
    ensures Exact(pat)
  {
    TablesFit(pat);
    forall text: seq<byte>, n: nat | n <= |text| ensures Search(text, n, pat) == Naive(text, n, pat, 0) {
      TableSafePassesNone(text, n, pat);
      ScanExact(text, n, pat, BadCharacterTable(pat), GoodSuffixTable(pat), |pat| - 1);
    }
  }

  lemma ExactIsTableSafe(pat: seq<byte>)
    requires pat != [] && Exact(pat)
    ensures TableSafe(pat)
  {
    forall j, x | 0 <= j < x < |pat| && IsBorder(pat, x)
      ensures GoodSuffixTable(pat)[j] - (|pat| - 1 - j) <= x
    {
      if GoodSuffixTable(pat)[j] - (|pat| - 1 - j) > x {
        TrapMissed(pat, j, x);
        var text := Trap(pat, j, x);
        assert Search(text, |text|, pat) == Naive(text, |text|, pat, 0);
        NaiveIsLeftmost(text, |text|, pat, 0);
        assert false;
      }
    }
  }

  /** For every non-empty pattern: the search is exact on all texts if and only if the table is safe. */
  lemma ExactIffTableSafe(pat: seq<byte>)
    requires pat != []
    ensures Exact(pat) <==> TableSafe(pat)
  {
    if TableSafe(pat) {
      TableSafeIsExact(pat);
    }
    if Exact(pat) {
      ExactIsTableSafe(pat);
    }
  }

  // ----- the same condition, in terms of the letters of the pattern -----

  ghost predicate Unbordered(pat: seq<byte>) {
    forall q: nat :: !IsBorder(pat, q)
  }

  predicate Uniform(pat: seq<byte>) {
    forall k :: 0 <= k < |pat| ==> pat[k] == pat[0]
  }

  ghost predicate LeastBorder(pat: seq<byte>, q: nat) {
    IsBorder(pat, q) && forall k :: 0 <= k < q ==> !IsBorder(pat, k)
  }

  /** Letters that all equal their left neighbour are all the same. */
  lemma {:induction false} ShiftByOne(pat: seq<byte>, from: nat, k: nat)
    requires 1 <= from <= k + 1 <= |pat| && pat[from - 1..|pat| - 1] == pat[from..]
    ensures pat[k] == pat[from - 1]
    decreases k
  {
    if k >= from {
      RepeatAt(pat, from, 1, k);
      ShiftByOne(pat, from, k - 1);
    }
  }

  lemma BorderAtOneIsUniform(pat: seq<byte>)
    requires IsBorder(pat, 1)
    ensures Uniform(pat)
  {
    forall k | 0 <= k < |pat| ensures pat[k] == pat[0] {
      ShiftByOne(pat, 1, k);
    }
  }

  lemma UniformBorders(pat: seq<byte>, q: nat)
    requires Uniform(pat) && 1 <= q < |pat|
    ensures IsBorder(pat, q)
  {
  }

  /** On a bordered pattern with two letters the entry for index 1 jumps one past the least border. */
  lemma EntryPassesLeastBorder(pat: seq<byte>, q: nat)
    requires NulFree(pat) && !Uniform(pat) && LeastBorder(pat, q)
    ensures 2 <= q && GoodSuffixTable(pat)[1] == q + |pat| - 1
  {
    if q == 1 {
      BorderAtOneIsUniform(pat);
    }
    if Recurs(pat, 1, 1) {
      ShiftByOne(pat, 2, q);
      assert pat[q..][0] == pat[..|pat| - q][0];
    }
    assert NextRecurrence(pat, 1, 1) == |pat|;
    NextBorderMeaning(pat, 1);
    var r := NextBorder(pat, 1);
    BorderTestMeaning(pat, q);
    if r < |pat| {
      BorderTestMeaning(pat, r);
    }
  }

  lemma UniformTableSafe(pat: seq<byte>)
    requires NulFree(pat) && Uniform(pat)
    ensures TableSafe(pat)
  {
    forall j, x | 0 <= j < x < |pat| && IsBorder(pat, x)
      ensures GoodSuffixTable(pat)[j] - (|pat| - 1 - j) <= x
    {
      if j == 0 {
        BorderAtZero(pat);
      } else {
        UniformBorders(pat, j);
        BorderTestMeaning(pat, j);
      }
    }
  }

  /** A border exists only if a least one does. */
  lemma {:induction false} LeastBorderExists(pat: seq<byte>, q: nat) returns (least: nat)
    requires IsBorder(pat, q)
    ensures LeastBorder(pat, least)
  {
    if k :| 0 <= k < q && IsBorder(pat, k) {
      least := LeastBorderExists(pat, k);
    } else {
      least := q;
    }
  }

  lemma TableSafeIff(pat: seq<byte>)
    requires NulFree(pat) && pat != []
    ensures TableSafe(pat) <==> Unbordered(pat) || Uniform(pat)
  {
    if Uniform(pat) {
      UniformTableSafe(pat);
    } else if !Unbordered(pat) {
      var q :| IsBorder(pat, q);
      var least := LeastBorderExists(pat, q);
      EntryPassesLeastBorder(pat, least);
    }
  }

  /** The sharp theorem: exact on every text if and only if the pattern is unbordered or one repeated letter. */
  lemma ExactIff(pat: seq<byte>)
    requires NulFree(pat) && pat != []
    ensures Exact(pat) <==> Unbordered(pat) || Uniform(pat)
  {
    ExactIffTableSafe(pat);
    TableSafeIff(pat);
  }
}
