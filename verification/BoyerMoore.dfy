/** The search itself: the tables filled in place and the scan that jumps by them. */
module BoyerMoore {
  import opened CTypes
  import opened ShiftTables

  // ----- the scan as a function of the tables, for statements about every text -----

  /** Letters that agree, counting leftwards from `text[e]` under the last letter, the first `s` known to. */
  function MatchedSuffix(text: seq<byte>, pat: seq<byte>, e: nat, s: nat): (r: nat)
    requires |pat| - 1 <= e < |text| && s <= |pat|
    ensures s <= r <= |pat|
    decreases |pat| - s
  {
    if s < |pat| && text[e - s] == pat[|pat| - 1 - s] then MatchedSuffix(text, pat, e, s + 1) else s
  }

  lemma {:induction false} MatchedSuffixMeaning(text: seq<byte>, pat: seq<byte>, e: nat, s: nat)
    requires |pat| - 1 <= e < |text| && s <= |pat|
    ensures var r := MatchedSuffix(text, pat, e, s);
      && (forall i :: |pat| - r <= i < |pat| - s ==> text[e - (|pat| - 1) + i] == pat[i])
      && (r < |pat| ==> text[e - r] != pat[|pat| - 1 - r])
    decreases |pat| - s
  {
    if s < |pat| && text[e - s] == pat[|pat| - 1 - s] {
      MatchedSuffixMeaning(text, pat, e, s + 1);
    }
  }

  /** Tables the scan can run on: the second always moves the window's right end on, neither by more than the pattern. */
  predicate Tables(pat: seq<byte>, t1: seq<int>, t2: seq<int>) {
    && |t1| == ALPHABET_LEN && |t2| == |pat| > 0
    && (forall c :: 0 <= c < |t1| ==> t1[c] <= |pat|)
    && (forall j :: 0 <= j < |t2| ==> |pat| - 1 - j < t2[j] <= |pat| - 1 - j + |pat|)
  }

  /** The scan of the first `n` bytes of `text` from a window whose right end is at `e`. */
  function Scan(text: seq<byte>, n: nat, pat: seq<byte>, t1: seq<int>, t2: seq<int>, e: nat): (r: Option<nat>)
    requires n <= |text| && Tables(pat, t1, t2) && |pat| - 1 <= e
    decreases n - e
  {
    if e >= n then None
    else
      var s := MatchedSuffix(text, pat, e, 0);
      if s == |pat| then Some(e - (|pat| - 1))
      else Scan(text, n, pat, t1, t2, e - s + Max(t1[text[e - s]], t2[|pat| - 1 - s]))
  }

  /** One step of the scan, from the right end `e` of a window whose letters agree down to `i` and `j`. */
  lemma ScanStep(text: seq<byte>, n: nat, pat: seq<byte>, t1: seq<int>, t2: seq<int>, e: nat, i: int, j: int)
    requires |pat| - 1 <= e < n <= |text| && Tables(pat, t1, t2)
    requires j == |pat| - 1 - MatchedSuffix(text, pat, e, 0) && i == e - (|pat| - 1 - j)
    ensures j < 0 ==> Scan(text, n, pat, t1, t2, e) == Some(i + 1)
    ensures 0 <= j ==>
      var next := i + Max(t1[text[i]], t2[j]);
      e < next <= e + |pat| && Scan(text, n, pat, t1, t2, e) == Scan(text, n, pat, t1, t2, next)
  {
  }

  // ----- the code -----

  method MaxSuffixLen(str: seq<byte>, p: nat) returns (r: cint)
    requires p < |str| <= INT_MAX
    ensures 0 <= r <= p
    ensures str[p + 1 - r..p + 1] == str[|str| - r..]
    ensures r < p ==> str[p - r] != str[|str| - 1 - r]
  {
    var i: uint32 := 0;
    while str[p - i] == str[|str| - 1 - i] && i < p
      invariant i <= p
      invariant str[p + 1 - i..p + 1] == str[|str| - i..]
      decreases p - i
    {
      i := i + 1;
    }
    r := i;
  }

  /** Fills `delta1`; the whole array is the bad-character function of the pattern. */
  method MakeDelta1(delta1: array<cint>, pat: seq<byte>)
    requires delta1.Length == ALPHABET_LEN && 1 <= |pat| <= INT_MAX
    modifies delta1
    ensures delta1[..] == BadCharacterTable(pat)
  {
    var i: uint32 := 0;
    while i < ALPHABET_LEN
      invariant i <= ALPHABET_LEN
      invariant forall c :: 0 <= c < i ==> delta1[c] == |pat|
    {
      delta1[i] := |pat|;
      i := i + 1;
    }
    i := 0;
    while i < |pat| - 1
      invariant i <= |pat| - 1
      invariant forall c :: 0 <= c < ALPHABET_LEN ==> delta1[c] == |pat| - 1 - LastIndex(pat, c, i)
    {
      var idx := pat[i];
      delta1[idx] := |pat| - 1 - i;
      i := i + 1;
    }
  }

  /** The first loop of the good-suffix table: shifts to the next prefix of the pattern. */
  method PrefixPass(delta2: array<cint>, pat: seq<byte>)
    requires delta2.Length == |pat| && 1 <= |pat| <= 0x4000_0000
    modifies delta2
    ensures delta2[..] == Row(pat, |pat|)
  {
    var lastPrefix: uint32 := |pat| - 1;
    var p: cint := |pat| - 1;
    while p >= 0
      invariant -1 <= p < |pat|
      invariant lastPrefix == LastPrefix(pat, p + 1)
      invariant forall j :: p < j < |pat| ==> delta2[j] == GoodSuffixFrom(pat, j, |pat|)
    {
      LastPrefixRange(pat, p);
      if BorderTest(pat, p) {
        lastPrefix := p + 1;
      }
      delta2[p] := lastPrefix + (|pat| - 1 - p);
      p := p - 1;
    }
  }

  /** The second loop: shifts to the next recurrence of the matched suffix; the last write wins. */
  method RecurrencePass(delta2: array<cint>, pat: seq<byte>)
    requires delta2.Length == |pat| && 1 <= |pat| <= 0x4000_0000
    requires delta2[..] == Row(pat, |pat|)
    modifies delta2
    ensures delta2[..] == GoodSuffixTable(pat)
  {
    hide GoodSuffixFrom;
    var p: cint := 0;
    while p < |pat| - 1
      invariant 0 <= p <= |pat| - 1
      invariant delta2[..] == Row(pat, |pat| - p)
    {
      var sufLen := MaxSuffixLen(pat, p);
      SecondLoopStep(pat, p, sufLen);
      if pat[p - sufLen] != pat[|pat| - 1 - sufLen] {
        delta2[|pat| - 1 - sufLen] := |pat| - 1 - p + sufLen;
      }
      p := p + 1;
    }
  }

  /** Fills `delta2`; the whole array is the good-suffix function of the pattern. */
  method MakeDelta2(delta2: array<cint>, pat: seq<byte>)
    requires delta2.Length == |pat| && 1 <= |pat| <= 0x4000_0000
    modifies delta2
    ensures delta2[..] == GoodSuffixTable(pat)
  {
    PrefixPass(delta2, pat);
    RecurrencePass(delta2, pat);
  }

  lemma RepeatAt(pat: seq<byte>, from: nat, d: nat, k: nat)
    requires d <= from <= k < |pat| && pat[from - d..|pat| - d] == pat[from..]
    ensures pat[k - d] == pat[k]
  {
    assert pat[from..][k - from] == pat[from - d..|pat| - d][k - from];
  }

  /** At a fixed distance exactly one entry can be concerned: the one for the full length of the match. */
  lemma RecursAtOneLength(pat: seq<byte>, j: nat, d: nat, sufLen: nat)
    requires j < |pat| && 1 <= d && sufLen + d < |pat|
    requires pat[|pat| - sufLen - d..|pat| - d] == pat[|pat| - sufLen..]
    requires sufLen + d < |pat| - 1 ==> pat[|pat| - 1 - sufLen - d] != pat[|pat| - 1 - sufLen]
    ensures Recurs(pat, j, d) <==> j == |pat| - 1 - sufLen && pat[j - d] != pat[j]
  {
    if Recurs(pat, j, d) && j < |pat| - 1 - sufLen {
      RepeatAt(pat, j + 1, d, |pat| - 1 - sufLen);
    }
  }

  /** One entry, from distances above `d` to `d` and above. */
  lemma EntryStep(pat: seq<byte>, j: nat, d: nat, sufLen: nat)
    requires j < |pat| && 1 <= d && sufLen + d < |pat|
    requires pat[|pat| - sufLen - d..|pat| - d] == pat[|pat| - sufLen..]
    requires sufLen + d < |pat| - 1 ==> pat[|pat| - 1 - sufLen - d] != pat[|pat| - 1 - sufLen]
    ensures Row(pat, d)[j] ==
      if j == |pat| - 1 - sufLen && pat[j - d] != pat[j] then d + sufLen else Row(pat, d + 1)[j]
  {
    RecursAtOneLength(pat, j, d, sufLen);
    RecurrenceStep(pat, j, d);
  }

  lemma SameOrUpdated(a: seq<int>, b: seq<int>, k: nat, updated: bool, v: int)
    requires k < |a| == |b|
    requires forall j :: 0 <= j < |a| ==> a[j] == if updated && j == k then v else b[j]
    ensures a == if updated then b[k := v] else b
  {
  }

  /** What the second loop writes at position `p` adds the recurrences at the distance of `p`, and no others. */
  lemma SecondLoopStep(pat: seq<byte>, p: nat, sufLen: nat)
    requires sufLen <= p < |pat| - 1
    requires pat[p + 1 - sufLen..p + 1] == pat[|pat| - sufLen..]
    requires sufLen < p ==> pat[p - sufLen] != pat[|pat| - 1 - sufLen]
    ensures Row(pat, |pat| - (p + 1)) ==
      if pat[p - sufLen] != pat[|pat| - 1 - sufLen]
      then Row(pat, |pat| - p)[|pat| - 1 - sufLen := |pat| - 1 - p + sufLen] else Row(pat, |pat| - p)
  {
    var k, d := |pat| - 1 - sufLen, |pat| - (p + 1);
    var after, before, updated := Row(pat, d), Row(pat, d + 1), pat[p - sufLen] != pat[k];
    forall j | 0 <= j < |pat| ensures after[j] == if updated && j == k then d + sufLen else before[j] {
      EntryStep(pat, j, d, sufLen);
    }
    SameOrUpdated(after, before, k, updated, d + sufLen);
  }

  /** How many bytes the loop guard `i < (int)str_len` lets the scan see. */
  function VisibleLength(text: seq<byte>): nat {
    Max(0, CastToInt(|text|))
  }

  /** The inner loop: steps `i` and `j` left together while the letters agree. */
  method MatchBackwards(text: seq<byte>, pat: seq<byte>, e: cint) returns (i: cint, j: cint)
    requires 0 <= |pat| - 1 <= e < |text|
    ensures j == |pat| - 1 - MatchedSuffix(text, pat, e, 0) && i == e - MatchedSuffix(text, pat, e, 0)
  {
    i, j := e, |pat| - 1;
    while j >= 0 && text[i] == pat[j]
      invariant -1 <= j < |pat|
      invariant e - i == |pat| - 1 - j
      invariant MatchedSuffix(text, pat, e, 0) == MatchedSuffix(text, pat, e, e - i)
    {
      assert MatchedSuffix(text, pat, e, e - i) == MatchedSuffix(text, pat, e, e - i + 1);
      i := i - 1;
      j := j - 1;
    }
  }

  /** The outer loop: jumps by the larger of the two entries until a match or the end. `i` never overflows. */
  method ScanLoop(text: seq<byte>, pat: seq<byte>, delta1: array<cint>, delta2: array<cint>) returns (r: Option<nat>)
    requires Tables(pat, delta1[..], delta2[..])
    requires |pat| <= INT_MAX && VisibleLength(text) - 1 + |pat| <= INT_MAX
    ensures r == Scan(text, VisibleLength(text), pat, delta1[..], delta2[..], |pat| - 1)
  {
    ghost var n, t1, t2 := VisibleLength(text), delta1[..], delta2[..];
    var i: cint := |pat| - 1;
    while i < CastToInt(|text|)
      invariant |pat| - 1 <= i <= Max(|pat| - 1, n - 1 + |pat|)
      invariant Scan(text, n, pat, t1, t2, i) == Scan(text, n, pat, t1, t2, |pat| - 1)
      decreases CastToInt(|text|) - i
    {
      ghost var e := i;
      var j;
      i, j := MatchBackwards(text, pat, i);
      ScanStep(text, n, pat, t1, t2, e, i, j);
      if j < 0 {
        return Some(i + 1);
      }
      assert delta1[text[i]] == t1[text[i]] && delta2[j] == t2[j];
      i := i + Max(delta1[text[i]], delta2[j]);
    }
    r := None;
  }

  /** The zero-length test after the tables is unreachable: with an empty pattern the tables cannot be built. */
  method BmSearch(text: seq<byte>, pat: seq<byte>) returns (r: Option<nat>)
    requires 1 <= |pat| <= 0x4000_0000
    requires VisibleLength(text) - 1 + |pat| <= INT_MAX
    ensures r == Search(text, VisibleLength(text), pat)
  {
    var delta1 := new cint[ALPHABET_LEN];
    var delta2 := new cint[|pat|];
    MakeDelta1(delta1, pat);
    MakeDelta2(delta2, pat);
    TablesFit(pat);
    r := ScanLoop(text, pat, delta1, delta2);
  }

  lemma TablesFit(pat: seq<byte>)
    requires pat != []
    ensures Tables(pat, BadCharacterTable(pat), GoodSuffixTable(pat))
  {
    forall j | 0 <= j < |pat|
      ensures |pat| - 1 - j < GoodSuffixTable(pat)[j] <= |pat| - 1 - j + |pat|
    {
      GoodSuffixRange(pat, j, 1);
    }
  }

  /** What the search returns on the first `n` bytes of `text`. */
  function Search(text: seq<byte>, n: nat, pat: seq<byte>): Option<nat>
    requires n <= |text| && pat != []
  {
    TablesFit(pat);
    Scan(text, n, pat, BadCharacterTable(pat), GoodSuffixTable(pat), |pat| - 1)
  }
}
