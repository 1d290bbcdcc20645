/** The firmware check: find the version marker in the partition and compare it with the accepted versions. */
module TrustZone {
  import opened CTypes
  import opened CString
  import opened ShiftTables
  import opened BoyerMoore
  import opened SearchExactness

  type errno = e: int | 0 < e witness 1

  /** What opening, measuring and mapping the partition gave. */
  datatype Image = Mapped(data: seq<byte>) | IoError(code: errno)

  datatype ErrorCause = FreadFailure | ArgsParsingFailure

  datatype Value = StringValue(s: string) | ErrorAbort(cause: ErrorCause, code: int)

  const ENOENT := 2
  const TZ_VER_BUF_LEN := 255
  const TZ_VER_STR := "QC_IMAGE_VERSION_STRING=TZ."
  const TZ_VER_STR_LEN := 27

  const TZ_MARKER: seq<byte> := Bytes(TZ_VER_STR)

  /** The bytes of an ASCII literal. */
  function Bytes(s: string): seq<byte> {
    seq(|s|, i requires 0 <= i < |s| => s[i] as int % 0x100)
  }

  // ----- the marker qualifies for exact search -----

  lemma MarkerShape()
    ensures |TZ_MARKER| == TZ_VER_STR_LEN && NulFree(TZ_MARKER)
    ensures forall k :: 0 <= k < |TZ_MARKER| - 1 ==> TZ_MARKER[k] != TZ_MARKER[|TZ_MARKER| - 1]
  {
  }

  /** The full stop occurs only at the end, so no proper suffix of the marker is a prefix of it. */
  lemma MarkerUnbordered()
    ensures Unbordered(TZ_MARKER)
  {
    MarkerShape();
    forall q: nat ensures !IsBorder(TZ_MARKER, q) {
      if IsBorder(TZ_MARKER, q) {
        BorderRepeatsLast(TZ_MARKER, q);
      }
    }
  }

  lemma BorderRepeatsLast(pat: seq<byte>, q: nat)
    requires IsBorder(pat, q)
    ensures pat[|pat| - 1] == pat[|pat| - q - 1]
  {
    var n := |pat| - q;
    assert pat[q..][n - 1] == pat[..n][n - 1];
  }

  lemma MarkerExact(text: seq<byte>, n: nat)
    requires n <= |text|
    ensures Search(text, n, TZ_MARKER) == Naive(text, n, TZ_MARKER, 0)
    ensures IsLeftmost(text, n, TZ_MARKER, Search(text, n, TZ_MARKER))
  {
    MarkerShape();
    MarkerUnbordered();
    ExactIff(TZ_MARKER);
    NaiveIsLeftmost(text, n, TZ_MARKER, 0);
  }

  // ----- reading the version -----

  /** `snprintf(str, len, "%s", data + from)`: as much of the C string as leaves room for the NUL. */
  method Snprintf(str: array<byte>, data: seq<byte>, from: nat)
    requires 0 < str.Length && from < |data| && 0 in data[from..]
    modifies str
    ensures Cut(str[..]) == Take(Cut(data[from..]), str.Length - 1)
    ensures 0 in str[..]
  {
    var i := 0;
    CutReaches(data[from..]);
    while i < str.Length - 1 && data[from + i] != 0
      invariant 0 <= i <= |Cut(data[from..])|
      invariant i <= str.Length - 1
      invariant str[..i] == Cut(data[from..])[..i]
    {
      assert data[from..][i] == data[from + i];
      CutContinues(data[from..], i);
      str[i] := data[from + i];
      i := i + 1;
    }
    assert data[from..][i] == data[from + i];
    str[i] := 0;
    CutAt(str[..], i);
    assert str[..][i] == 0;
  }

  lemma CutReaches(s: seq<byte>)
    requires 0 in s
    ensures |Cut(s)| < |s|
  {
  }

  lemma CutContinues(s: seq<byte>, i: nat)
    requires i <= |Cut(s)| < |s| && s[i] != 0
    ensures i < |Cut(s)| && Cut(s)[i] == s[i]
  {
  }

  lemma {:induction false} CutAt(s: seq<byte>, i: nat)
    requires i < |s| && s[i] == 0 && NulFree(s[..i])
    ensures Cut(s) == s[..i]
  {
    if 0 < i {
      assert s[0] in s[..i];
      assert s[1..][..i - 1] == s[..i][1..];
      CutAt(s[1..], i - 1);
    }
  }

  /** After an occurrence of `lookup` at `k` a string ends inside the image; the C code reads on otherwise. */
  predicate EndsWithin(data: seq<byte>, lookup: seq<byte>, k: nat) {
    k + |lookup| < |data| && 0 in data[k + |lookup|..]
  }

  /** That holds wherever the search finds `lookup`. */
  predicate FoundTerminated(image: Image, lookup: seq<byte>)
    requires lookup != []
  {
    image.Mapped? ==>
      var r := Search(image.data, VisibleLength(image.data), lookup);
      r.Some? ==> EndsWithin(image.data, lookup, r.value)
  }

  /** The version after the first marker, if there is one, ends inside the image. */
  ghost predicate Terminated(image: Image) {
    image.Mapped? ==> forall k: nat ::
      IsLeftmost(image.data, VisibleLength(image.data), TZ_MARKER, Some(k)) ==> EndsWithin(image.data, TZ_MARKER, k)
  }

  lemma MarkerTerminated(image: Image)
    requires Terminated(image)
    ensures TZ_MARKER != [] && FoundTerminated(image, TZ_MARKER)
  {
    MarkerShape();
    if image.Mapped? {
      MarkerExact(image.data, VisibleLength(image.data));
    }
  }

  /** The image is small enough for the search's `int` arithmetic. */
  predicate Searchable(image: Image, lookup: seq<byte>) {
    image.Mapped? ==> VisibleLength(image.data) - 1 + |lookup| <= INT_MAX
  }

  method GetInfo(str: array<byte>, lookup: seq<byte>, image: Image) returns (ret: int)
    requires 0 < str.Length && 1 <= |lookup| <= 0x4000_0000
    requires Searchable(image, lookup) && FoundTerminated(image, lookup)
    modifies str
    ensures image.IoError? ==> ret == image.code
    ensures image.Mapped? ==>
      var r := Search(image.data, VisibleLength(image.data), lookup);
      && (r.None? ==> ret == -ENOENT)
      && (r.Some? ==> ret == 0 && 0 in str[..])
      && (r.Some? ==> Cut(str[..]) == Take(Cut(image.data[r.value + |lookup|..]), str.Length - 1))
  {
    if image.IoError? {
      return image.code;
    }
    var offset := BmSearch(image.data, lookup);
    if offset.Some? {
      Snprintf(str, image.data, offset.value + |lookup|);
      ret := 0;
    } else {
      ret := -ENOENT;
    }
  }

  // ----- the verdict -----

  /** A NUL-free argument is accepted as a prefix of the version; one with a NUL only if it is the version. */
  predicate Accepts(arg: seq<byte>, version: seq<byte>) {
    if NulFree(arg) then arg <= version else Cut(arg) == version
  }

  /** The comparison of `c_str()` over `length()` bytes accepts exactly those arguments. */
  lemma ComparisonAccepts(arg: seq<byte>, buf: seq<byte>)
    requires 0 in buf
    ensures Readable(arg + [0], 0, |arg|) && Readable(buf, 0, |arg|)
    ensures StrncmpEqual(arg + [0], 0, buf, 0, |arg|) <==> Accepts(arg, Cut(buf))
  {
    assert buf[0..] == buf && (arg + [0])[0..] == arg + [0];
    StrncmpMeaning(arg + [0], 0, buf, 0, |arg|);
    var i := |Cut(arg)|;
    CutAt(arg + [0], i);
    assert Cut(arg + [0]) == Cut(arg);
    if NulFree(arg) {
      CutNulFree(arg);
    } else {
      CutReaches(arg);
    }
  }

  /** The bytes after the marker's first occurrence, up to a NUL and no more than the buffer holds. */
  function Version(data: seq<byte>, k: nat): seq<byte>
    requires k + |TZ_MARKER| <= |data|
  {
    Take(Cut(data[k + |TZ_MARKER|..]), TZ_VER_BUF_LEN - 1)
  }

  predicate AnyAccepted(args: seq<seq<byte>>, version: seq<byte>) {
    exists i :: 0 <= i < |args| && Accepts(args[i], version)
  }

  /** The loop over the arguments, stopping at the first that matches. */
  method MatchesAny(args: seq<seq<byte>>, currentTzVersion: array<byte>) returns (ret: int)
    requires 0 in currentTzVersion[..]
    ensures ret == if AnyAccepted(args, Cut(currentTzVersion[..])) then 1 else 0
  {
    ghost var buf := currentTzVersion[..];
    ret := 0;
    for i := 0 to |args|
      invariant ret == 0 && currentTzVersion[..] == buf
      invariant forall k :: 0 <= k < i ==> !Accepts(args[k], Cut(buf))
    {
      ComparisonAccepts(args[i], buf);
      if StrncmpEqual(args[i] + [0], 0, currentTzVersion[..], 0, |args[i]|) {
        ret := 1;
        break;
      }
    }
  }

  lemma LeftmostUnique(text: seq<byte>, n: nat, pat: seq<byte>, r1: Option<nat>, r2: Option<nat>)
    requires IsLeftmost(text, n, pat, r1) && IsLeftmost(text, n, pat, r2)
    ensures r1 == r2
  {
  }

  /** The verdict, given where the marker was found. `args` is None when the arguments cannot be evaluated. */
  function Verdict(image: Image, found: Option<nat>, args: Option<seq<seq<byte>>>): Value
    requires image.Mapped? && found.Some? ==> found.value + |TZ_MARKER| <= |image.data|
  {
    if image.IoError? then ErrorAbort(FreadFailure, image.code)
    else if found.None? then ErrorAbort(FreadFailure, -ENOENT)
    else if args.None? then ErrorAbort(ArgsParsingFailure, 0)
    else StringValue(if AnyAccepted(args.value, Version(image.data, found.value)) then "1" else "0")
  }

  /** Where the search finds the marker in the image, if it can be read. */
  function Found(image: Image): Option<nat> {
    MarkerShape();
    if image.Mapped? then Search(image.data, VisibleLength(image.data), TZ_MARKER) else None
  }

  /** No other place is the leftmost occurrence. */
  lemma FoundIsLeftmost(image: Image, found: Option<nat>)
    requires image.Mapped? && IsLeftmost(image.data, VisibleLength(image.data), TZ_MARKER, found)
    ensures found == Found(image)
  {
    MarkerShape();
    MarkerExact(image.data, VisibleLength(image.data));
    LeftmostUnique(image.data, VisibleLength(image.data), TZ_MARKER, found, Found(image));
  }

  lemma FoundFits(image: Image)
    ensures image.Mapped? && Found(image).Some? ==> Found(image).value + |TZ_MARKER| <= |image.data|
  {
    MarkerShape();
    if image.Mapped? {
      SearchSound(image.data, VisibleLength(image.data), TZ_MARKER);
    }
  }

  lemma VerdictOfLeftmost(image: Image, args: Option<seq<seq<byte>>>)
    ensures image.Mapped? && Found(image).Some? ==> Found(image).value + |TZ_MARKER| <= |image.data|
    ensures forall found :: image.Mapped? && IsLeftmost(image.data, VisibleLength(image.data), TZ_MARKER, found) ==>
      Verdict(image, Found(image), args) == Verdict(image, found, args)
  {
    FoundFits(image);
    forall found | image.Mapped? && IsLeftmost(image.data, VisibleLength(image.data), TZ_MARKER, found)
      ensures Verdict(image, Found(image), args) == Verdict(image, found, args)
    {
      FoundIsLeftmost(image, found);
    }
  }

  /** What the marker's string is copied to, and whether that worked. */
  method ReadVersion(image: Image) returns (buf: array<byte>, ret: int)
    requires Searchable(image, TZ_MARKER) && Terminated(image)
    ensures image.Mapped? && Found(image).Some? ==> Found(image).value + |TZ_MARKER| <= |image.data|
    ensures image.IoError? ==> ret == image.code
    ensures image.Mapped? && Found(image).None? ==> ret == -ENOENT
    ensures image.Mapped? && Found(image).Some? ==>
      ret == 0 && 0 in buf[..] && Cut(buf[..]) == Version(image.data, Found(image).value)
  {
    MarkerShape();
    MarkerTerminated(image);
    FoundFits(image);
    buf := new byte[TZ_VER_BUF_LEN];
    ret := GetInfo(buf, TZ_MARKER, image);
  }

  /**
   * End to end. An image that cannot be read, a marker that does not occur and arguments that cannot be evaluated each
   * abort in their own way. Otherwise the verdict is "1" exactly if some argument is accepted for the bytes after the
   * leftmost occurrence of the marker, cut at the first NUL and at 254 bytes.
   */
  method VerifyTrustZone(image: Image, args: Option<seq<seq<byte>>>) returns (v: Value)
    requires Searchable(image, TZ_MARKER) && Terminated(image)
    ensures image.IoError? ==> v == ErrorAbort(FreadFailure, image.code)
    ensures image.Mapped? && IsLeftmost(image.data, VisibleLength(image.data), TZ_MARKER, None) ==>
      v == ErrorAbort(FreadFailure, -2)
    ensures forall k: nat ::
      image.Mapped? && IsLeftmost(image.data, VisibleLength(image.data), TZ_MARKER, Some(k)) && args.None? ==>
        v == ErrorAbort(ArgsParsingFailure, 0)
    ensures forall k: nat ::
      image.Mapped? && IsLeftmost(image.data, VisibleLength(image.data), TZ_MARKER, Some(k)) && args.Some? ==>
        && k + |TZ_MARKER| <= |image.data|
        && v == StringValue(
          if exists i :: 0 <= i < |args.value| && Accepts(args.value[i], Take(Cut(image.data[k + |TZ_MARKER|..]), 254))
          then "1" else "0")
  {
    hide Accepts, Cut, Take, Search, VisibleLength, Found, Terminated, Searchable;
    VerdictOfLeftmost(image, args);
    var currentTzVersion, ret := ReadVersion(image);
    if ret != 0 {
      v := ErrorAbort(FreadFailure, ret);
    } else if args.None? {
      v := ErrorAbort(ArgsParsingFailure, 0);
    } else {
      ret := MatchesAny(args.value, currentTzVersion);
      v := StringValue(if ret != 0 then "1" else "0");
    }
    assert v == Verdict(image, Found(image), args);
  }
}
