/** NUL-terminated strings and the two library calls the updater makes on them. */
module CString {
  import opened CTypes

  /** A call that looks at up to `n` bytes from `s + i` stays inside `s`. */
  predicate Readable(s: seq<byte>, i: nat, n: nat) {
    i + n <= |s| || (i < |s| && 0 in s[i..])
  }

  lemma ReadableStep(s: seq<byte>, i: nat, n: nat)
    requires Readable(s, i, n) && 0 < n
    ensures i < |s|
    ensures s[i] != 0 ==> Readable(s, i + 1, n - 1)
  {
    if i < |s| && s[i] != 0 && 0 in s[i..] {
      assert s[i..] == [s[i]] + s[i + 1..];
    }
  }

  predicate NulFree(s: seq<byte>) {
    0 !in s
  }

  /** `strncmp(a + i, b + j, n) == 0`: stops at the first difference, at a common NUL, or after `n` bytes. */
  predicate StrncmpEqual(a: seq<byte>, i: nat, b: seq<byte>, j: nat, n: nat)
    requires Readable(a, i, n) && Readable(b, j, n)
    decreases n
  {
    n == 0 ||
    (ReadableStep(a, i, n);
     ReadableStep(b, j, n);
     a[i] == b[j] && (a[i] == 0 || StrncmpEqual(a, i + 1, b, j + 1, n - 1)))
  }

  /** The C string stored in `s`: the bytes before the first NUL, or all of `s`. */
  function Cut(s: seq<byte>): (r: seq<byte>)
    ensures |r| <= |s| && r == s[..|r|]
    ensures NulFree(r)
    ensures |r| < |s| ==> s[|r|] == 0
  {
    if s == [] || s[0] == 0 then [] else [s[0]] + Cut(s[1..])
  }

  function Take(s: seq<byte>, n: nat): seq<byte> {
    if n <= |s| then s[..n] else s
  }

  lemma CutNulFree(s: seq<byte>)
    requires NulFree(s)
    ensures Cut(s) == s
  {
  }

  /** `strncmp` compares the two C strings, each truncated to `n` bytes. */
  lemma {:induction false} StrncmpMeaning(a: seq<byte>, i: nat, b: seq<byte>, j: nat, n: nat)
    requires i <= |a| && j <= |b| && Readable(a, i, n) && Readable(b, j, n)
    ensures StrncmpEqual(a, i, b, j, n) <==> Take(Cut(a[i..]), n) == Take(Cut(b[j..]), n)
    decreases n
  {
    if n == 0 {
      return;
    }
    ReadableStep(a, i, n);
    ReadableStep(b, j, n);
    if a[i] != b[j] || a[i] == 0 {
      FirstByte(a[i..], n);
      FirstByte(b[j..], n);
    } else {
      StrncmpMeaning(a, i + 1, b, j + 1, n - 1);
      TakeCutStep(a, i, n);
      TakeCutStep(b, j, n);
      SameHead(a[i], Take(Cut(a[i + 1..]), n - 1), Take(Cut(b[j + 1..]), n - 1));
    }
  }

  lemma SameHead(x: byte, u: seq<byte>, v: seq<byte>)
    ensures [x] + u == [x] + v <==> u == v
  {
    assert ([x] + u)[1..] == u && ([x] + v)[1..] == v;
  }

  lemma FirstByte(s: seq<byte>, n: nat)
    requires s != [] && 0 < n
    ensures s[0] == 0 ==> Take(Cut(s), n) == []
    ensures s[0] != 0 ==> Take(Cut(s), n) != [] && Take(Cut(s), n)[0] == s[0]
  {
  }

  lemma TakeCutStep(s: seq<byte>, i: nat, n: nat)
    requires i < |s| && s[i] != 0 && 0 < n
    ensures Take(Cut(s[i..]), n) == [s[i]] + Take(Cut(s[i + 1..]), n - 1)
  {
    assert s[i..][1..] == s[i + 1..];
  }
}
