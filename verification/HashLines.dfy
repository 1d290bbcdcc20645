/** The hash annotation of the file list: `update` adds a hash to the lines of hashed sections, `cleanup` removes all. */
module HashLines {
  import opened CTypes

  // ----- one line -----

  /** `s.split(sep)[0]` */
  function Before(s: string, sep: char): (r: string)
    ensures r <= s && sep !in r
    ensures r == s || (|r| < |s| && s[|r|] == sep)
  {
    if s == "" || s[0] == sep then "" else [s[0]] + Before(s[1..], sep)
  }

  /** `s.split(sep)[-1]` */
  function AfterLast(s: string, sep: char): string {
    if sep !in s then s else AfterLast(s[1..], sep)
  }

  predicate IsComment(line: string) {
    line != "" && line[0] == '#'
  }

  /** `' - from' in line` */
  predicate Mentions(line: string, phrase: string) {
    phrase <= line || (line != "" && Mentions(line[1..], phrase))
  }

  predicate OpensHashedSection(line: string) {
    Mentions(line, " - from")
  }

  /** The path named by a line: the destination half, without alias options and without the leading dash. */
  function PathField(line: string): string {
    AfterLast(Before(Before(line, '|'), ';'), ':')
  }

  function FilePath(line: string): string
    requires PathField(line) != ""
  {
    var path := PathField(line);
    if path[0] == '-' then path[1..] else path
  }

  /** The line without its hash. */
  function Bare(line: string): string {
    Before(line, '|')
  }

  // ----- the whole list -----

  function Cleaned(line: string): string {
    if line == "" || line[0] == '#' || '|' !in line then line else Before(line, '|')
  }

  function Cleanup(lines: seq<string>): (r: seq<string>)
    ensures |r| == |lines|
  {
    seq(|lines|, i requires 0 <= i < |lines| => Cleaned(lines[i]))
  }

  /** The local variable `needSHA1`, which only a comment binds. */
  datatype Flag = Unbound | Bound(need: bool)

  /** `needSHA1` before line `n`: set by the last comment, unbound before the first. */
  function Need(lines: seq<string>, n: nat): Flag
    requires n <= |lines|
  {
    if n == 0 then Unbound
    else if IsComment(lines[n - 1]) then Bound(OpensHashedSection(lines[n - 1]))
    else Need(lines, n - 1)
  }

  /** Lines that `update` annotates. */
  predicate Hashed(lines: seq<string>, i: nat)
    requires i < |lines|
  {
    lines[i] != "" && !IsComment(lines[i]) && Need(lines, i) == Bound(true)
  }

  datatype Error = UnboundNeed | NoPath | Unreadable

  /** The hash of a readable file; None where opening it fails. */
  type Hashes = string -> Option<string>

  /** What goes wrong at line `i`, if anything. */
  function Fault(lines: seq<string>, hash: Hashes, i: nat): Option<Error>
    requires i < |lines|
  {
    if lines[i] == "" || IsComment(lines[i]) then None
    else if Need(lines, i) == Unbound then Some(UnboundNeed)
    else if Need(lines, i) == Bound(false) then None
    else if PathField(lines[i]) == "" then Some(NoPath)
    else if hash(FilePath(lines[i])) == None then Some(Unreadable)
    else None
  }

  /** Line `i` after `update` has passed it. */
  function Annotated(lines: seq<string>, hash: Hashes, i: nat): string
    requires i < |lines| && Fault(lines, hash, i) == None
  {
    if Hashed(lines, i) then Bare(lines[i]) + "|" + hash(FilePath(lines[i])).value else lines[i]
  }

  /** No line makes `update` raise an exception. */
  ghost predicate Updatable(lines: seq<string>, hash: Hashes) {
    forall i :: 0 <= i < |lines| ==> Fault(lines, hash, i) == None
  }

  function Update(lines: seq<string>, hash: Hashes): (r: seq<string>)
    requires Updatable(lines, hash)
    ensures |r| == |lines|
  {
    seq(|lines|, i requires 0 <= i < |lines| => Annotated(lines, hash, i))
  }

  // ----- the script -----

  class FileList {
    var lines: seq<string>

    constructor (lines: seq<string>)
      ensures this.lines == lines
    {
      this.lines := lines;
    }

    method CleanupLines()
      modifies this
      ensures lines == Cleanup(old(lines))
    {
      for index := 0 to |lines|
        invariant |lines| == |old(lines)|
        invariant forall i :: 0 <= i < index ==> lines[i] == Cleaned(old(lines)[i])
        invariant forall i :: index <= i < |lines| ==> lines[i] == old(lines)[i]
      {
        var line := lines[index];
        if line != "" && line[0] != '#' && '|' in line {
          lines := lines[index := Before(line, '|')];
        }
      }
    }

    /** On an exception the lines before the faulty one have been annotated and the rest not; the file is not written. */
    method UpdateLines(hash: Hashes) returns (failed: Option<Error>, at: nat)
      modifies this
      ensures failed == None <==> Updatable(old(lines), hash)
      ensures failed == None ==> lines == Update(old(lines), hash)
      ensures failed.Some? ==> at < |old(lines)| == |lines| && Fault(old(lines), hash, at) == failed
      ensures failed.Some? ==> forall i :: 0 <= i < at ==>
        Fault(old(lines), hash, i) == None && lines[i] == Annotated(old(lines), hash, i)
      ensures failed.Some? ==> forall i :: at <= i < |lines| ==> lines[i] == old(lines)[i]
    {
      var needSHA1 := Unbound;
      for index := 0 to |lines|
        invariant |lines| == |old(lines)|
        invariant needSHA1 == Need(old(lines), index)
        invariant forall i :: 0 <= i < index ==> Fault(old(lines), hash, i) == None
        invariant forall i :: 0 <= i < index ==> lines[i] == Annotated(old(lines), hash, i)
        invariant forall i :: index <= i < |lines| ==> lines[i] == old(lines)[i]
      {
        var line := lines[index];
        if line == "" {
          continue;
        }
        if line[0] == '#' {
          needSHA1 := Bound(OpensHashedSection(line));
          continue;
        }
        if needSHA1 == Unbound {
          assert Fault(old(lines), hash, index) == Some(UnboundNeed);
          return Some(UnboundNeed), index;
        }
        if needSHA1.need {
          var bare := Before(line, '|');
          var filePath := AfterLast(Before(bare, ';'), ':');
          if filePath == "" {
            assert Fault(old(lines), hash, index) == Some(NoPath);
            return Some(NoPath), index;
          }
          if filePath[0] == '-' {
            filePath := filePath[1..];
          }
          var digest := hash(filePath);
          if digest == None {
            assert Fault(old(lines), hash, index) == Some(Unreadable);
            return Some(Unreadable), index;
          }
          lines := lines[index := bare + "|" + digest.value];
        }
      }
      return None, |lines|;
    }
  }

  // ----- what a pass leaves alone -----

  lemma {:induction false} BeforeJoined(a: string, b: string, sep: char)
    requires sep !in a
    ensures Before(a + [sep] + b, sep) == a
  {
    if a != "" {
      BeforeJoined(a[1..], b, sep);
      assert (a + [sep] + b)[1..] == a[1..] + [sep] + b;
    }
  }

  lemma {:induction false} BeforeWithout(a: string, sep: char)
    requires sep !in a
    ensures Before(a, sep) == a
  {
    if a != "" {
      BeforeWithout(a[1..], sep);
    }
  }

  lemma BeforeTwice(a: string, sep: char)
    ensures Before(Before(a, sep), sep) == Before(a, sep)
  {
    BeforeWithout(Before(a, sep), sep);
  }

  // ----- when an update succeeds -----

  lemma {:induction false} NeedMeaning(lines: seq<string>, n: nat)
    requires n <= |lines|
    ensures Need(lines, n) == Unbound <==> forall j :: 0 <= j < n ==> !IsComment(lines[j])
  {
    if n != 0 {
      NeedMeaning(lines, n - 1);
    }
  }

  /** Line `i` is a comment or comes after one. */
  predicate Sectioned(lines: seq<string>, i: nat)
    requires i < |lines|
  {
    exists j :: 0 <= j <= i && IsComment(lines[j])
  }

  lemma SectionedIff(lines: seq<string>, i: nat)
    requires i < |lines| && !IsComment(lines[i])
    ensures Sectioned(lines, i) <==> Need(lines, i) != Unbound
  {
    NeedMeaning(lines, i);
    if Sectioned(lines, i) {
      var j :| 0 <= j <= i && IsComment(lines[j]);
      assert j < i;
    }
  }

  /** What line `i` needs for an update to pass it. */
  predicate LineFit(lines: seq<string>, hash: Hashes, i: nat)
    requires i < |lines|
  {
    && (lines[i] != "" ==> Sectioned(lines, i))
    && (Hashed(lines, i) ==> PathField(lines[i]) != "" && hash(FilePath(lines[i])).Some?)
  }

  lemma NoFaultIff(lines: seq<string>, hash: Hashes, i: nat)
    requires i < |lines|
    ensures Fault(lines, hash, i) == None <==> LineFit(lines, hash, i)
  {
    if IsComment(lines[i]) {
      assert Sectioned(lines, i);
    } else {
      SectionedIff(lines, i);
    }
  }

  /** No exception exactly when a comment precedes every line to keep, and every hashed line names a readable file. */
  lemma UpdatableIff(lines: seq<string>, hash: Hashes)
    ensures Updatable(lines, hash) <==> forall i :: 0 <= i < |lines| ==> LineFit(lines, hash, i)
  {
    forall i | 0 <= i < |lines| ensures Fault(lines, hash, i) == None <==> LineFit(lines, hash, i) {
      NoFaultIff(lines, hash, i);
    }
  }

  /** A file whose first non-empty line is no comment: the exception is raised there, and nowhere before. */
  lemma FirstLineFails(lines: seq<string>, hash: Hashes, i: nat)
    requires i < |lines| && lines[i] != "" && !IsComment(lines[i]) && forall j :: 0 <= j < i ==> lines[j] == ""
    ensures Fault(lines, hash, i) == Some(UnboundNeed) && !Updatable(lines, hash)
    ensures forall j :: 0 <= j < i ==> Fault(lines, hash, j) == None
  {
    NeedMeaning(lines, i);
  }

  // ----- the two passes together -----

  lemma BareOfPath(line: string)
    ensures Bare(line) == "" ==> PathField(line) == ""
  {
  }

  /** An annotated line keeps its first letter and its bare text. */
  lemma AnnotatedLine(line: string, digest: string)
    requires line != "" && !IsComment(line) && PathField(line) != ""
    ensures var a := Bare(line) + "|" + digest;
      a != "" && a[0] == line[0] && Bare(a) == Bare(line) && PathField(a) == PathField(line) && '|' in a
  {
    var a := Bare(line) + "|" + digest;
    BeforeJoined(Bare(line), digest, '|');
    assert Bare(line) + "|" + digest == Bare(line) + ['|'] + digest;
    assert a[|Bare(line)|] == '|';
    BareOfPath(line);
  }

  lemma UpdateLine(lines: seq<string>, hash: Hashes, i: nat)
    requires Updatable(lines, hash) && i < |lines|
    ensures Update(lines, hash)[i] == Annotated(lines, hash, i)
    ensures Hashed(lines, i) ==> Bare(Update(lines, hash)[i]) == Bare(lines[i]) && PathField(Update(lines, hash)[i]) == PathField(lines[i])
    ensures !Hashed(lines, i) ==> Update(lines, hash)[i] == lines[i]
    ensures IsComment(Update(lines, hash)[i]) <==> IsComment(lines[i])
    ensures Update(lines, hash)[i] == "" <==> lines[i] == ""
  {
    assert Fault(lines, hash, i) == None;
    if Hashed(lines, i) {
      AnnotatedLine(lines[i], hash(FilePath(lines[i])).value);
    }
  }

  /** The sections are those of the same comments. */
  lemma {:induction false} NeedKept(lines: seq<string>, others: seq<string>, n: nat)
    requires n <= |lines| == |others|
    requires forall i :: 0 <= i < n ==> (IsComment(others[i]) <==> IsComment(lines[i]))
    requires forall i :: 0 <= i < n && IsComment(lines[i]) ==> others[i] == lines[i]
    ensures Need(others, n) == Need(lines, n)
  {
    if n != 0 {
      NeedKept(lines, others, n - 1);
    }
  }

  lemma UpdateSections(lines: seq<string>, hash: Hashes, n: nat)
    requires Updatable(lines, hash) && n <= |lines|
    ensures Need(Update(lines, hash), n) == Need(lines, n)
  {
    forall i | 0 <= i < n
      ensures (IsComment(Update(lines, hash)[i]) <==> IsComment(lines[i])) &&
              (IsComment(lines[i]) ==> Update(lines, hash)[i] == lines[i])
    {
      UpdateLine(lines, hash, i);
    }
    NeedKept(lines, Update(lines, hash), n);
  }

  lemma CleanedLine(line: string)
    ensures IsComment(Cleaned(line)) <==> IsComment(line)
    ensures IsComment(line) ==> Cleaned(line) == line
    ensures !IsComment(line) ==> Cleaned(line) == Bare(line)
    ensures Bare(Cleaned(line)) == Bare(line) || IsComment(line)
  {
    BeforeTwice(line, '|');
    if '|' !in line {
      BeforeWithout(line, '|');
    }
  }

  lemma CleanupSections(lines: seq<string>, n: nat)
    requires n <= |lines|
    ensures Need(Cleanup(lines), n) == Need(lines, n)
  {
    forall i | 0 <= i < n
      ensures (IsComment(Cleanup(lines)[i]) <==> IsComment(lines[i])) && (IsComment(lines[i]) ==> Cleanup(lines)[i] == lines[i])
    {
      CleanedLine(lines[i]);
    }
    NeedKept(lines, Cleanup(lines), n);
  }

  /** Cleaning up undoes an update as far as a cleanup can tell. */
  lemma CleanupUndoesUpdate(lines: seq<string>, hash: Hashes)
    requires Updatable(lines, hash)
    ensures Cleanup(Update(lines, hash)) == Cleanup(lines)
  {
    forall i | 0 <= i < |lines| ensures Cleaned(Update(lines, hash)[i]) == Cleaned(lines[i]) {
      UpdateLine(lines, hash, i);
      CleanedLine(Update(lines, hash)[i]);
      CleanedLine(lines[i]);
    }
  }

  lemma CleanupIdempotent(lines: seq<string>)
    ensures Cleanup(Cleanup(lines)) == Cleanup(lines)
  {
    forall i | 0 <= i < |lines| ensures Cleaned(Cleaned(lines[i])) == Cleaned(lines[i]) {
      CleanedLine(lines[i]);
      CleanedLine(Cleaned(lines[i]));
    }
  }

  /** Updating again, with the same files, changes nothing and does not fail. */
  lemma UpdateIdempotent(lines: seq<string>, hash: Hashes)
    requires Updatable(lines, hash)
    ensures Updatable(Update(lines, hash), hash)
    ensures Update(Update(lines, hash), hash) == Update(lines, hash)
  {
    var once := Update(lines, hash);
    forall i | 0 <= i < |once|
      ensures Fault(once, hash, i) == None && Annotated(once, hash, i) == once[i]
    {
      assert Fault(lines, hash, i) == None;
      UpdateLine(lines, hash, i);
      UpdateSections(lines, hash, i);
    }
  }

  /** After a cleanup an update still succeeds. */
  lemma CleanedUpdatable(lines: seq<string>, hash: Hashes)
    requires Updatable(lines, hash)
    ensures Updatable(Cleanup(lines), hash)
    ensures forall i :: 0 <= i < |lines| && Hashed(lines, i) ==> Update(Cleanup(lines), hash)[i] == Update(lines, hash)[i]
    ensures forall i :: 0 <= i < |lines| && !Hashed(lines, i) ==> Update(Cleanup(lines), hash)[i] == Cleaned(lines[i])
  {
    var clean := Cleanup(lines);
    forall i | 0 <= i < |clean|
      ensures Fault(clean, hash, i) == None
      ensures Hashed(lines, i) ==> Annotated(clean, hash, i) == Annotated(lines, hash, i)
      ensures !Hashed(lines, i) ==> Annotated(clean, hash, i) == Cleaned(lines[i])
    {
      assert Fault(lines, hash, i) == None;
      CleanedLine(lines[i]);
      CleanupSections(lines, i);
      BareOfPath(lines[i]);
    }
  }

  /** Cleaning up first makes no difference exactly when no line outside the hashed sections carries a hash. */
  lemma CleanupBeforeUpdateIff(lines: seq<string>, hash: Hashes)
    requires Updatable(lines, hash)
    ensures Updatable(Cleanup(lines), hash)
    ensures Update(Cleanup(lines), hash) == Update(lines, hash) <==>
      forall i :: 0 <= i < |lines| && !Hashed(lines, i) && !IsComment(lines[i]) ==> '|' !in lines[i]
  {
    CleanedUpdatable(lines, hash);
    var first, straight := Update(Cleanup(lines), hash), Update(lines, hash);
    forall i | 0 <= i < |lines|
      ensures first[i] == straight[i] <==> (!Hashed(lines, i) && !IsComment(lines[i]) ==> '|' !in lines[i])
    {
      UpdateLine(lines, hash, i);
      CleanedLine(lines[i]);
      if '|' !in lines[i] {
        BeforeWithout(lines[i], '|');
      }
    }
    assert first == straight <==> forall i :: 0 <= i < |lines| ==> first[i] == straight[i];
  }

  /** Comments and lines outside the hashed sections survive an update; hashed lines end in the hash of their file. */
  lemma UpdateKeeps(lines: seq<string>, hash: Hashes, i: nat)
    requires Updatable(lines, hash) && i < |lines|
    ensures IsComment(lines[i]) || lines[i] == "" || Need(lines, i) != Bound(true) ==> Update(lines, hash)[i] == lines[i]
    ensures !(IsComment(lines[i]) || lines[i] == "" || Need(lines, i) != Bound(true)) ==>
      PathField(lines[i]) != "" && hash(FilePath(lines[i])).Some? &&
      Update(lines, hash)[i] == Bare(lines[i]) + "|" + hash(FilePath(lines[i])).value
  {
    assert Fault(lines, hash, i) == None;
  }

  // ----- what the passes do, said without their functions -----

  /** The part of `s` before the first `sep`. */
  predicate FirstField(s: string, sep: char, r: string) {
    r <= s && sep !in r && (r == s || s[|r|] == sep)
  }

  /** The part of `s` after the last `sep`. */
  predicate LastField(s: string, sep: char, r: string) {
    |r| <= |s| && r == s[|s| - |r|..] && sep !in r && (r == s || s[|s| - |r| - 1] == sep)
  }

  /** `phrase` occurs somewhere in `line`. */
  predicate OccursIn(phrase: string, line: string) {
    exists k :: 0 <= k <= |line| && phrase <= line[k..]
  }

  lemma FirstFieldUnique(s: string, sep: char, q: string, r: string)
    requires FirstField(s, sep, q) && FirstField(s, sep, r)
    ensures |r| <= |q|
  {
  }

  lemma BeforeMeaning(s: string, sep: char, r: string)
    ensures Before(s, sep) == r <==> FirstField(s, sep, r)
  {
    if FirstField(s, sep, r) {
      FirstFieldUnique(s, sep, r, Before(s, sep));
      FirstFieldUnique(s, sep, Before(s, sep), r);
    }
  }

  lemma LastFieldOfTail(s: string, sep: char, r: string)
    requires s != "" && sep in s && LastField(s[1..], sep, r)
    ensures LastField(s, sep, r)
  {
    var tail, n := s[1..], |s| - |r|;
    assert tail[n - 1..] == s[n..];
    if r == tail {
      assert s == [s[0]] + tail;
    } else {
      assert tail[n - 2] == s[n - 1];
    }
  }

  lemma {:induction false} AfterLastIsField(s: string, sep: char)
    ensures LastField(s, sep, AfterLast(s, sep))
  {
    if sep in s {
      AfterLastIsField(s[1..], sep);
      LastFieldOfTail(s, sep, AfterLast(s, sep));
    }
  }

  lemma LastFieldUnique(s: string, sep: char, q: string, r: string)
    requires LastField(s, sep, q) && LastField(s, sep, r)
    ensures |r| <= |q|
  {
  }

  lemma AfterLastMeaning(s: string, sep: char, r: string)
    ensures AfterLast(s, sep) == r <==> LastField(s, sep, r)
  {
    AfterLastIsField(s, sep);
    if LastField(s, sep, r) {
      LastFieldUnique(s, sep, r, AfterLast(s, sep));
      LastFieldUnique(s, sep, AfterLast(s, sep), r);
    }
  }

  lemma {:induction false} MentionsMeaning(line: string, phrase: string)
    ensures Mentions(line, phrase) <==> OccursIn(phrase, line)
  {
    if phrase <= line {
      assert line[0..] == line;
    } else if line == "" {
      assert line[0..] == line;
    } else {
      MentionsMeaning(line[1..], phrase);
      if k :| 0 <= k <= |line[1..]| && phrase <= line[1..][k..] {
        assert line[1..][k..] == line[k + 1..];
      }
      if k :| 0 <= k <= |line| && phrase <= line[k..] {
        assert k != 0 by {
          assert line[0..] == line;
        }
        assert line[1..][k - 1..] == line[k..];
      }
    }
  }

  /** Line `j` is the last comment before line `i`. */
  predicate Heads(lines: seq<string>, j: nat, i: nat) {
    j < i < |lines| && IsComment(lines[j]) && forall k :: j < k < i ==> !IsComment(lines[k])
  }

  lemma {:induction false} NeedOfHead(lines: seq<string>, j: nat, i: nat)
    requires Heads(lines, j, i)
    ensures Need(lines, i) == Bound(OccursIn(" - from", lines[j]))
    decreases i
  {
    if j == i - 1 {
      MentionsMeaning(lines[j], " - from");
    } else {
      NeedOfHead(lines, j, i - 1);
    }
  }

  /** `bare` is the line without its hash, `field` that without options, `dest` the destination half of that. */
  predicate Splits(line: string, bare: string, field: string, dest: string) {
    FirstField(line, '|', bare) && FirstField(bare, ';', field) && LastField(field, ':', dest)
  }

  lemma PathMeaning(line: string, bare: string, field: string, dest: string)
    requires Splits(line, bare, field, dest)
    ensures Bare(line) == bare && PathField(line) == dest
  {
    BeforeMeaning(line, '|', bare);
    BeforeMeaning(bare, ';', field);
    AfterLastMeaning(field, ':', dest);
  }

  /**
   * What an update does to a line, by the last comment before it: in a section whose comment mentions " - from" a
   * non-empty line keeps what comes before its first `|` and gets the hash of the file it names, less one leading dash;
   * no other line changes.
   */
  lemma UpdateMeaning(lines: seq<string>, hash: Hashes, j: nat, i: nat, bare: string, field: string, dest: string)
    requires Updatable(lines, hash) && Heads(lines, j, i)
    ensures lines[i] == "" || lines[i][0] == '#' || !OccursIn(" - from", lines[j]) ==> Update(lines, hash)[i] == lines[i]
    ensures lines[i] != "" && lines[i][0] != '#' && OccursIn(" - from", lines[j]) && Splits(lines[i], bare, field, dest) ==>
      && dest != ""
      && var digest := hash(if dest[0] == '-' then dest[1..] else dest);
         digest.Some? && Update(lines, hash)[i] == bare + "|" + digest.value
  {
    UpdateKeeps(lines, hash, i);
    NeedOfHead(lines, j, i);
    if Splits(lines[i], bare, field, dest) {
      PathMeaning(lines[i], bare, field, dest);
    }
  }

  /** In such a section a line without a path fails in one way and one whose file cannot be read in another. */
  lemma HashedLineFails(lines: seq<string>, hash: Hashes, j: nat, i: nat, bare: string, field: string, dest: string)
    requires Heads(lines, j, i) && OccursIn(" - from", lines[j]) && lines[i] != "" && lines[i][0] != '#'
    requires Splits(lines[i], bare, field, dest)
    ensures dest == "" ==> Fault(lines, hash, i) == Some(NoPath)
    ensures dest != "" && hash(if dest[0] == '-' then dest[1..] else dest) == None ==>
      Fault(lines, hash, i) == Some(Unreadable)
  {
    NeedOfHead(lines, j, i);
    PathMeaning(lines[i], bare, field, dest);
  }

  /** Lines before the first comment are empty if an update succeeds, and stay so. */
  lemma UpdateBeforeComments(lines: seq<string>, hash: Hashes, i: nat)
    requires Updatable(lines, hash) && i < |lines| && forall k :: 0 <= k <= i ==> !IsComment(lines[k])
    ensures lines[i] == "" && Update(lines, hash)[i] == ""
  {
    assert Fault(lines, hash, i) == None;
    NeedMeaning(lines, i);
  }

  /** What a cleanup does to a line: one that is empty or a comment stays, any other keeps what comes before its first `|`. */
  lemma CleanupMeaning(lines: seq<string>, i: nat, bare: string)
    requires i < |lines|
    ensures lines[i] == "" || lines[i][0] == '#' ==> Cleanup(lines)[i] == lines[i]
    ensures lines[i] != "" && lines[i][0] != '#' ==> (Cleanup(lines)[i] == bare <==> FirstField(lines[i], '|', bare))
  {
    BeforeMeaning(lines[i], '|', bare);
    if '|' !in lines[i] {
      BeforeWithout(lines[i], '|');
    }
  }
}
