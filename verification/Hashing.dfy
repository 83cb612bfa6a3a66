/** The character stream a skill's content hash is taken of: path, decimal size and digest, each closed by a NUL. */
module Hashing {
  import opened Common
  import opened Ordering

  const NUL := '\0'

  datatype SkillFile = SkillFile(path: string, size: nat, digest: string)

  predicate NulFree(s: string) {
    NUL !in s
  }

  /** Paths and digests hold no NUL. */
  predicate Clean(files: seq<SkillFile>) {
    forall i :: 0 <= i < |files| ==> NulFree(files[i].path) && NulFree(files[i].digest)
  }

  function Digit(d: nat): (c: char)
    requires d < 10
    ensures c != NUL
  {
    "0123456789"[d]
  }

  function DigitValue(c: char): Option<nat> {
    if '0' <= c <= '9' then Some((c - '0') as nat) else None
  }

  function Decimal(n: nat): (s: string)
    ensures s != "" && NulFree(s)
  {
    if n < 10 then [Digit(n)] else Decimal(n / 10) + [Digit(n % 10)]
  }

  function ParseDecimal(s: string): Option<nat> {
    if s == "" then None
    else
      var last := DigitValue(s[|s| - 1]);
      if last.None? then None
      else if |s| == 1 then last
      else
        var front := ParseDecimal(s[..|s| - 1]);
        if front.None? then None else Some(10 * front.value + last.value)
  }

  function EncodeFile(f: SkillFile): string {
    f.path + [NUL] + Decimal(f.size) + [NUL] + f.digest + [NUL]
  }

  function Encode(files: seq<SkillFile>): string {
    if files == [] then "" else EncodeFile(files[0]) + Encode(files[1..])
  }

  lemma UpdatesAppend(before: string, f: SkillFile, rest: string)
    ensures before + f.path + [NUL] + Decimal(f.size) + [NUL] + f.digest + [NUL] + rest ==
          before + (EncodeFile(f) + rest)
  {
    hide Decimal;
    var size := Decimal(f.size);
    assert before + f.path + [NUL] + size + [NUL] + f.digest + [NUL]
        == before + (f.path + [NUL] + size + [NUL] + f.digest + [NUL]);
  }

  /** Feeds the files to the hasher one after the other. */
  method HashSkillFiles(files: seq<SkillFile>) returns (stream: string)
    ensures stream == Encode(files)
  {
    stream := "";
    for i := 0 to |files|
      invariant stream + Encode(files[i..]) == Encode(files)
    {
      assert files[i..][1..] == files[i + 1..];
      ghost var before := stream;
      stream := stream + files[i].path;
      stream := stream + [NUL];
      stream := stream + Decimal(files[i].size);
      stream := stream + [NUL];
      stream := stream + files[i].digest;
      stream := stream + [NUL];
      UpdatesAppend(before, files[i], Encode(files[i + 1..]));
    }
  }

  // ----- reading the stream back ----------------------------------------------------------------------

  /** The part of `s` before its first NUL. */
  function Field(s: string): (f: string)
    ensures f <= s && NulFree(f) && (|f| < |s| ==> s[|f|] == NUL)
  {
    if s == "" || s[0] == NUL then "" else [s[0]] + Field(s[1..])
  }

  /** Splits `s` at its first NUL. */
  function NextField(s: string): (r: Option<(string, string)>)
    ensures r.Some? ==> |r.value.1| < |s|
  {
    var f := Field(s);
    if |f| == |s| then None else Some((f, s[|f| + 1..]))
  }

  function DecodeFile(s: string): (r: Option<(SkillFile, string)>)
    ensures r.Some? ==> |r.value.1| < |s|
  {
    var path := NextField(s);
    if path.None? then None
    else
      var size := NextField(path.value.1);
      if size.None? || ParseDecimal(size.value.0).None? then None
      else
        var digest := NextField(size.value.1);
        if digest.None? then None
        else Some((SkillFile(path.value.0, ParseDecimal(size.value.0).value, digest.value.0), digest.value.1))
  }

  function Decode(s: string): Option<seq<SkillFile>>
    decreases |s|
  {
    if s == "" then Some([])
    else
      var first := DecodeFile(s);
      if first.None? then None
      else
        var rest := Decode(first.value.1);
        if rest.None? then None else Some([first.value.0] + rest.value)
  }

  lemma {:induction false} FieldBeforeNul(f: string, rest: string)
    requires NulFree(f)
    ensures Field(f + [NUL] + rest) == f
  {
    var s := f + [NUL] + rest;
    if f != "" {
      assert s[1..] == f[1..] + [NUL] + rest;
      FieldBeforeNul(f[1..], rest);
      assert f == [f[0]] + f[1..];
    }
  }

  lemma NextFieldOf(f: string, rest: string)
    requires NulFree(f)
    ensures NextField(f + [NUL] + rest) == Some((f, rest))
  {
    FieldBeforeNul(f, rest);
    assert (f + [NUL] + rest)[|f| + 1..] == rest;
  }

  lemma {:induction false} ParseInvertsDecimal(n: nat)
    ensures ParseDecimal(Decimal(n)) == Some(n)
  {
    var s := Decimal(n);
    if n >= 10 {
      ParseInvertsDecimal(n / 10);
      assert s[..|s| - 1] == Decimal(n / 10) && s[|s| - 1] == Digit(n % 10);
    }
  }

  lemma DecodeFileInverts(f: SkillFile, rest: string)
    requires NulFree(f.path) && NulFree(f.digest)
    ensures DecodeFile(EncodeFile(f) + rest) == Some((f, rest))
  {
    hide NextField, Decimal, ParseDecimal, NulFree;
    var s2 := f.digest + [NUL] + rest;
    var s1 := Decimal(f.size) + [NUL] + s2;
    assert EncodeFile(f) + rest == f.path + [NUL] + s1;
    NextFieldOf(f.path, s1);
    NextFieldOf(Decimal(f.size), s2);
    NextFieldOf(f.digest, rest);
    ParseInvertsDecimal(f.size);
  }

  /** Parsing the stream gives the file list back. */
  lemma {:induction false} DecodeInvertsEncode(files: seq<SkillFile>)
    requires Clean(files)
    ensures Decode(Encode(files)) == Some(files)
    decreases |files|
  {
    hide DecodeFile, EncodeFile;
    if files != [] {
      DecodeFileInverts(files[0], Encode(files[1..]));
      EncodedFileIsNotEmpty(files[0]);
      DecodeInvertsEncode(files[1..]);
      assert Encode(files) == EncodeFile(files[0]) + Encode(files[1..]);
      assert files == [files[0]] + files[1..];
    }
  }

  lemma EncodedFileIsNotEmpty(f: SkillFile)
    ensures EncodeFile(f) != ""
  {
  }

  /** Why the paths must be NUL-free: any two files have the stream of one file with an odd path. */
  lemma NulInPathIsAmbiguous(a: SkillFile, b: SkillFile)
    ensures Encode([SkillFile(EncodeFile(a) + b.path, b.size, b.digest)]) == Encode([a, b])
  {
    hide Decimal;
    var odd := SkillFile(EncodeFile(a) + b.path, b.size, b.digest);
    EncodeOne(odd);
    EncodeOne(b);
    assert [a, b][1..] == [b];
    assert EncodeFile(odd) == EncodeFile(a) + EncodeFile(b);
  }

  lemma EncodeOne(f: SkillFile)
    ensures Encode([f]) == EncodeFile(f)
  {
    assert [f][1..] == [];
  }

  // ----- the order of the files does not matter ----------------------------------------------------------

  function Paths(files: seq<SkillFile>): (p: seq<string>)
    ensures |p| == |files| && forall i :: 0 <= i < |files| ==> p[i] == files[i].path
  {
    seq(|files|, i requires 0 <= i < |files| => files[i].path)
  }

  /** `files` lists the set, sorted by path, and no path occurs twice. */
  ghost predicate SortedListing(files: seq<SkillFile>, listed: set<SkillFile>) {
    Ascending(Paths(files)) && forall f :: f in files <==> f in listed
  }

  lemma SortedListingIsUnique(a: seq<SkillFile>, b: seq<SkillFile>, listed: set<SkillFile>)
    requires SortedListing(a, listed) && SortedListing(b, listed)
    ensures a == b
  {
    SamePaths(a, b, listed);
    AscendingIsUnique(Paths(a), Paths(b));
    forall i | 0 <= i < |a|
      ensures a[i] == b[i]
    {
      assert a[i] in b;
      var j :| 0 <= j < |b| && b[j] == a[i];
      assert Paths(b)[j] == Paths(b)[i];
      PathsAreDistinct(b, i, j);
    }
  }

  lemma PathsAreDistinct(files: seq<SkillFile>, i: nat, j: nat)
    requires Ascending(Paths(files)) && i < |files| && j < |files| && Paths(files)[i] == Paths(files)[j]
    ensures i == j
  {
    LessIsTotal(Paths(files)[i], Paths(files)[j]);
  }

  lemma SamePaths(a: seq<SkillFile>, b: seq<SkillFile>, listed: set<SkillFile>)
    requires SortedListing(a, listed) && SortedListing(b, listed)
    ensures forall x :: x in Paths(a) <==> x in Paths(b)
  {
    forall x
      ensures x in Paths(a) <==> x in Paths(b)
    {
      if x in Paths(a) {
        var i :| 0 <= i < |a| && Paths(a)[i] == x;
        assert a[i] in b;
        var j :| 0 <= j < |b| && b[j] == a[i];
        assert Paths(b)[j] == x;
      }
      if x in Paths(b) {
        var i :| 0 <= i < |b| && Paths(b)[i] == x;
        assert b[i] in a;
        var j :| 0 <= j < |a| && a[j] == b[i];
        assert Paths(a)[j] == x;
      }
    }
  }

  /** The hashed stream depends on the set of files and on nothing else: equal streams mean equal sets, and back. */
  lemma StreamDependsOnFileSet(a: seq<SkillFile>, b: seq<SkillFile>, filesA: set<SkillFile>, filesB: set<SkillFile>)
    requires SortedListing(a, filesA) && SortedListing(b, filesB) && Clean(a) && Clean(b)
    ensures Encode(a) == Encode(b) <==> filesA == filesB
  {
    if Encode(a) == Encode(b) {
      DecodeInvertsEncode(a);
      DecodeInvertsEncode(b);
      assert forall f :: f in filesA <==> f in filesB;
    }
    if filesA == filesB {
      SortedListingIsUnique(a, b, filesA);
    }
  }
}
