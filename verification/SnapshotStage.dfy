/**
 Writing a scan into a snapshot and staging it back. An archive is a manifest and a list of members.
 */
module SnapshotStage {
  import opened Common
  import opened Ordering
  import opened Hashing
  import opened SkillIds
  import opened SkillWalk

  const MANIFEST_NAME := ".skill-sync/manifest.json"

  type Bytes = string
  type FileMap = map<string, Bytes>

  /** The digest of a file's bytes: injective and never empty. */
  function Digest(bytes: Bytes): string {
    "sha256:" + bytes
  }

  datatype Manifest = Manifest(hash: string, files: seq<SkillFile>)
  datatype Archive = Archive(manifest: Option<Manifest>, members: seq<(string, Bytes)>)
  datatype ArchivePath = ArchivePath(source: string, id: string, hash: string)
  datatype IndexEntry = IndexEntry(source: string, id: string, hash: string, archive: ArchivePath)

  /** A scanned skill: its file list and the content found on disk. */
  datatype SkillRecord = SkillRecord(source: string, id: string, files: seq<SkillFile>, disk: FileMap)
  {
    function Hash(): string { Encode(files) }
  }

  // ----- writing ----------------------------------------------------------------------------------------------

  function Members(files: seq<SkillFile>, disk: FileMap): (m: seq<(string, Bytes)>)
    requires forall i :: 0 <= i < |files| ==> files[i].path in disk
    ensures |m| == |files| && forall i :: 0 <= i < |files| ==> m[i] == (files[i].path, disk[files[i].path])
  {
    seq(|files|, i requires 0 <= i < |files| => (files[i].path, disk[files[i].path]))
  }

  predicate FilesOnDisk(r: SkillRecord) {
    forall i :: 0 <= i < |r.files| ==> r.files[i].path in r.disk
  }

  function ZipOf(r: SkillRecord): Archive
    requires FilesOnDisk(r)
  {
    Archive(Some(Manifest(r.Hash(), r.files)), Members(r.files, r.disk))
  }

  function EntryOf(r: SkillRecord): IndexEntry {
    IndexEntry(r.source, r.id, r.Hash(), ArchivePath(NormalizeSkillId(r.source), r.id, r.Hash()))
  }

  method WriteSkillZip(r: SkillRecord) returns (zip: Archive)
    requires FilesOnDisk(r)
    ensures zip == ZipOf(r)
  {
    var members: seq<(string, Bytes)> := [];
    for i := 0 to |r.files|
      invariant |members| == i && forall j :: 0 <= j < i ==> members[j] == (r.files[j].path, r.disk[r.files[j].path])
    {
      members := members + [(r.files[i].path, r.disk[r.files[i].path])];
    }
    assert members == Members(r.files, r.disk);
    return Archive(Some(Manifest(r.Hash(), r.files)), members);
  }

  /** Later skills overwrite the archives of earlier ones at the same path. */
  method WriteSnapshot(skills: seq<SkillRecord>) returns (index: seq<IndexEntry>, archives: map<ArchivePath, Archive>)
    requires forall i :: 0 <= i < |skills| ==> FilesOnDisk(skills[i])
    ensures |index| == |skills| && forall i :: 0 <= i < |skills| ==> index[i] == EntryOf(skills[i])
    ensures forall i :: 0 <= i < |skills| && (forall j :: i < j < |skills| ==> index[j].archive != index[i].archive) ==>
              Get(archives, index[i].archive) == Some(ZipOf(skills[i]))
  {
    hide EntryOf, ZipOf, FilesOnDisk;
    index, archives := [], map[];
    for i := 0 to |skills|
      invariant |index| == i && forall j :: 0 <= j < i ==> index[j] == EntryOf(skills[j])
      invariant forall j :: 0 <= j < i && (forall k :: j < k < i ==> index[k].archive != index[j].archive) ==>
                  Get(archives, index[j].archive) == Some(ZipOf(skills[j]))
    {
      var zip := WriteSkillZip(skills[i]);
      ghost var before, index0 := archives, index;
      archives := archives[EntryOf(skills[i]).archive := zip];
      index := index + [EntryOf(skills[i])];
      forall j | 0 <= j < i + 1 && (forall k :: j < k < i + 1 ==> index[k].archive != index[j].archive)
        ensures Get(archives, index[j].archive) == Some(ZipOf(skills[j]))
      {
        if j < i {
          assert index[i].archive != index[j].archive;
          assert forall k :: j < k < i ==> index[k].archive == index0[k].archive;
          assert Get(before, index0[j].archive) == Some(ZipOf(skills[j]));
        }
      }
    }
  }

  // ----- staging ----------------------------------------------------------------------------------------------

  /** The components of a path. */
  function Parts(path: string): seq<string> {
    if path == "" then [""]
    else
      var rest := Parts(path[1..]);
      if path[0] == '/' then [""] + rest
      else if rest == [] then [[path[0]]] else [[path[0]] + rest[0]] + rest[1..]
  }

  /** Neither absolute nor climbing up. */
  predicate IsSafeMember(path: string) {
    !(path != "" && path[0] == '/') && ".." !in Parts(path)
  }

  /** A path that leaves its directory: absolute, or with two dots between slashes or the ends. */
  ghost predicate Escapes(path: string) {
    || "/" <= path || path == ".." || "../" <= path
    || exists i :: ClimbsAt(path, i)
  }

  predicate ClimbsAt(path: string, i: int) {
    0 <= i <= |path| - 3 && path[i..i + 3] == "/.." && (i + 3 == |path| || path[i + 3] == '/')
  }

  /** Every form an escaping path can have, by concatenation. */
  lemma EscapingForms(path: string, a: string, b: string)
    requires path in {"/" + b, "..", "../" + b, a + "/..", a + "/../" + b}
    ensures Escapes(path)
  {
    if path == a + "/.." || path == a + "/../" + b {
      assert path[|a|..|a| + 3] == "/..";
      assert ClimbsAt(path, |a|);
    }
  }

  lemma EscapingHasForm(path: string) returns (a: string, b: string)
    requires Escapes(path)
    ensures path in {"/" + b, "..", "../" + b, a + "/..", a + "/../" + b}
  {
    a, b := "", "";
    if "/" <= path {
      b := path[1..];
      assert path == "/" + b;
    } else if "../" <= path {
      b := path[3..];
      assert path == "../" + b;
    } else if path != ".." {
      var i :| ClimbsAt(path, i);
      a := path[..i];
      if i + 3 == |path| {
        assert path == a + "/..";
      } else {
        b := path[i + 4..];
        assert path == a + ("/.." + ("/" + b));
        assert path == a + "/../" + b;
      }
    }
  }

  /** Where the components of a path begin. */
  lemma {:induction false} ClimbsByParts(path: string)
    ensures |Parts(path)| > 0
    ensures Parts(path)[0] == ".." <==> path == ".." || "../" <= path
    ensures ".." in Parts(path)[1..] <==> exists i :: ClimbsAt(path, i)
    decreases |path|
  {
    if path != "" {
      var rest := path[1..];
      ClimbsByParts(rest);
      assert path == [path[0]] + rest;
      if path[0] == '/' {
        SlashMayClimb(path);
        assert Parts(path)[1..] == Parts(rest);
        assert Parts(rest) == [Parts(rest)[0]] + Parts(rest)[1..];
      } else {
        LetterDoesNotClimb(path);
        assert Parts(path)[1..] == Parts(rest)[1..];
        FirstPart(path);
      }
    }
  }

  /** The first component ends at the first slash. */
  lemma {:induction false} FirstPart(path: string)
    ensures |Parts(path)| > 0
    ensures Parts(path)[0] <= path && '/' !in Parts(path)[0]
    ensures |Parts(path)[0]| < |path| ==> path[|Parts(path)[0]|] == '/'
    decreases |path|
  {
    if path != "" {
      FirstPart(path[1..]);
    }
  }

  lemma SlashMayClimb(path: string)
    requires path != "" && path[0] == '/'
    ensures (exists i :: ClimbsAt(path, i)) <==>
              path[1..] == ".." || "../" <= path[1..] || exists i :: ClimbsAt(path[1..], i)
  {
    var rest := path[1..];
    if path[1..] == ".." || "../" <= path[1..] {
      assert ClimbsAt(path, 0);
    }
    if i :| ClimbsAt(rest, i) {
      assert path[i + 1..i + 4] == rest[i..i + 3];
      assert ClimbsAt(path, i + 1);
    }
    if i :| ClimbsAt(path, i) {
      if i > 0 {
        assert path[i..i + 3] == rest[i - 1..i + 2];
        assert ClimbsAt(rest, i - 1);
      } else {
        assert path[0..3][1..] == rest[..2];
      }
    }
  }

  lemma LetterDoesNotClimb(path: string)
    requires path != "" && path[0] != '/'
    ensures (exists i :: ClimbsAt(path, i)) <==> exists i :: ClimbsAt(path[1..], i)
  {
    var rest := path[1..];
    if i :| ClimbsAt(rest, i) {
      assert path[i + 1..i + 4] == rest[i..i + 3];
      assert ClimbsAt(path, i + 1);
    }
    if i :| ClimbsAt(path, i) {
      assert i > 0 by { assert i == 0 ==> path[0..3][0] == path[0]; }
      assert path[i..i + 3] == rest[i - 1..i + 2];
      assert ClimbsAt(rest, i - 1);
    }
  }

  /** The member check lets exactly the paths through that stay inside their directory. */
  lemma SafeIffStaysInside(path: string)
    ensures IsSafeMember(path) <==> !Escapes(path)
  {
    ClimbsByParts(path);
    assert Parts(path) == [Parts(path)[0]] + Parts(path)[1..];
  }

  /** Members that staging leaves out: the manifest itself and directory entries. */
  predicate IsSkipped(path: string) {
    path == MANIFEST_NAME || (path != "" && path[|path| - 1] == '/')
  }

  /** What extraction writes; a repeated member overwrites the earlier one. */
  function Extracted(members: seq<(string, Bytes)>): FileMap {
    if members == [] then map[]
    else
      var last := members[|members| - 1];
      var earlier := Extracted(members[..|members| - 1]);
      if IsSkipped(last.0) then earlier else earlier[last.0 := last.1]
  }

  function Insert(sorted: seq<SkillFile>, f: SkillFile): seq<SkillFile> {
    if sorted == [] then [f]
    else
      var last := sorted[|sorted| - 1];
      if Less(f.path, last.path) then Insert(sorted[..|sorted| - 1], f) + [last] else sorted + [f]
  }

  /** The stable sort by path. */
  function SortByPath(files: seq<SkillFile>): seq<SkillFile> {
    if files == [] then [] else Insert(SortByPath(files[..|files| - 1]), files[|files| - 1])
  }

  ghost predicate FileIsStaged(f: SkillFile, staged: FileMap) {
    && f.path != "" && f.digest != "" && !Escapes(f.path)
    && f.path in staged && |staged[f.path]| == f.size && Digest(staged[f.path]) == f.digest
  }

  datatype StageError =
    | ArchiveMissing | NoManifest | HashMismatch | UnsafeMember(path: string) | FileRejected(path: string)
    | StagedHashMismatch

  /** When staging accepts an archive, and what it accepts. */
  ghost predicate Stageable(archives: map<ArchivePath, Archive>, e: IndexEntry) {
    && e.archive in archives
    && archives[e.archive].manifest.Some?
    && var zip := archives[e.archive];
       var manifest := zip.manifest.value;
       && e.hash == manifest.hash
       && (forall i :: 0 <= i < |zip.members| && !IsSkipped(zip.members[i].0) ==> !Escapes(zip.members[i].0))
       && (forall i :: 0 <= i < |manifest.files| ==> FileIsStaged(manifest.files[i], Extracted(zip.members)))
       && (manifest.hash == "" || Encode(SortByPath(manifest.files)) == manifest.hash)
  }

  /** An archive with a member that leaves its directory is never staged, whatever else it holds. */
  lemma EscapingMemberIsRefused(archives: map<ArchivePath, Archive>, e: IndexEntry, i: nat, a: string, b: string)
    requires e.archive in archives && i < |archives[e.archive].members|
    requires
      var path := archives[e.archive].members[i].0;
      path in {"/" + b, "..", "../" + b, a + "/..", a + "/../" + b}
      && path != MANIFEST_NAME && path[|path| - 1] != '/'
    ensures !Stageable(archives, e)
  {
    hide Escapes;
    EscapingForms(archives[e.archive].members[i].0, a, b);
  }

  type StageDir = (string, string)   // source and skill

  function DirOf(e: IndexEntry, alnum: Alphabet): StageDir {
    (Sanitized(e.source, alnum), Sanitized(e.id, alnum))
  }

  class StageRoot {
    const alnum: Alphabet
    var dirs: map<StageDir, FileMap>

    constructor (alnum: Alphabet)
      ensures dirs == map[] && this.alnum == alnum
    {
      this.alnum := alnum;
      dirs := map[];
    }

    /** Extracts the members into an emptied directory, stopping at an unsafe one. */
    method ExtractMembers(dir: StageDir, members: seq<(string, Bytes)>) returns (bad: Option<string>)
      modifies this
      ensures forall d :: d != dir ==> Get(dirs, d) == Get(old(dirs), d)
      ensures bad.None? <==> forall i :: 0 <= i < |members| && !IsSkipped(members[i].0) ==> !Escapes(members[i].0)
      ensures bad.None? ==> Get(dirs, dir) == Some(Extracted(members))
    {
      hide IsSkipped, IsSafeMember, Escapes;
      dirs := dirs[dir := map[]];
      for i := 0 to |members|
        invariant forall d :: d != dir ==> Get(dirs, d) == Get(old(dirs), d)
        invariant dir in dirs && dirs[dir] == Extracted(members[..i])
        invariant forall j :: 0 <= j < i && !IsSkipped(members[j].0) ==> !Escapes(members[j].0)
      {
        var (path, bytes) := members[i];
        assert members[..i + 1][..i] == members[..i] && members[..i + 1][i] == members[i];
        SafeIffStaysInside(path);
        if !IsSkipped(path) {
          if !IsSafeMember(path) { return Some(path); }
          dirs := dirs[dir := dirs[dir][path := bytes]];
        }
      }
      assert members[..|members|] == members;
      return None;
    }

    method ValidateStagedFiles(dir: StageDir, manifest: Manifest) returns (problem: Option<StageError>)
      requires dir in dirs
      ensures problem.Some? ==> problem.value.FileRejected? || problem.value.StagedHashMismatch?
      ensures problem.None? <==>
                && (forall i :: 0 <= i < |manifest.files| ==> FileIsStaged(manifest.files[i], dirs[dir]))
                && (manifest.hash == "" || Encode(SortByPath(manifest.files)) == manifest.hash)
    {
      hide IsSafeMember, Escapes;
      var files: seq<SkillFile> := [];
      for i := 0 to |manifest.files|
        invariant files == manifest.files[..i]
        invariant forall j :: 0 <= j < i ==> FileIsStaged(manifest.files[j], dirs[dir])
      {
        var f := manifest.files[i];
        SafeIffStaysInside(f.path);
        if f.path == "" || f.digest == "" || !IsSafeMember(f.path) { return Some(FileRejected(f.path)); }
        if f.path !in dirs[dir] { return Some(FileRejected(f.path)); }
        var bytes := dirs[dir][f.path];
        if |bytes| != f.size || Digest(bytes) != f.digest { return Some(FileRejected(f.path)); }
        files := files + [SkillFile(f.path, |bytes|, Digest(bytes))];
      }
      assert files == manifest.files;
      var stream := HashSkillFiles(SortByPath(files));
      if manifest.hash != "" && stream != manifest.hash { return Some(StagedHashMismatch); }
      return None;
    }

    /** Stages one skill; it succeeds exactly when the archive is stageable, else the first check that fails says so. */
    method StageSkill(archives: map<ArchivePath, Archive>, e: IndexEntry) returns (error: Option<StageError>)
      modifies this
      ensures error.None? <==> Stageable(archives, e)
      ensures error == Some(ArchiveMissing) <==> e.archive !in archives
      ensures error == Some(NoManifest) <==> e.archive in archives && archives[e.archive].manifest.None?
      ensures error == Some(HashMismatch) <==>
                && e.archive in archives && archives[e.archive].manifest.Some?
                && archives[e.archive].manifest.value.hash != e.hash
      ensures error.Some? && error.value.UnsafeMember? <==>
                && e.archive in archives && archives[e.archive].manifest.Some?
                && archives[e.archive].manifest.value.hash == e.hash
                && exists i :: 0 <= i < |archives[e.archive].members| && !IsSkipped(archives[e.archive].members[i].0)
                               && Escapes(archives[e.archive].members[i].0)
      ensures forall d :: d != DirOf(e, alnum) ==> Get(dirs, d) == Get(old(dirs), d)
      ensures error.None? ==> Get(dirs, DirOf(e, alnum)) == Some(Extracted(archives[e.archive].members))
    {
      hide IsSkipped, Escapes, FileIsStaged;
      if e.archive !in archives { return Some(ArchiveMissing); }
      var zip := archives[e.archive];
      var dir := DirOf(e, alnum);
      if zip.manifest.None? {
        dirs := dirs[dir := map[]];
        return Some(NoManifest);
      }
      if e.hash != zip.manifest.value.hash {
        dirs := dirs[dir := map[]];
        return Some(HashMismatch);
      }
      var bad := ExtractMembers(dir, zip.members);
      if bad.Some? { return Some(UnsafeMember(bad.value)); }
      assert dir in dirs && dirs[dir] == Extracted(zip.members) by { assert Get(dirs, dir).Some?; }
      error := ValidateStagedFiles(dir, zip.manifest.value);
    }

    /** Stages a whole index; the directory of a skill holds what the last entry for it extracted. */
    method StageSnapshot(archives: map<ArchivePath, Archive>, index: seq<IndexEntry>)
      returns (error: Option<StageError>)
      modifies this
      ensures error.None? <==> forall i :: 0 <= i < |index| ==> Stageable(archives, index[i])
      ensures error.None? ==>
                forall i ::
                  && 0 <= i < |index|
                  && (forall j :: i < j < |index| ==> DirOf(index[j], alnum) != DirOf(index[i], alnum)) ==>
                    Get(dirs, DirOf(index[i], alnum)) == Some(Extracted(archives[index[i].archive].members))
    {
      hide Stageable, DirOf;
      for i := 0 to |index|
        invariant forall j :: 0 <= j < i ==> Stageable(archives, index[j])
        invariant forall j ::
                    && 0 <= j < i
                    && (forall k :: j < k < i ==> DirOf(index[k], alnum) != DirOf(index[j], alnum)) ==>
                      index[j].archive in archives && Get(dirs, DirOf(index[j], alnum)) ==
                        Some(Extracted(archives[index[j].archive].members))
      {
        ghost var before := dirs;
        var problem := StageSkill(archives, index[i]);
        if problem.Some? { return problem; }
        StageableHasArchive(archives, index[i]);
        forall j | 0 <= j < i + 1 && (forall k :: j < k < i + 1 ==> DirOf(index[k], alnum) != DirOf(index[j], alnum))
          ensures index[j].archive in archives
            && Get(dirs, DirOf(index[j], alnum)) == Some(Extracted(archives[index[j].archive].members))
        {
          if j < i {
            assert DirOf(index[i], alnum) != DirOf(index[j], alnum);
            assert Get(before, DirOf(index[j], alnum)) == Some(Extracted(archives[index[j].archive].members));
          }
        }
      }
      return None;
    }
  }

  lemma StageableHasArchive(archives: map<ArchivePath, Archive>, e: IndexEntry)
    requires Stageable(archives, e)
    ensures e.archive in archives
  {
  }

  // ----- the round trip ---------------------------------------------------------------------------------------

  /** What a scan guarantees: sorted distinct paths that are safe members, and digests and sizes of what is on disk. */
  ghost predicate Scanned(r: SkillRecord) {
    && FilesOnDisk(r) && IsNormalized(r.id) && Ascending(Paths(r.files))
    && forall i :: 0 <= i < |r.files| ==>
         var f := r.files[i];
         && f.path != "" && !Escapes(f.path) && !IsSkipped(f.path)
         && f.size == |r.disk[f.path]| && f.digest == Digest(r.disk[f.path])
  }

  /** The packaged part of a skill's directory. */
  function Packaged(r: SkillRecord): FileMap {
    map i | 0 <= i < |r.files| && r.files[i].path in r.disk :: r.files[i].path := r.disk[r.files[i].path]
  }

  ghost predicate InOrder(files: seq<SkillFile>) {
    forall i, j :: 0 <= i < j < |files| ==> !Less(files[j].path, files[i].path)
  }

  /** Sorting rearranges a file list into path order. */
  lemma {:induction false} SortingOrders(files: seq<SkillFile>)
    ensures InOrder(SortByPath(files)) && multiset(SortByPath(files)) == multiset(files)
    decreases |files|
  {
    if files != [] {
      var n := |files| - 1;
      SortingOrders(files[..n]);
      InsertingKeepsOrder(SortByPath(files[..n]), files[n]);
      assert files == files[..n] + [files[n]];
    }
  }

  lemma {:induction false} InsertingKeepsOrder(sorted: seq<SkillFile>, f: SkillFile)
    requires InOrder(sorted)
    ensures InOrder(Insert(sorted, f)) && multiset(Insert(sorted, f)) == multiset(sorted) + multiset{f}
    decreases |sorted|
  {
    hide Less;
    LessIsTotal(f.path, f.path);
    if sorted != [] {
      var n := |sorted| - 1;
      var last := sorted[n];
      assert sorted == sorted[..n] + [last];
      if Less(f.path, last.path) {
        InsertingKeepsOrder(sorted[..n], f);
        var front := Insert(sorted[..n], f);
        forall i | 0 <= i < |front|
          ensures !Less(last.path, front[i].path)
        {
          LessIsTotal(f.path, last.path);
          assert front[i] in multiset(front);
          assert front[i] == f || front[i] in sorted[..n];
        }
      } else {
        forall i | 0 <= i < |sorted|
          ensures !Less(f.path, sorted[i].path)
        {
          LessIsTotal(last.path, last.path);
          NotLessIsTransitive(f.path, last.path, sorted[i].path);
        }
      }
    }
  }

  lemma NotLessIsTransitive(a: string, b: string, c: string)
    requires !Less(a, b) && !Less(b, c)
    ensures !Less(a, c)
  {
    LessIsTotal(b, c);
    if Less(a, c) && b != c {
      LessIsTransitive(a, c, b);
    }
  }

  lemma {:induction false} SortingSortedIsIdentity(files: seq<SkillFile>)
    requires Ascending(Paths(files))
    ensures SortByPath(files) == files
    decreases |files|
  {
    hide Less;
    if files != [] {
      var n := |files| - 1;
      assert Paths(files[..n]) == Paths(files)[..n];
      SortingSortedIsIdentity(files[..n]);
      if n > 0 {
        assert Less(Paths(files)[n - 1], Paths(files)[n]);
        LessIsTotal(files[n - 1].path, files[n].path);
      }
      assert files == files[..n] + [files[n]];
    }
  }

  /** Extraction writes every member but the manifest and directories; a path holds the bytes of its last member. */
  lemma {:induction false} ExtractedAt(members: seq<(string, Bytes)>, path: string)
    ensures path in Extracted(members) <==>
              && path != MANIFEST_NAME && (path == "" || path[|path| - 1] != '/')
              && exists i :: 0 <= i < |members| && members[i].0 == path
    ensures forall i ::
              path in Extracted(members) && 0 <= i < |members| && members[i].0 == path
              && (forall j :: i < j < |members| ==> members[j].0 != path) ==>
                Extracted(members)[path] == members[i].1
    decreases |members|
  {
    if members != [] {
      var n := |members| - 1;
      var front := members[..n];
      ExtractedAt(front, path);
      assert forall i :: 0 <= i < n ==> front[i] == members[i];
      if i :| 0 <= i < |members| && members[i].0 == path {
        assert i < n ==> front[i].0 == path;
      }
    }
  }

  lemma ExtractedIsPackaged(r: SkillRecord)
    requires Scanned(r)
    ensures Extracted(ZipOf(r).members) == Packaged(r)
  {
    hide Escapes;
    var members := ZipOf(r).members;
    forall path
      ensures Get(Extracted(members), path) == Get(Packaged(r), path)
    {
      ExtractedAt(members, path);
      if path in Extracted(members) {
        var i :| 0 <= i < |members| && members[i].0 == path;
        forall j | i < j < |members|
          ensures members[j].0 != path
        {
          assert Less(Paths(r.files)[i], Paths(r.files)[j]);
          LessIsTotal(members[i].0, members[j].0);
        }
        assert r.files[i].path == path;
      }
      if path in Packaged(r) {
        var i :| 0 <= i < |r.files| && r.files[i].path == path;
        assert members[i].0 == path;
      }
    }
    SameLookups(Extracted(members), Packaged(r));
  }

  lemma PackagedFilesValidate(r: SkillRecord)
    requires Scanned(r)
    ensures forall i :: 0 <= i < |r.files| ==> FileIsStaged(r.files[i], Packaged(r))
  {
    hide IsSkipped, Escapes;
    forall i | 0 <= i < |r.files|
      ensures FileIsStaged(r.files[i], Packaged(r))
    {
      assert r.files[i].path in Packaged(r);
      assert Packaged(r)[r.files[i].path] == r.disk[r.files[i].path];
      DigestIsNotEmpty(r.disk[r.files[i].path]);
    }
  }

  lemma DigestIsNotEmpty(bytes: Bytes)
    ensures Digest(bytes) != ""
  {
  }

  lemma MembersAreSafe(r: SkillRecord)
    requires Scanned(r)
    ensures forall i :: 0 <= i < |ZipOf(r).members| ==> !Escapes(ZipOf(r).members[i].0)
    ensures ZipOf(r).manifest == Some(Manifest(r.Hash(), r.files)) && r.Hash() == EntryOf(r).hash
    ensures r.Hash() == Encode(SortByPath(r.files))
  {
    hide IsSkipped, Escapes;
    SortingSortedIsIdentity(r.files);
    assert forall i :: 0 <= i < |r.files| ==> ZipOf(r).members[i].0 == r.files[i].path;
  }

  /** A written skill can be staged, and staging it extracts exactly the packaged files. */
  lemma WrittenSkillIsStageable(r: SkillRecord, archives: map<ArchivePath, Archive>)
    requires Scanned(r) && Get(archives, EntryOf(r).archive) == Some(ZipOf(r))
    ensures Stageable(archives, EntryOf(r))
    ensures Extracted(archives[EntryOf(r).archive].members) == Packaged(r)
  {
    hide IsSkipped, Escapes, FileIsStaged, Extracted, Packaged, ZipOf, EntryOf, SortByPath, Encode, Ascending;
    ExtractedIsPackaged(r);
    PackagedFilesValidate(r);
    MembersAreSafe(r);
  }

  lemma DistinctIdsDistinctDirs(a: SkillRecord, b: SkillRecord, alnum: Alphabet)
    requires Scanned(a) && Scanned(b) && a.id != b.id && CoversAscii(alnum)
    ensures EntryOf(a).archive != EntryOf(b).archive && DirOf(EntryOf(a), alnum) != DirOf(EntryOf(b), alnum)
  {
    NormalizedIdsAreFixed(a.id, alnum);
    NormalizedIdsAreFixed(b.id, alnum);
  }

  /**
   Snapshot then stage is a round trip: for scanned skills of one source with distinct ids, staging what was written
   succeeds and yields the same file map, content hash and id for every skill. Archive paths are safe components.
   */
  method SnapshotThenStage(source: string, skills: seq<SkillRecord>, alnum: Alphabet)
    returns (root: StageRoot, index: seq<IndexEntry>, error: Option<StageError>)
    requires CoversAscii(alnum)
    requires forall i :: 0 <= i < |skills| ==> Scanned(skills[i]) && skills[i].source == source
    requires forall i, j :: 0 <= i < j < |skills| ==> skills[i].id != skills[j].id
    ensures fresh(root) && error.None? && |index| == |skills|
    ensures forall i :: 0 <= i < |skills| ==>
              && index[i].id == skills[i].id && index[i].hash == skills[i].Hash()
              && Get(root.dirs, (Sanitized(source, alnum), skills[i].id)) == Some(Packaged(skills[i]))
              && IsNormalized(index[i].archive.source)
              && index[i].archive.id == skills[i].id && index[i].archive.hash == skills[i].Hash()
  {
    NormalizeIsNormalized(source);
    hide Stageable, Extracted, Sanitized, NormalizeSkillId;
    var archives;
    index, archives := WriteSnapshot(skills);
    forall i, j | 0 <= i < j < |skills|
      ensures index[i].archive != index[j].archive && DirOf(index[i], alnum) != DirOf(index[j], alnum)
    {
      DistinctIdsDistinctDirs(skills[i], skills[j], alnum);
    }
    forall i | 0 <= i < |skills|
      ensures Stageable(archives, index[i]) && index[i].archive in archives
      ensures Extracted(archives[index[i].archive].members) == Packaged(skills[i])
    {
      assert Get(archives, index[i].archive) == Some(ZipOf(skills[i]));
      WrittenSkillIsStageable(skills[i], archives);
    }
    root := new StageRoot(alnum);
    error := root.StageSnapshot(archives, index);
    forall i | 0 <= i < |skills|
      ensures Get(root.dirs, (Sanitized(source, alnum), skills[i].id)) == Some(Packaged(skills[i]))
    {
      NormalizedIdsAreFixed(skills[i].id, alnum);
      assert DirOf(index[i], alnum) == (Sanitized(source, alnum), skills[i].id);
    }
  }

  // ----- what scanning and staging promise around it ------------------------------------------------------------

  /** A scan never lists the manifest's own path, because hidden directories are skipped. */
  lemma ScannedPathsAvoidManifest(entries: seq<Entry>, rules: Rules, excludes: Patterns, i: nat)
    requires rules.dirSkipped(".skill-sync")
    requires forall k :: 0 <= k < |entries| ==> Plain(entries[k].name) || entries[k].name == "SKILL.md"
    requires i < |Walk("", entries, rules, excludes)|
    ensures Walk("", entries, rules, excludes)[i].path != MANIFEST_NAME
  {
    TopLevelFilesArePlain(entries, rules, excludes);
    TopLevelDirsAvoidManifest(entries, rules, excludes);
  }

  lemma {:induction false} TopLevelFilesArePlain(entries: seq<Entry>, rules: Rules, excludes: Patterns)
    requires forall k :: 0 <= k < |entries| ==> Plain(entries[k].name) || entries[k].name == "SKILL.md"
    ensures forall i :: 0 <= i < |FilesIn("", entries, rules, excludes)| ==>
      FilesIn("", entries, rules, excludes)[i].path != MANIFEST_NAME
    decreases |entries|
  {
    hide KeepsFile;
    assert MANIFEST_NAME[11] == '/';
    if entries != [] {
      TopLevelFilesArePlain(entries[1..], rules, excludes);
    }
  }

  lemma {:induction false} TopLevelDirsAvoidManifest(entries: seq<Entry>, rules: Rules, excludes: Patterns)
    requires rules.dirSkipped(".skill-sync")
    requires forall k :: 0 <= k < |entries| ==> Plain(entries[k].name) || entries[k].name == "SKILL.md"
    ensures forall i :: 0 <= i < |WalkDirs("", entries, rules, excludes)| ==>
      WalkDirs("", entries, rules, excludes)[i].path != MANIFEST_NAME
    decreases |entries|
  {
    if entries != [] {
      TopLevelDirsAvoidManifest(entries[1..], rules, excludes);
      var e := entries[0];
      if IsKeptDir("", e, rules, excludes) {
        WalkStaysBelow(e.name, e.entries, rules, excludes);
        OnlyHiddenDirHoldsManifest(e.name, Walk(e.name, e.entries, rules, excludes));
      }
    }
  }

  lemma OnlyHiddenDirHoldsManifest(dir: string, files: seq<SkillFile>)
    requires '/' !in dir && dir != "" && dir != ".skill-sync" && AllBelow(files, dir)
    ensures forall i :: 0 <= i < |files| ==> files[i].path != MANIFEST_NAME
  {
    var hidden := ".skill-sync";
    assert MANIFEST_NAME == hidden + "/" + "manifest.json";
    forall i | 0 <= i < |files|
      ensures files[i].path != MANIFEST_NAME
    {
      assert dir + "/" <= files[i].path;
      assert (dir + "/")[|dir|] == '/';
      if |dir| == |hidden| {
        assert MANIFEST_NAME[..|dir|] == hidden;
      } else if |dir| < |hidden| {
        assert MANIFEST_NAME[|dir|] == hidden[|dir|] != '/';
      } else {
        assert (dir + "/")[|hidden|] == dir[|hidden|] != '/';
      }
    }
  }
}
