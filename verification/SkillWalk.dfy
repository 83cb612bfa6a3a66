/**
 Walking a skill directory with exclusions. The walk prunes excluded directories; the projection of a published
 skill filters a flat file list instead. Patterns are literal paths.
 */
module SkillWalk {
  import opened Hashing

  datatype Entry = FileEntry(name: string, size: nat, digest: string) | DirEntry(name: string, entries: seq<Entry>)

  /** The built-in exclusions, by directory name, file name and relative path. */
  datatype Rules = Rules(dirSkipped: string -> bool, fileSkipped: string -> bool, pathSkipped: string -> bool)

  type Patterns = seq<string>

  predicate StartsWith(s: string, prefix: string) {
    prefix <= s
  }

  function StripSlashes(p: string): string
    decreases |p|
  {
    if p != "" && p[0] == '/' then StripSlashes(p[1..])
    else if p != "" && p[|p| - 1] == '/' then StripSlashes(p[..|p| - 1])
    else p
  }

  /** The part after the last slash. */
  function BaseName(path: string): (name: string)
    ensures '/' !in name
  {
    if path == "" || path[|path| - 1] == '/' then ""
    else BaseName(path[..|path| - 1]) + [path[|path| - 1]]
  }

  predicate Matches(rel: string, pattern: string) {
    var clean := StripSlashes(pattern);
    clean != "" && (rel == clean || StartsWith(rel, clean + "/") || BaseName(rel) == clean)
  }

  /** Stripping removes nothing but slashes, and only from the two ends. */
  lemma {:induction false} StripCutsSlashes(p: string) returns (front: string, back: string)
    ensures p == front + StripSlashes(p) + back
    ensures forall c :: c in front || c in back ==> c == '/'
    ensures StripSlashes(p) != "" ==>
              StripSlashes(p)[0] != '/' && StripSlashes(p)[|StripSlashes(p)| - 1] != '/'
    decreases |p|
  {
    front, back := "", "";
    if p != "" && p[0] == '/' {
      front, back := StripCutsSlashes(p[1..]);
      front := [p[0]] + front;
    } else if p != "" && p[|p| - 1] == '/' {
      front, back := StripCutsSlashes(p[..|p| - 1]);
      back := back + [p[|p| - 1]];
    }
  }

  /** The base name is what follows the last slash, or the whole path when there is none. */
  lemma {:induction false} BaseNameFollowsSlash(path: string) returns (dir: string)
    ensures path == BaseName(path) || path == dir + "/" + BaseName(path)
    decreases |path|
  {
    dir := "";
    if path != "" && path[|path| - 1] == '/' {
      dir := path[..|path| - 1];
      assert path == dir + "/" + "";
    } else if path != "" {
      var n := |path| - 1;
      dir := BaseNameFollowsSlash(path[..n]);
      assert path == path[..n] + [path[n]];
      if path[..n] != BaseName(path[..n]) {
        assert path == dir + "/" + (BaseName(path[..n]) + [path[n]]);
      }
    }
  }

  /** A pattern excludes its own path, everything below it, and, without a slash inside, every path with that name. */
  lemma MatchesByForm(rel: string, pattern: string)
    ensures
      var clean := StripSlashes(pattern);
      Matches(rel, pattern) <==>
        clean != "" && (rel == clean || clean + "/" <= rel || ('/' !in clean && EndsWith(rel, "/" + clean)))
  {
    var clean := StripSlashes(pattern);
    var dir := BaseNameFollowsSlash(rel);
    if '/' !in clean && EndsWith(rel, "/" + clean) {
      var cut := |rel| - |clean| - 1;
      assert rel == rel[..cut] + "/" + clean;
      BaseNameOfPlain(rel[..cut], clean);
    }
    if rel == dir + "/" + clean && BaseName(rel) == clean {
      assert rel[|rel| - |clean| - 1..] == "/" + clean;
    }
  }

  predicate EndsWith(s: string, suffix: string) {
    |suffix| <= |s| && s[|s| - |suffix|..] == suffix
  }

  predicate IsExcluded(rel: string, patterns: Patterns) {
    exists i :: 0 <= i < |patterns| && Matches(rel, patterns[i])
  }

  function Join(prefix: string, name: string): string {
    if prefix == "" then name else prefix + "/" + name
  }

  predicate IsSkillDir(entries: seq<Entry>) {
    exists i :: 0 <= i < |entries| && entries[i].name == "SKILL.md"
  }

  predicate KeepsFile(rules: Rules, name: string, rel: string, excludes: Patterns) {
    !rules.fileSkipped(name) && !rules.pathSkipped(rel) && !IsExcluded(rel, excludes)
  }

  predicate Descends(rules: Rules, name: string, rel: string, entries: seq<Entry>, excludes: Patterns) {
    !rules.dirSkipped(name) && !IsSkillDir(entries) && !rules.pathSkipped(rel) && !IsExcluded(rel, excludes)
  }

  /** The file an entry contributes itself, if any. */
  function FileAt(prefix: string, e: Entry, rules: Rules, excludes: Patterns): seq<SkillFile> {
    match e
    case FileEntry(name, size, digest) =>
      if KeepsFile(rules, name, Join(prefix, name), excludes) then [SkillFile(Join(prefix, name), size, digest)] else []
    case DirEntry(_, _) => []
  }

  predicate IsKeptDir(prefix: string, e: Entry, rules: Rules, excludes: Patterns) {
    e.DirEntry? && Descends(rules, e.name, Join(prefix, e.name), e.entries, excludes)
  }

  function FilesIn(prefix: string, entries: seq<Entry>, rules: Rules, excludes: Patterns): seq<SkillFile> {
    if entries == [] then []
    else FileAt(prefix, entries[0], rules, excludes) + FilesIn(prefix, entries[1..], rules, excludes)
  }

  function KeptDirs(prefix: string, entries: seq<Entry>, rules: Rules, excludes: Patterns): (dirs: seq<Entry>)
    ensures forall d :: d in dirs ==> d.DirEntry? && d in entries
  {
    if entries == [] then []
    else
      (if IsKeptDir(prefix, entries[0], rules, excludes) then [entries[0]] else [])
      + KeptDirs(prefix, entries[1..], rules, excludes)
  }

  /** The files of a directory, then those of every directory below that is not pruned. */
  function Walk(prefix: string, entries: seq<Entry>, rules: Rules, excludes: Patterns): seq<SkillFile>
    decreases entries, 1
  {
    FilesIn(prefix, entries, rules, excludes) + WalkDirs(prefix, entries, rules, excludes)
  }

  function WalkDirs(prefix: string, entries: seq<Entry>, rules: Rules, excludes: Patterns): seq<SkillFile>
    decreases entries, 0
  {
    if entries == [] then []
    else
      (if IsKeptDir(prefix, entries[0], rules, excludes)
       then Walk(Join(prefix, entries[0].name), entries[0].entries, rules, excludes) else [])
      + WalkDirs(prefix, entries[1..], rules, excludes)
  }

  /** Lists one directory: its files, and the subdirectories that stay in the list to descend into. */
  method ListDirectory(prefix: string, entries: seq<Entry>, rules: Rules, excludes: Patterns)
    returns (files: seq<SkillFile>, dirs: seq<Entry>)
    ensures files == FilesIn(prefix, entries, rules, excludes)
    ensures dirs == KeptDirs(prefix, entries, rules, excludes)
  {
    hide FileAt, IsKeptDir;
    files, dirs := [], [];
    for i := 0 to |entries|
      invariant files + FilesIn(prefix, entries[i..], rules, excludes) == FilesIn(prefix, entries, rules, excludes)
      invariant dirs + KeptDirs(prefix, entries[i..], rules, excludes) == KeptDirs(prefix, entries, rules, excludes)
    {
      assert entries[i..][0] == entries[i] && entries[i..][1..] == entries[i + 1..];
      files := files + FileAt(prefix, entries[i], rules, excludes);
      if IsKeptDir(prefix, entries[i], rules, excludes) {
        dirs := dirs + [entries[i]];
      }
    }
  }

  /** The walk itself: list the directory, then descend into what the list kept. */
  method IterSkillFiles(prefix: string, entries: seq<Entry>, rules: Rules, excludes: Patterns)
    returns (files: seq<SkillFile>)
    ensures files == Walk(prefix, entries, rules, excludes)
    decreases entries
  {
    hide Walk, WalkDirs, FilesIn, KeptDirs;
    var dirs;
    files, dirs := ListDirectory(prefix, entries, rules, excludes);
    WalkUnfolds(prefix, entries, rules, excludes);
    assert dirs[0..] == dirs;
    for i := 0 to |dirs|
      invariant files + WalkAll(prefix, dirs[i..], rules, excludes) == Walk(prefix, entries, rules, excludes)
    {
      assert dirs[i..][0] == dirs[i] && dirs[i..][1..] == dirs[i + 1..];
      assert dirs[i] in dirs;
      var below := IterSkillFiles(Join(prefix, dirs[i].name), dirs[i].entries, rules, excludes);
      ghost var rest := WalkAll(prefix, dirs[i + 1..], rules, excludes);
      assert files + (below + rest) == (files + below) + rest;
      files := files + below;
    }
  }

  lemma WalkUnfolds(prefix: string, entries: seq<Entry>, rules: Rules, excludes: Patterns)
    ensures Walk(prefix, entries, rules, excludes) ==
            FilesIn(prefix, entries, rules, excludes) +
              WalkAll(prefix, KeptDirs(prefix, entries, rules, excludes), rules, excludes)
  {
    WalkAllIsWalkDirs(prefix, entries, rules, excludes);
  }

  function WalkAll(prefix: string, dirs: seq<Entry>, rules: Rules, excludes: Patterns): seq<SkillFile>
    requires forall d :: d in dirs ==> d.DirEntry?
  {
    if dirs == [] then []
    else
      Walk(Join(prefix, dirs[0].name), dirs[0].entries, rules, excludes) +
        WalkAll(prefix, dirs[1..], rules, excludes)
  }

  lemma {:induction false} WalkAllIsWalkDirs(prefix: string, entries: seq<Entry>, rules: Rules, excludes: Patterns)
    ensures WalkAll(prefix, KeptDirs(prefix, entries, rules, excludes), rules, excludes) ==
      WalkDirs(prefix, entries, rules, excludes)
    decreases |entries|
  {
    hide IsKeptDir;
    if entries != [] {
      WalkAllIsWalkDirs(prefix, entries[1..], rules, excludes);
      var rest := KeptDirs(prefix, entries[1..], rules, excludes);
      if IsKeptDir(prefix, entries[0], rules, excludes) {
        assert KeptDirs(prefix, entries, rules, excludes) == [entries[0]] + rest;
        assert ([entries[0]] + rest)[1..] == rest;
      } else {
        assert KeptDirs(prefix, entries, rules, excludes) == rest;
      }
    }
  }

  // ----- what the walk finds ------------------------------------------------------------------------------------

  /** Neither the built-in rules for paths nor the patterns exclude this path. */
  ghost predicate PathStays(rules: Rules, rel: string, excludes: Patterns) {
    !rules.pathSkipped(rel) && forall i :: 0 <= i < |excludes| ==> !Matches(rel, excludes[i])
  }

  /**
   Following directories by position leads to the file `f`, past no directory that is skipped by its name or path or
   that is a skill of its own.
   */
  ghost predicate FoundAt(prefix: string, entries: seq<Entry>, rules: Rules, excludes: Patterns, route: seq<int>,
                          f: SkillFile)
    decreases |route|
  {
    && route != [] && 0 <= route[0] < |entries|
    && var e := entries[route[0]];
       if |route| == 1 then
         && e.FileEntry? && !rules.fileSkipped(e.name) && PathStays(rules, Join(prefix, e.name), excludes)
         && f == SkillFile(Join(prefix, e.name), e.size, e.digest)
       else
         && e.DirEntry? && !rules.dirSkipped(e.name) && PathStays(rules, Join(prefix, e.name), excludes)
         && (forall k :: 0 <= k < |e.entries| ==> e.entries[k].name != "SKILL.md")
         && FoundAt(Join(prefix, e.name), e.entries, rules, excludes, route[1..], f)
  }

  lemma {:induction false} ListedFileIsKept(prefix: string, entries: seq<Entry>, rules: Rules, excludes: Patterns,
                                            f: SkillFile)
    ensures f in FilesIn(prefix, entries, rules, excludes) <==>
              exists i :: 0 <= i < |entries| && f in FileAt(prefix, entries[i], rules, excludes)
    decreases |entries|
  {
    hide FileAt;
    if entries != [] {
      ListedFileIsKept(prefix, entries[1..], rules, excludes, f);
      assert forall i :: 0 < i < |entries| ==> entries[i] == entries[1..][i - 1];
      if i :| 0 <= i < |entries[1..]| && f in FileAt(prefix, entries[1..][i], rules, excludes) {
        assert f in FileAt(prefix, entries[i + 1], rules, excludes);
      }
    }
  }

  /** The walk visits exactly the kept subdirectories. */
  lemma {:induction false} VisitedDirIsKept(prefix: string, entries: seq<Entry>, rules: Rules, excludes: Patterns,
                                            f: SkillFile)
    ensures f in WalkDirs(prefix, entries, rules, excludes) <==>
              exists i :: 0 <= i < |entries| && InKeptDir(prefix, entries[i], rules, excludes, f)
    decreases |entries|
  {
    hide IsKeptDir, Walk, InKeptDir;
    if entries != [] {
      VisitedDirIsKept(prefix, entries[1..], rules, excludes, f);
      InKeptDirMeans(prefix, entries[0], rules, excludes, f);
      assert forall i :: 0 < i < |entries| ==> entries[i] == entries[1..][i - 1];
      if i :| 0 <= i < |entries[1..]| && InKeptDir(prefix, entries[1..][i], rules, excludes, f) {
        assert InKeptDir(prefix, entries[i + 1], rules, excludes, f);
      }
    }
  }

  ghost predicate InKeptDir(prefix: string, e: Entry, rules: Rules, excludes: Patterns, f: SkillFile) {
    IsKeptDir(prefix, e, rules, excludes) && f in Walk(Join(prefix, e.name), e.entries, rules, excludes)
  }

  lemma InKeptDirMeans(prefix: string, e: Entry, rules: Rules, excludes: Patterns, f: SkillFile)
    ensures InKeptDir(prefix, e, rules, excludes, f) <==>
              IsKeptDir(prefix, e, rules, excludes) && f in Walk(Join(prefix, e.name), e.entries, rules, excludes)
  {
  }

  /** What the walk checks on a file and on a directory, spelled out. */
  lemma KeptMeans(prefix: string, e: Entry, rules: Rules, excludes: Patterns)
    ensures e.FileEntry? ==>
              (KeepsFile(rules, e.name, Join(prefix, e.name), excludes) <==>
                 !rules.fileSkipped(e.name) && PathStays(rules, Join(prefix, e.name), excludes))
    ensures IsKeptDir(prefix, e, rules, excludes) <==>
              && e.DirEntry? && !rules.dirSkipped(e.name) && PathStays(rules, Join(prefix, e.name), excludes)
              && forall k :: 0 <= k < |e.entries| ==> e.entries[k].name != "SKILL.md"
  {
  }

  lemma {:induction false} FoundFileIsWalked(prefix: string, entries: seq<Entry>, rules: Rules, excludes: Patterns,
                                             route: seq<int>, f: SkillFile)
    requires FoundAt(prefix, entries, rules, excludes, route, f)
    ensures f in Walk(prefix, entries, rules, excludes)
    decreases |route|
  {
    hide KeepsFile, Descends, FilesIn, WalkDirs, PathStays;
    var e := entries[route[0]];
    KeptMeans(prefix, e, rules, excludes);
    ListedFileIsKept(prefix, entries, rules, excludes, f);
    VisitedDirIsKept(prefix, entries, rules, excludes, f);
    if |route| == 1 {
      assert f in FileAt(prefix, e, rules, excludes);
    } else {
      FoundFileIsWalked(Join(prefix, e.name), e.entries, rules, excludes, route[1..], f);
      assert InKeptDir(prefix, e, rules, excludes, f);
    }
  }

  lemma {:induction false} WalkedFileIsFound(prefix: string, entries: seq<Entry>, rules: Rules, excludes: Patterns,
                                             f: SkillFile)
    returns (route: seq<int>)
    requires f in Walk(prefix, entries, rules, excludes)
    ensures FoundAt(prefix, entries, rules, excludes, route, f)
    decreases entries
  {
    hide KeepsFile, Descends, FilesIn, WalkDirs, PathStays;
    ListedFileIsKept(prefix, entries, rules, excludes, f);
    VisitedDirIsKept(prefix, entries, rules, excludes, f);
    if f in FilesIn(prefix, entries, rules, excludes) {
      var i :| 0 <= i < |entries| && f in FileAt(prefix, entries[i], rules, excludes);
      KeptMeans(prefix, entries[i], rules, excludes);
      route := [i];
    } else {
      var i :| 0 <= i < |entries| && InKeptDir(prefix, entries[i], rules, excludes, f);
      KeptMeans(prefix, entries[i], rules, excludes);
      var rest := WalkedFileIsFound(Join(prefix, entries[i].name), entries[i].entries, rules, excludes, f);
      route := [i] + rest;
      assert route[1..] == rest;
    }
  }

  /** The walk finds exactly the kept files that a route of kept directories leads to. */
  lemma WalkFindsReachableFiles(prefix: string, entries: seq<Entry>, rules: Rules, excludes: Patterns, f: SkillFile)
    ensures f in Walk(prefix, entries, rules, excludes) <==>
              exists route: seq<int> :: FoundAt(prefix, entries, rules, excludes, route, f)
  {
    hide Walk, FoundAt;
    if f in Walk(prefix, entries, rules, excludes) {
      var route := WalkedFileIsFound(prefix, entries, rules, excludes, f);
    }
    forall route: seq<int> | FoundAt(prefix, entries, rules, excludes, route, f)
      ensures f in Walk(prefix, entries, rules, excludes)
    {
      FoundFileIsWalked(prefix, entries, rules, excludes, route, f);
    }
  }

  // ----- pruning equals filtering -------------------------------------------------------------------------

  /** The flat filter of a published file list. */
  function Filter(files: seq<SkillFile>, patterns: Patterns): seq<SkillFile> {
    if files == [] then []
    else (if IsExcluded(files[0].path, patterns) then [] else [files[0]]) + Filter(files[1..], patterns)
  }

  /** A pattern that names no directory entry by its bare name: empty after stripping, or with a slash inside. */
  predicate IsDeep(pattern: string) {
    StripSlashes(pattern) == "" || '/' in StripSlashes(pattern)
  }

  ghost predicate AllDeep(patterns: Patterns) {
    forall i :: 0 <= i < |patterns| ==> IsDeep(patterns[i])
  }

  ghost predicate WellNamed(entries: seq<Entry>)
    decreases entries
  {
    forall i :: 0 <= i < |entries| ==> entries[i].name != "" && (entries[i].DirEntry? ==> WellNamed(entries[i].entries))
  }

  lemma ExcludedByEither(rel: string, a: Patterns, b: Patterns)
    ensures IsExcluded(rel, a + b) <==> IsExcluded(rel, a) || IsExcluded(rel, b)
  {
    var both := a + b;
    if IsExcluded(rel, a) {
      var i :| 0 <= i < |a| && Matches(rel, a[i]);
      assert both[i] == a[i];
    }
    if IsExcluded(rel, b) {
      var i :| 0 <= i < |b| && Matches(rel, b[i]);
      assert both[|a| + i] == b[i];
    }
  }

  /** Excluding a directory by deep patterns excludes every path below it. */
  lemma DeepExclusionIsInherited(dir: string, rest: string, patterns: Patterns)
    requires AllDeep(patterns) && IsExcluded(dir, patterns)
    ensures IsExcluded(dir + "/" + rest, patterns)
  {
    var i :| 0 <= i < |patterns| && Matches(dir, patterns[i]);
    var clean := StripSlashes(patterns[i]);
    assert IsDeep(patterns[i]);
    var below := dir + "/" + rest;
    assert clean + "/" <= below by {
      if dir != clean {
        assert clean + "/" <= dir;
        assert dir[..|clean| + 1] == below[..|clean| + 1];
      }
    }
    assert Matches(below, patterns[i]);
  }

  lemma {:induction false} FilterConcat(a: seq<SkillFile>, b: seq<SkillFile>, patterns: Patterns)
    ensures Filter(a + b, patterns) == Filter(a, patterns) + Filter(b, patterns)
    decreases |a|
  {
    hide IsExcluded;
    if a == [] {
      assert a + b == b;
    } else {
      assert (a + b)[0] == a[0] && (a + b)[1..] == a[1..] + b;
      FilterConcat(a[1..], b, patterns);
    }
  }

  lemma {:induction false} FilterAllExcluded(files: seq<SkillFile>, patterns: Patterns)
    requires forall i :: 0 <= i < |files| ==> IsExcluded(files[i].path, patterns)
    ensures Filter(files, patterns) == []
    decreases |files|
  {
    hide IsExcluded;
    if files != [] {
      FilterAllExcluded(files[1..], patterns);
    }
  }

  ghost predicate AllBelow(files: seq<SkillFile>, dir: string) {
    forall i :: 0 <= i < |files| ==> dir + "/" <= files[i].path
  }

  /** Every path of a walk lies below its directory. */
  lemma {:induction false} WalkStaysBelow(prefix: string, entries: seq<Entry>, rules: Rules, excludes: Patterns)
    requires prefix != ""
    ensures AllBelow(FilesIn(prefix, entries, rules, excludes), prefix)
    ensures AllBelow(WalkDirs(prefix, entries, rules, excludes), prefix)
    decreases entries
  {
    hide KeepsFile, Descends;
    if entries != [] {
      WalkStaysBelow(prefix, entries[1..], rules, excludes);
      if IsKeptDir(prefix, entries[0], rules, excludes) {
        var dir := Join(prefix, entries[0].name);
        WalkStaysBelow(dir, entries[0].entries, rules, excludes);
        BelowIsTransitive(Walk(dir, entries[0].entries, rules, excludes), prefix, entries[0].name);
      }
    }
  }

  lemma BelowIsTransitive(files: seq<SkillFile>, prefix: string, name: string)
    requires AllBelow(files, prefix + "/" + name)
    ensures AllBelow(files, prefix)
  {
    forall i | 0 <= i < |files|
      ensures prefix + "/" <= files[i].path
    {
      var path := files[i].path;
      assert prefix + "/" + name + "/" <= path;
      assert (prefix + "/" + name + "/")[..|prefix| + 1] == prefix + "/";
      assert path[..|prefix| + 1] == prefix + "/";
    }
  }

  lemma PrunedDirectoryIsFiltered(dir: string, entries: seq<Entry>, rules: Rules, manifest: Patterns, ignored: Patterns)
    requires dir != "" && AllDeep(ignored) && IsExcluded(dir, ignored)
    ensures Filter(Walk(dir, entries, rules, manifest), ignored) == []
  {
    var files := Walk(dir, entries, rules, manifest);
    WalkStaysBelow(dir, entries, rules, manifest);
    forall i | 0 <= i < |files|
      ensures IsExcluded(files[i].path, ignored)
    {
      assert dir + "/" <= files[i].path;
      var rest := files[i].path[|dir| + 1..];
      assert files[i].path == dir + "/" + rest;
      DeepExclusionIsInherited(dir, rest, ignored);
    }
    FilterAllExcluded(files, ignored);
  }

  lemma {:induction false} FilesAreFiltered(prefix: string, entries: seq<Entry>, rules: Rules, manifest: Patterns,
                                            ignored: Patterns)
    ensures FilesIn(prefix, entries, rules, manifest + ignored) ==
      Filter(FilesIn(prefix, entries, rules, manifest), ignored)
    decreases |entries|
  {
    hide IsExcluded;
    if entries != [] {
      var e := entries[0];
      FilesAreFiltered(prefix, entries[1..], rules, manifest, ignored);
      FilterConcat(FileAt(prefix, e, rules, manifest), FilesIn(prefix, entries[1..], rules, manifest), ignored);
      ExcludedByEither(Join(prefix, e.name), manifest, ignored);
      assert Filter(FileAt(prefix, e, rules, manifest), ignored) == FileAt(prefix, e, rules, manifest + ignored);
    }
  }

  ghost predicate AllIgnored(files: seq<SkillFile>, ignored: Patterns) {
    forall i :: 0 <= i < |files| ==> IsExcluded(files[i].path, ignored)
  }

  /**
   Wherever the pruning walk stops at an ignored directory that the plain walk enters, the filter drops every file
   that the plain walk finds below it.
   */
  ghost predicate Agrees(prefix: string, entries: seq<Entry>, rules: Rules, manifest: Patterns, ignored: Patterns)
    decreases entries
  {
    entries == [] ||
    (&& Agrees(prefix, entries[1..], rules, manifest, ignored)
     && var e, dir := entries[0], Join(prefix, entries[0].name);
        IsKeptDir(prefix, e, rules, manifest) ==>
          if IsExcluded(dir, ignored) then AllIgnored(Walk(dir, e.entries, rules, manifest), ignored)
          else Agrees(dir, e.entries, rules, manifest, ignored))
  }

  lemma {:induction false} FilterEmptyIff(files: seq<SkillFile>, ignored: Patterns)
    ensures Filter(files, ignored) == [] <==> AllIgnored(files, ignored)
    decreases |files|
  {
    hide IsExcluded;
    if files != [] {
      FilterEmptyIff(files[1..], ignored);
      assert forall i :: 0 < i < |files| ==> files[i] == files[1..][i - 1];
    }
  }

  lemma EqualConcats<T>(a: seq<T>, b: seq<T>, a': seq<T>, b': seq<T>)
    requires |a| <= |a'| && |b| <= |b'|
    ensures a + b == a' + b' <==> a == a' && b == b'
  {
    if a + b == a' + b' {
      assert |a| == |a'|;
      assert a == (a + b)[..|a|] && a' == (a' + b')[..|a|];
      assert b == (a + b)[|a|..] && b' == (a' + b')[|a|..];
    }
  }

  /**
   Exactly when pruning equals filtering, for every tree and every list of patterns: the walk that also prunes the
   ignored paths finds no more files than the filter keeps, and the same list if and only if the two agree.
   */
  lemma {:induction false} PrunedWalkIsFilteredIff(prefix: string, entries: seq<Entry>, rules: Rules,
                                                   manifest: Patterns, ignored: Patterns)
    ensures
      var pruned := Walk(prefix, entries, rules, manifest + ignored);
      var filtered := Filter(Walk(prefix, entries, rules, manifest), ignored);
      |pruned| <= |filtered| && (pruned == filtered <==> Agrees(prefix, entries, rules, manifest, ignored))
    decreases entries, 1
  {
    hide FilesIn, WalkDirs, Agrees;
    FilesAreFiltered(prefix, entries, rules, manifest, ignored);
    PrunedDirsAreFilteredIff(prefix, entries, rules, manifest, ignored);
    FilterConcat(FilesIn(prefix, entries, rules, manifest), WalkDirs(prefix, entries, rules, manifest), ignored);
    EqualConcats(FilesIn(prefix, entries, rules, manifest + ignored),
          WalkDirs(prefix, entries, rules, manifest + ignored),
                 Filter(FilesIn(prefix, entries, rules, manifest), ignored),
                 Filter(WalkDirs(prefix, entries, rules, manifest), ignored));
  }

  lemma {:induction false} PrunedDirsAreFilteredIff(prefix: string, entries: seq<Entry>, rules: Rules,
                                                    manifest: Patterns, ignored: Patterns)
    ensures
      var pruned := WalkDirs(prefix, entries, rules, manifest + ignored);
      var filtered := Filter(WalkDirs(prefix, entries, rules, manifest), ignored);
      |pruned| <= |filtered| && (pruned == filtered <==> Agrees(prefix, entries, rules, manifest, ignored))
    decreases entries, 0
  {
    hide Filter, IsExcluded, Walk, AllIgnored;
    FilterNothing(ignored);
    if entries != [] {
      var e, dir := entries[0], Join(prefix, entries[0].name);
      PrunedDirsAreFilteredIff(prefix, entries[1..], rules, manifest, ignored);
      ExcludedByEither(dir, manifest, ignored);
      var later := WalkDirs(prefix, entries[1..], rules, manifest);
      var later' := WalkDirs(prefix, entries[1..], rules, manifest + ignored);
      if !IsKeptDir(prefix, e, rules, manifest) {
        assert WalkDirs(prefix, entries, rules, manifest) == [] + later == later;
        assert WalkDirs(prefix, entries, rules, manifest + ignored) == [] + later' == later';
      } else {
        var below := Walk(dir, e.entries, rules, manifest);
        var below' := if IsExcluded(dir, ignored) then [] else Walk(dir, e.entries, rules, manifest + ignored);
        FilterConcat(below, later, ignored);
        FilterEmptyIff(below, ignored);
        assert WalkDirs(prefix, entries, rules, manifest) == below + later;
        assert WalkDirs(prefix, entries, rules, manifest + ignored) == below' + later';
        if !IsExcluded(dir, ignored) {
          PrunedWalkIsFilteredIff(dir, e.entries, rules, manifest, ignored);
        }
        EqualConcats(below', later', Filter(below, ignored), Filter(later, ignored));
      }
    }
  }

  /** Ignored paths with a slash agree on every tree. */
  lemma {:induction false} DeepPatternsAgree(prefix: string, entries: seq<Entry>, rules: Rules, manifest: Patterns,
                                             ignored: Patterns)
    requires AllDeep(ignored) && WellNamed(entries)
    ensures Agrees(prefix, entries, rules, manifest, ignored)
    decreases entries
  {
    hide AllDeep, IsExcluded, Walk, Filter, AllIgnored;
    if entries != [] {
      var e, dir := entries[0], Join(prefix, entries[0].name);
      assert forall i :: 0 < i < |entries| ==> entries[i] == entries[1..][i - 1];
      DeepPatternsAgree(prefix, entries[1..], rules, manifest, ignored);
      if IsKeptDir(prefix, e, rules, manifest) {
        if IsExcluded(dir, ignored) {
          PrunedDirectoryIsFiltered(dir, e.entries, rules, manifest, ignored);
          FilterEmptyIff(Walk(dir, e.entries, rules, manifest), ignored);
        } else {
          DeepPatternsAgree(dir, e.entries, rules, manifest, ignored);
        }
      }
    }
  }

  /**
   The directory-pruning walk equals the flat filter: for every tree and ignored paths with a slash, the walk that
   also prunes the ignored paths finds exactly the files of the plain walk that the filter keeps, in order.
   */
  lemma PrunedWalkIsFilteredWalk(prefix: string, entries: seq<Entry>, rules: Rules, manifest: Patterns,
                                 ignored: Patterns)
    requires AllDeep(ignored) && WellNamed(entries)
    ensures Walk(prefix, entries, rules, manifest + ignored) == Filter(Walk(prefix, entries, rules, manifest), ignored)
  {
    hide *;
    DeepPatternsAgree(prefix, entries, rules, manifest, ignored);
    PrunedWalkIsFilteredIff(prefix, entries, rules, manifest, ignored);
  }

  lemma FilterNothing(patterns: Patterns)
    ensures Filter([], patterns) == []
  {
  }

  // ----- what it means that two projections agree ---------------------------------------------------------

  function FileSet(files: seq<SkillFile>): set<SkillFile> {
    set f | f in files
  }

  /** The files outside the ignored paths. */
  function Outside(files: seq<SkillFile>, ignored: Patterns): set<SkillFile> {
    set f | f in files && !IsExcluded(f.path, ignored)
  }

  lemma {:induction false} FilterKeepsOutside(files: seq<SkillFile>, ignored: Patterns)
    ensures FileSet(Filter(files, ignored)) == Outside(files, ignored)
    decreases |files|
  {
    hide IsExcluded;
    if files != [] {
      FilterKeepsOutside(files[1..], ignored);
      assert forall f :: f in files <==> f == files[0] || f in files[1..];
      assert forall f :: f in Filter(files[1..], ignored) <==> f in Outside(files[1..], ignored) by {
        assert forall f :: f in Filter(files[1..], ignored) <==> f in FileSet(Filter(files[1..], ignored));
      }
    }
  }

  /**
   The two projected hashes: the local tree walked with the ignored paths pruned, the published file list filtered.
   Where pruning and filtering agree, as they do for ignored paths with a slash, the hashes are equal if and only if
   both trees hold the same files outside the ignored paths.
   */
  lemma ProjectionsAgree(localTree: seq<Entry>, localExcludes: Patterns,
                         remoteTree: seq<Entry>, remoteExcludes: Patterns, rules: Rules, ignored: Patterns,
                         local: seq<SkillFile>, published: seq<SkillFile>, remote: seq<SkillFile>)
    requires Agrees("", localTree, rules, localExcludes, ignored) && Clean(local) && Clean(remote)
    requires SortedListing(local, FileSet(Walk("", localTree, rules, localExcludes + ignored)))
    requires SortedListing(published, FileSet(Walk("", remoteTree, rules, remoteExcludes)))
    requires SortedListing(remote, FileSet(Filter(published, ignored)))
    ensures Encode(local) == Encode(remote) <==>
              Outside(Walk("", localTree, rules, localExcludes), ignored) ==
                Outside(Walk("", remoteTree, rules, remoteExcludes), ignored)
  {
    hide Agrees, IsExcluded, Walk;
    PrunedWalkIsFilteredIff("", localTree, rules, localExcludes, ignored);
    FilterKeepsOutside(Walk("", localTree, rules, localExcludes), ignored);
    FilterKeepsOutside(published, ignored);
    var files := Walk("", remoteTree, rules, remoteExcludes);
    assert forall f :: f in published <==> f in FileSet(files);
    assert Outside(published, ignored) == Outside(files, ignored);
    StreamDependsOnFileSet(local, remote, Outside(Walk("", localTree, rules, localExcludes), ignored),
      Outside(published, ignored));
  }

  // ----- the patterns that break it -------------------------------------------------------------------------

  /** A tree with one file, in directory `pattern` below directory `outer`. */
  function NestedTree(outer: string, pattern: string, file: string): seq<Entry> {
    [DirEntry(outer, [DirEntry(pattern, [FileEntry(file, 1, "d")])])]
  }

  predicate Plain(name: string) {
    name != "" && '/' !in name && name != "SKILL.md"
  }

  /** The built-in rules leave this name and path alone. */
  predicate RulesAllow(rules: Rules, name: string, rel: string) {
    !rules.dirSkipped(name) && !rules.fileSkipped(name) && !rules.pathSkipped(rel)
  }

  lemma {:induction false} BaseNameOfPlain(dir: string, name: string)
    requires '/' !in name
    ensures BaseName(name) == name && BaseName(dir + "/" + name) == name
    decreases |name|
  {
    var path := dir + "/" + name;
    if name != "" {
      var n := |name| - 1;
      BaseNameOfPlain(dir, name[..n]);
      assert path[..|path| - 1] == dir + "/" + name[..n];
      assert name == name[..n] + [name[n]];
    }
  }

  lemma StripPlain(name: string)
    requires '/' !in name
    ensures StripSlashes(name) == name
  {
  }

  /** One pattern, one path: matching unfolded. */
  lemma ExcludedByOne(rel: string, pattern: string)
    ensures IsExcluded(rel, [pattern]) <==> Matches(rel, pattern)
    ensures !IsExcluded(rel, [])
  {
    assert [pattern][0] == pattern;
  }

  lemma PlainMatches(outer: string, pattern: string, file: string)
    requires Plain(outer) && Plain(pattern) && Plain(file) && outer != pattern && file != pattern
    ensures !Matches(outer, pattern)
    ensures Matches(outer + "/" + pattern, pattern)
    ensures !Matches(outer + "/" + pattern + "/" + file, pattern)
  {
    hide BaseName, StripSlashes;
    StripPlain(pattern);
    BaseNameOfPlain("", outer);
    BaseNameOfPlain(outer, pattern);
    BaseNameOfPlain(outer + "/" + pattern, file);
    var rel := outer + "/" + pattern + "/" + file;
    SlashPosition(outer, pattern, "");
    SlashPosition(outer, pattern, "/" + pattern + "/" + file);
    assert rel == outer + "/" + (pattern + "/" + file);
    assert outer + ("/" + pattern + "/" + file) == rel;
    assert outer + "" == outer;
    assert rel[|outer|] == '/';
  }

  /** A plain name followed by a slash is no prefix of another plain name continued by nothing or by a slash. */
  lemma SlashPosition(outer: string, pattern: string, rest: string)
    requires Plain(outer) && Plain(pattern) && outer != pattern
    requires rest == "" || rest[0] == '/'
    ensures !StartsWith(outer + rest, pattern + "/")
  {
    var s, start := outer + rest, pattern + "/";
    assert start[|pattern|] == '/' && start[..|pattern|] == pattern;
    if |pattern| < |outer| {
      assert s[|pattern|] == outer[|pattern|];
    } else if |pattern| > |outer| {
      assert rest != "" ==> s[|outer|] == '/';
      assert start[|outer|] == pattern[|outer|];
    } else {
      assert s[..|outer|] == outer;
    }
  }

  /**
   Why the slash is needed: below the top level, a bare directory name is pruned by the walk but not by the filter,
   so the two projections of the same tree differ.
   */
  lemma BareNameDiverges(rules: Rules, outer: string, pattern: string, file: string)
    requires Plain(outer) && Plain(pattern) && Plain(file) && outer != pattern && file != pattern
    requires RulesAllow(rules, outer, outer) && RulesAllow(rules, pattern, outer + "/" + pattern)
    requires RulesAllow(rules, file, outer + "/" + pattern + "/" + file)
    ensures !IsDeep(pattern)
    ensures
      var tree := NestedTree(outer, pattern, file);
      && Walk("", tree, rules, [] + [pattern]) == []
      && Filter(Walk("", tree, rules, []), [pattern]) == [SkillFile(outer + "/" + pattern + "/" + file, 1, "d")]
    ensures !Agrees("", NestedTree(outer, pattern, file), rules, [], [pattern])
  {
    hide Matches, IsExcluded, Walk, Agrees, NestedTree, BaseName, RulesAllow;
    StripPlain(pattern);
    PlainMatches(outer, pattern, file);
    var path := outer + "/" + pattern + "/" + file;
    assert [] + [pattern] == [pattern];
    ExcludedByOne(path, pattern);
    NestedWalks(rules, outer, pattern, file);
    assert [SkillFile(path, 1, "d")][1..] == [];
    PrunedWalkIsFilteredIff("", NestedTree(outer, pattern, file), rules, [], [pattern]);
  }

  /** The nested tree without its pattern pruned, and with it. */
  lemma NestedWalks(rules: Rules, outer: string, pattern: string, file: string)
    requires Plain(outer) && Plain(pattern) && Plain(file)
    requires !Matches(outer, pattern) && Matches(outer + "/" + pattern, pattern)
    requires RulesAllow(rules, outer, outer) && RulesAllow(rules, pattern, outer + "/" + pattern)
    requires RulesAllow(rules, file, outer + "/" + pattern + "/" + file)
    ensures Walk("", NestedTree(outer, pattern, file), rules, [pattern]) == []
    ensures Walk("", NestedTree(outer, pattern, file), rules, []) ==
              [SkillFile(outer + "/" + pattern + "/" + file, 1, "d")]
  {
    hide Matches, IsExcluded, Walk;
    var inner := [FileEntry(file, 1, "d")];
    var middle := [DirEntry(pattern, inner)];
    ExcludedByOne(outer, pattern);
    ExcludedByOne(outer + "/" + pattern, pattern);
    ExcludedByOne(outer + "/" + pattern + "/" + file, pattern);
    OneDirWalk("", DirEntry(outer, middle), rules, [pattern]);
    OneDirWalk(outer, DirEntry(pattern, inner), rules, [pattern]);
    OneDirWalk("", DirEntry(outer, middle), rules, []);
    OneDirWalk(outer, DirEntry(pattern, inner), rules, []);
    OneFileWalk(outer + "/" + pattern, file, rules, []);
  }

  lemma OneDirWalk(prefix: string, e: Entry, rules: Rules, excludes: Patterns)
    requires e.DirEntry?
    ensures Walk(prefix, [e], rules, excludes) ==
            if IsKeptDir(prefix, e, rules, excludes) then Walk(Join(prefix, e.name), e.entries, rules, excludes) else []
  {
    hide IsKeptDir;
    assert [e][1..] == [];
    assert FilesIn(prefix, [e], rules, excludes) ==
      FileAt(prefix, e, rules, excludes) + FilesIn(prefix, [], rules, excludes);
    assert WalkDirs(prefix, [], rules, excludes) == [];
  }

  lemma OneFileWalk(prefix: string, name: string, rules: Rules, excludes: Patterns)
    requires KeepsFile(rules, name, Join(prefix, name), excludes)
    ensures Walk(prefix, [FileEntry(name, 1, "d")], rules, excludes) == [SkillFile(Join(prefix, name), 1, "d")]
  {
    var e := FileEntry(name, 1, "d");
    assert [e][1..] == [];
    assert WalkDirs(prefix, [e], rules, excludes) == [] + WalkDirs(prefix, [], rules, excludes);
    assert FilesIn(prefix, [e], rules, excludes) ==
      FileAt(prefix, e, rules, excludes) + FilesIn(prefix, [], rules, excludes);
  }
}
