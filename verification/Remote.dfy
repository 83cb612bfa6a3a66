/**
 The shared remote: an index file and content-addressed archives, changed by single atomic puts.

 Uploads write archives first and the index last; nothing is ever deleted. `past` remembers every index
 ever stored and `trace` the state after every put this device made.
 */
module Remote {
  import opened Common
  import opened SyncState

  datatype Path = IndexPath | ArchivePath(source: string, id: SkillId, content: Content)
  datatype Blob = IndexBlob(index: Index) | ArchiveBlob(content: Content)
  type Files = map<Path, Blob>

  function ArchiveOf(id: SkillId, e: Entry): Path {
    ArchivePath(e.source, id, e.content)
  }

  /** The index file of a remote; a remote without one behaves like an empty index. */
  function IndexOf(files: Files): Index {
    if IndexPath in files && files[IndexPath].IndexBlob? then files[IndexPath].index else map[]
  }

  /** The id -> content hash dictionary of an index. */
  function Hashes(index: Index): Skills {
    map id | id in index :: index[id].content
  }

  /** Archive files hold the content their path names. */
  ghost predicate WellKept(files: Files) {
    forall p :: p in files && p.ArchivePath? ==> files[p] == ArchiveBlob(p.content)
  }

  /** Every archive the index names exists. */
  predicate Closed(index: Index, files: Files) {
    forall id :: id in index ==> ArchiveOf(id, index[id]) in files
  }

  class RemoteStore {
    var files: Files
    ghost var past: set<Index>
    ghost var trace: seq<Files>

    ghost predicate Valid()
      reads this
    {
      && WellKept(files)
      && (IndexPath in files ==> files[IndexPath].IndexBlob? && IndexOf(files) in past)
    }

    /** Index integrity: a reader holding the current index or any past one finds every archive. */
    ghost predicate Intact()
      reads this
    {
      forall x :: x in past ==> Closed(x, files)
    }

    method PutArchive(p: Path)
      requires Valid() && p.ArchivePath?
      modifies this
      ensures Valid() && (old(Intact()) ==> Intact())
      ensures files == old(files)[p := ArchiveBlob(p.content)]
      ensures past == old(past) && trace == old(trace) + [files]
    {
      files := files[p := ArchiveBlob(p.content)];
      trace := trace + [files];
    }

    method PutIndex(index: Index)
      requires Valid()
      modifies this
      ensures Valid() && (old(Intact()) ==> (Intact() <==> Closed(index, files)))
      ensures files == old(files)[IndexPath := IndexBlob(index)]
      ensures past == old(past) + {index} && trace == old(trace) + [files]
    {
      files := files[IndexPath := IndexBlob(index)];
      past := past + {index};
      trace := trace + [files];
    }

    /** Other devices upload meanwhile: indexes are replaced and files added, nothing disappears. */
    method Interference()
      requires Valid()
      modifies this
      ensures Valid() && old(past) <= past && old(files).Keys <= files.Keys && trace == old(trace)
      ensures old(Intact()) ==> Intact()
    {
    }

    /** Completes a cache for an index read earlier, while other devices keep uploading; stops at a missing archive. */
    method FetchArchives(held: Index, cache: Files) returns (cache': Files, missing: Option<Path>)
      requires Valid() && WellKept(cache)
      modifies this
      ensures Valid() && trace == old(trace) && (old(Intact()) ==> Intact())
      ensures old(files).Keys <= files.Keys
      ensures WellKept(cache') && forall p :: p in cache ==> p in cache' && cache'[p] == cache[p]
      ensures old(Intact()) && held in old(past) ==> missing.None?
      ensures missing.None? ==> Closed(held, cache')
      ensures missing.Some? ==>
                && missing.value !in cache' && missing.value !in old(files)
                && exists id :: id in held && ArchiveOf(id, held[id]) == missing.value
    {
      cache' := cache;
      var remaining := held.Keys;
      while remaining != {}
        invariant Valid() && WellKept(cache') && old(past) <= past && (old(Intact()) ==> Intact())
        invariant trace == old(trace) && old(files).Keys <= files.Keys
        invariant remaining <= held.Keys
        invariant forall id :: id in held && id !in remaining ==> ArchiveOf(id, held[id]) in cache'
        invariant forall p :: p in cache ==> p in cache' && cache'[p] == cache[p]
      {
        var id :| id in remaining;
        remaining := remaining - {id};
        var p := ArchiveOf(id, held[id]);
        if p !in cache' {
          Interference();
          if p !in files { return cache', Some(p); }
          cache' := cache'[p := files[p]];
        }
      }
      return cache', None;
    }

    /**
     Reads the index into the cache, then every archive it names that the cache lacks. It fails only for a file that
     was not there when it began; an intact remote lacks at most the index.
     */
    method DownloadSnapshot(cache: Files) returns (cache': Files, missing: Option<Path>)
      requires Valid() && WellKept(cache)
      modifies this
      ensures Valid() && trace == old(trace) && (old(Intact()) ==> Intact())
      ensures WellKept(cache')
      ensures old(Intact()) ==> (missing.None? <==> IndexPath in old(files))
      ensures missing.Some? ==> missing.value !in old(files)
      ensures IndexPath !in old(files) ==> cache' == cache && missing == Some(IndexPath)
      ensures IndexPath in old(files) ==> IndexPath in cache' && IndexOf(cache') == IndexOf(old(files))
      ensures missing.Some? && missing != Some(IndexPath) ==>
                && missing.value !in cache
                && exists id :: id in IndexOf(cache') && ArchiveOf(id, IndexOf(cache')[id]) == missing.value
      ensures missing.None? ==> Closed(IndexOf(cache'), cache')
      ensures old(files).Keys <= files.Keys
    {
      if IndexPath !in files { return cache, Some(IndexPath); }
      cache', missing := FetchArchives(IndexOf(files), cache[IndexPath := files[IndexPath]]);
    }

    /** The archive puts of an upload; `all` says whether none was cut off by the budget. */
    method UploadArchives(wanted: set<Path>, skipExisting: bool, budget: nat) returns (uploaded: seq<Path>, all: bool)
      requires Valid()
      requires forall p: Path :: p in wanted ==> p.ArchivePath?
      modifies this
      ensures Valid() && past == old(past) && (old(Intact()) ==> Intact())
      ensures |old(trace)| <= |trace|
      ensures old(Intact()) ==> forall i :: |old(trace)| <= i < |trace| ==> Integrity(past, trace[i])
      ensures Uploaded(uploaded, wanted, skipExisting, old(files))
      ensures forall p :: Get(files, p) == AfterUpload(old(files), uploaded, p)
      ensures all <==> |Needed(wanted, skipExisting, old(files))| <= budget
      ensures |uploaded| == if all then |Needed(wanted, skipExisting, old(files))| else budget
      ensures all ==> forall p :: p in wanted ==> p in uploaded || (skipExisting && p in old(files))
    {
      uploaded := [];
      var remaining := wanted;
      while remaining != {}
        invariant remaining <= wanted
        invariant Valid() && past == old(past) && (old(Intact()) ==> Intact())
        invariant |old(trace)| <= |trace|
        invariant old(Intact()) ==> forall i :: |old(trace)| <= i < |trace| ==> Integrity(past, trace[i])
        invariant |uploaded| <= budget
        invariant Uploaded(uploaded, wanted, skipExisting, old(files))
        invariant forall p :: p in remaining ==> p !in uploaded
        invariant forall p :: p in wanted && p !in remaining ==> p in uploaded || (skipExisting && p in old(files))
        invariant forall p :: Get(files, p) == AfterUpload(old(files), uploaded, p)
      {
        ghost var before := uploaded;
        var p :| p in remaining;
        assert p in files <==> Get(files, p).Some?;
        if !(skipExisting && p in files) {
          if |uploaded| == budget {
            CountUploaded(uploaded, Needed(wanted, skipExisting, old(files)) - {p});
            return uploaded, false;
          }
          ghost var stored := files;
          PutArchive(p);
          uploaded := uploaded + [p];
          forall q
            ensures Get(files, q) == AfterUpload(old(files), uploaded, q)
          {
            assert Get(stored, q) == AfterUpload(old(files), before, q);
            assert q in uploaded <==> q in before || q == p;
          }
        }
        remaining := remaining - {p};
      }
      CountUploaded(uploaded, Needed(wanted, skipExisting, old(files)));
      return uploaded, true;
    }

    /**
     Uploads the archives of a snapshot that `selected` allows, then its index. Archives already present are
     left out when `skipExisting` is set. The connection breaks when a put beyond the first `budget` is tried, so
     the upload is complete if and only if the budget covers the needed archives and the index.
     */
    method UploadSnapshot(archives: set<Path>, index: Index, selected: set<Path>, skipExisting: bool, budget: nat)
      returns (uploaded: seq<Path>, complete: bool)
      requires Valid()
      requires forall p: Path :: p in archives ==> p.ArchivePath?
      modifies this
      ensures Valid()
      ensures |old(trace)| <= |trace|
      ensures old(Intact()) && Covered(index, old(files), archives * selected) ==>
                Intact() && forall i :: |old(trace)| <= i < |trace| ==> Integrity(old(past), trace[i])
      ensures old(Intact()) && complete ==> (Intact() <==> Covered(index, old(files), archives * selected))
      ensures Uploaded(uploaded, archives * selected, skipExisting, old(files))
      ensures complete ==> forall p :: p in archives * selected ==> p in uploaded || (skipExisting && p in old(files))
      ensures complete <==> |Needed(archives * selected, skipExisting, old(files))| < budget
      ensures |uploaded| == if complete then |Needed(archives * selected, skipExisting, old(files))| else budget
      ensures forall p :: p != IndexPath ==> Get(files, p) == AfterUpload(old(files), uploaded, p)
      ensures Get(files, IndexPath) == if complete then Some(IndexBlob(index)) else Get(old(files), IndexPath)
      ensures past == if complete then old(past) + {index} else old(past)
    {
      uploaded, complete := UploadArchives(archives * selected, skipExisting, budget);
      if !complete || |uploaded| == budget { return uploaded, false; }
      ghost var stored := files;
      forall id | id in index
        ensures ArchiveOf(id, index[id]) in stored <==>
                  ArchiveOf(id, index[id]) in old(files) || ArchiveOf(id, index[id]) in archives * selected
      {
        var p := ArchiveOf(id, index[id]);
        assert Get(stored, p) == AfterUpload(old(files), uploaded, p);
      }
      PutIndex(index);
    }
  }

  /** The puts of an upload: distinct, wanted, and not skipped. */
  ghost predicate Uploaded(uploaded: seq<Path>, wanted: set<Path>, skipExisting: bool, before: Files) {
    && (forall i, j :: 0 <= i < j < |uploaded| ==> uploaded[i] != uploaded[j])
    && (forall p :: p in uploaded ==> p in wanted && !(skipExisting && p in before))
  }

  /** The archives an upload has to put. */
  function Needed(wanted: set<Path>, skipExisting: bool, before: Files): set<Path> {
    set p | p in wanted && !(skipExisting && p in before)
  }

  /** Distinct puts are counted by the set they come from. */
  lemma {:induction false} CountUploaded(uploaded: seq<Path>, paths: set<Path>)
    requires forall i, j :: 0 <= i < j < |uploaded| ==> uploaded[i] != uploaded[j]
    requires forall p :: p in uploaded ==> p in paths
    ensures |uploaded| <= |paths|
    ensures (forall p :: p in paths ==> p in uploaded) ==> |uploaded| == |paths|
    decreases |uploaded|
  {
    if uploaded == [] {
      assert (forall p :: p in paths ==> p in uploaded) ==> paths == {};
    } else {
      var n := |uploaded| - 1;
      CountUploaded(uploaded[..n], paths - {uploaded[n]});
      assert forall i :: 0 <= i < n ==> uploaded[..n][i] == uploaded[i];
      assert uploaded[n] in uploaded;
    }
  }

  function AfterUpload(before: Files, uploaded: seq<Path>, p: Path): Option<Blob> {
    if p in uploaded && p.ArchivePath? then Some(ArchiveBlob(p.content)) else Get(before, p)
  }

  /** Every archive the index names is stored already or among `uploads`. */
  ghost predicate Covered(index: Index, files: Files, uploads: set<Path>) {
    forall id :: id in index ==> ArchiveOf(id, index[id]) in files || ArchiveOf(id, index[id]) in uploads
  }

  /** In `files`, the stored index and every index of `past` are closed. */
  ghost predicate Integrity(past: set<Index>, files: Files) {
    && (forall x :: x in past ==> Closed(x, files))
    && Closed(IndexOf(files), files)
  }
}
