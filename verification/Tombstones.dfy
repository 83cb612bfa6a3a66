/**
 Delete records: a store of directories grouped by content signature, an index pointing into it, builds that add
 records and prunes that remove redundant ones.

 A record directory is named by a fresh, increasing serial number and carries its modification time.
 */
module Tombstones {
  import opened Common
  import opened SyncState

  /** What makes two delete records the same: the skill, the kind of deletion and the three hashes. */
  datatype Signature = Signature(skill: SkillId, action: Status, base: Option<Content>, local: Option<Content>,
                                 remote: Option<Content>)

  /** A one-sided deletion, as the classification reports it. */
  predicate IsDeletion(s: Signature) {
    s.action in {LocalDeleted, RemoteDeleted} && s.action == ClassifyHashes(s.base, s.local, s.remote)
  }

  /** `complete`: the base file and the material of a side are there. `holdsLink`: a link lies somewhere inside. */
  datatype Record = Record(sig: Signature, mtime: int, complete: bool, holdsLink: bool)

  datatype Serial = Serial(number: nat)
  type Dirs = map<Serial, Record>

  const YOUNG := 3600

  predicate Earlier(dirs: Dirs, a: Serial, b: Serial)
    requires a in dirs && b in dirs
  {
    dirs[a].mtime < dirs[b].mtime || (dirs[a].mtime == dirs[b].mtime && a.number < b.number)
  }

  predicate IsFirst(dirs: Dirs, n: Serial)
    requires n in dirs
  {
    forall m :: m in dirs && m != n && dirs[m].sig == dirs[n].sig ==> Earlier(dirs, n, m)
  }

  predicate IsLast(dirs: Dirs, n: Serial)
    requires n in dirs
  {
    forall m :: m in dirs && m != n && dirs[m].sig == dirs[n].sig ==> Earlier(dirs, m, n)
  }

  /** What a prune keeps. */
  predicate Kept(dirs: Dirs, refs: set<Serial>, now: int, n: Serial)
    requires n in dirs
  {
    IsFirst(dirs, n) || IsLast(dirs, n) || n in refs || now - dirs[n].mtime < YOUNG || dirs[n].holdsLink
  }

  function Pruned(dirs: Dirs, refs: set<Serial>, now: int): Dirs {
    map n | n in dirs && Kept(dirs, refs, now, n) :: dirs[n]
  }

  /** What a prune of the whole store removes. */
  function Redundant(dirs: Dirs, refs: set<Serial>, now: int): set<Serial> {
    set n | n in dirs && !Kept(dirs, refs, now, n)
  }

  /**
   Exactly which records a prune removes: those with an older and a newer record of the same signature, by time and
   then by name, that no index entry references, that are at least an hour old and that hold no link.
   */
  lemma PruneRemovesIff(dirs: Dirs, refs: set<Serial>, now: int, n: Serial)
    requires n in dirs
    ensures
      n !in Pruned(dirs, refs, now) <==>
        && (exists m :: m in dirs && dirs[m].sig == dirs[n].sig
              && (dirs[m].mtime < dirs[n].mtime || (dirs[m].mtime == dirs[n].mtime && m.number < n.number)))
        && (exists m :: m in dirs && dirs[m].sig == dirs[n].sig
              && (dirs[n].mtime < dirs[m].mtime || (dirs[n].mtime == dirs[m].mtime && n.number < m.number)))
        && n !in refs && now - dirs[n].mtime >= 3600 && !dirs[n].holdsLink
  {
  }

  predicate HasMaterial(s: Signature) {
    s.local.Some? || s.remote.Some?
  }

  /** A deletion always has material: the base version, on exactly the side that still holds the skill. */
  lemma DeletionHasMaterial(s: Signature)
    requires IsDeletion(s)
    ensures HasMaterial(s) && s.local.Some? != s.remote.Some? && s.base.Some?
    ensures if s.action == LocalDeleted then s.remote == s.base else s.local == s.base
  {
  }

  // ----- pruning as a function ---------------------------------------------------------------------------

  /** A prune keeps the first and the last record of every signature, and every referenced record. */
  lemma PruneKeepsEnds(dirs: Dirs, refs: set<Serial>, now: int, n: Serial)
    requires n in dirs
    ensures
      var p := Pruned(dirs, refs, now);
      && (IsFirst(dirs, n) ==> n in p && IsFirst(p, n))
      && (IsLast(dirs, n) ==> n in p && IsLast(p, n))
      && (n in refs ==> n in p)
  {
  }

  /** What one prune keeps, the same prune keeps again. */
  lemma PruneIsIdempotent(dirs: Dirs, refs: set<Serial>, now: int)
    ensures Pruned(Pruned(dirs, refs, now), refs, now) == Pruned(dirs, refs, now)
  {
    hide IsFirst, IsLast;
    var p := Pruned(dirs, refs, now);
    forall n | n in p
      ensures Kept(p, refs, now, n)
    {
      PruneKeepsEnds(dirs, refs, now, n);
    }
  }

  /** `after` lies between what a prune would leave and the store it started from. */
  ghost predicate Between(dirs: Dirs, refs: set<Serial>, now: int, after: Dirs) {
    && (forall n :: n in after ==> n in dirs && after[n] == dirs[n])
    && (forall n :: n in dirs && Kept(dirs, refs, now, n) ==> n in after)
  }

  /** However far a prune gets, the ends of every group stay its ends. */
  lemma PartialPruneKeepsEnds(dirs: Dirs, refs: set<Serial>, now: int, after: Dirs, n: Serial)
    requires Between(dirs, refs, now, after) && n in dirs
    ensures IsFirst(dirs, n) ==> n in after && IsFirst(after, n)
    ensures IsLast(dirs, n) ==> n in after && IsLast(after, n)
  {
  }

  ghost predicate HasComplete(dirs: Dirs, s: Signature) {
    exists n :: n in dirs && dirs[n].complete && dirs[n].sig == s
  }

  datatype PruneResult = NoIndex | MissingReference | Interrupted | Finished(removed: set<Serial>)

  datatype BuildError = RecordNotWritten | IndexNotWritten | PruneInterrupted

  datatype BuildReport = BuildReport(reused: nat, created: nat)

  /** The store still has the first and last record ever written for each signature, and they are its group's ends. */
  ghost predicate EndsAreKept(dirs: Dirs, first: map<Signature, Serial>, last: map<Signature, Serial>) {
    && (forall n :: n in dirs ==> dirs[n].sig in first && dirs[n].sig in last)
    && (forall s :: s in first ==> first[s] in dirs && dirs[first[s]].sig == s && IsFirst(dirs, first[s]))
    && (forall s :: s in last ==> last[s] in dirs && dirs[last[s]].sig == s && IsLast(dirs, last[s]))
  }

  lemma NewRecordIsLast(dirs: Dirs, n: Serial, record: Record)
    requires forall m :: m in dirs ==> m.number < n.number && dirs[m].mtime <= record.mtime
    ensures IsLast(dirs[n := record], n)
    ensures forall m :: m in dirs && IsFirst(dirs, m) ==> IsFirst(dirs[n := record], m)
    ensures forall m :: m in dirs && IsLast(dirs, m) && dirs[m].sig != record.sig ==> IsLast(dirs[n := record], m)
    ensures (forall m :: m in dirs ==> dirs[m].sig != record.sig) ==> IsFirst(dirs[n := record], n)
  {
  }

  lemma RecordingKeepsEnds(dirs: Dirs, n: Serial, first: map<Signature, Serial>, last: map<Signature, Serial>,
                           record: Record)
    requires EndsAreKept(dirs, first, last)
    requires forall m :: m in dirs ==> m.number < n.number && dirs[m].mtime <= record.mtime
    ensures EndsAreKept(dirs[n := record], if record.sig in first then first else first[record.sig := n],
      last[record.sig := n])
  {
    hide IsFirst, IsLast;
    NewRecordIsLast(dirs, n, record);
  }

  class ReportStore {
    var dirs: Dirs
    var index: Option<seq<Serial>>
    var nextSerial: nat
    /** The first and the last record ever written for each signature. */
    ghost var first: map<Signature, Serial>
    ghost var last: map<Signature, Serial>

    ghost predicate Valid()
      reads this
    {
      && (forall n :: n in dirs ==> n.number < nextSerial)
      && EndsAreKept(dirs, first, last)
    }

    /** Every path in the index exists. */
    ghost predicate IndexExists()
      reads this
    {
      index.Some? ==> forall n :: n in index.value ==> n in dirs
    }

    /** The records of one signature, oldest first. */
    method SortedGroup(s: Signature) returns (group: seq<Serial>)
      ensures IsSortedGroup(dirs, s, group)
    {
      group := [];
      var remaining := GroupOf(dirs, s);
      while remaining != {}
        invariant remaining <= GroupOf(dirs, s)
        invariant forall n :: n in group <==> n in GroupOf(dirs, s) && n !in remaining
        invariant forall i :: 0 <= i < |group| ==> group[i] in dirs
        invariant forall i, j :: 0 <= i < j < |group| ==> Earlier(dirs, group[i], group[j])
        invariant forall n, m :: n in group && m in remaining ==> Earlier(dirs, n, m)
      {
        var oldest :| oldest in remaining;
        var others := remaining - {oldest};
        while others != {}
          invariant others <= remaining && oldest in remaining && oldest !in others
          invariant forall n :: n in remaining && n !in others && n != oldest ==> Earlier(dirs, oldest, n)
        {
          var n :| n in others;
          others := others - {n};
          if Earlier(dirs, n, oldest) { oldest := n; }
        }
        group := group + [oldest];
        remaining := remaining - {oldest};
      }
    }

    /** The records of one signature that a prune may remove. */
    method RemovableOf(s: Signature, refs: set<Serial>, now: int) returns (removable: set<Serial>)
      ensures removable == set n | n in dirs && dirs[n].sig == s && !Kept(dirs, refs, now, n)
    {
      hide Earlier, IsFirst, IsLast;
      var group := SortedGroup(s);
      removable := {};
      for i := 0 to |group|
        invariant forall n :: n in removable <==> n in group[..i] && n in dirs && !Kept(dirs, refs, now, n)
      {
        var n := group[i];
        assert n in group && n in GroupOf(dirs, s);
        EndsOfGroup(dirs, s, group, i);
        var protects := n == group[0] || n == group[|group| - 1] || n in refs || now - dirs[n].mtime < YOUNG;
        if !protects && !dirs[n].holdsLink {
          removable := removable + {n};
        }
      }
      assert group[..|group|] == group;
      assert forall n :: n in group <==> n in dirs && dirs[n].sig == s;
    }

    method MissingReferences(refs: seq<Serial>) returns (missing: bool)
      ensures missing <==> exists n :: n in refs && n !in dirs
    {
      for i := 0 to |refs|
        invariant forall j :: 0 <= j < i ==> refs[j] in dirs
      {
        if refs[i] !in dirs {
          assert refs[i] in refs;
          return true;
        }
      }
      return false;
    }

    /** All records a prune may remove. */
    method Removable(refs: set<Serial>, now: int) returns (removable: set<Serial>)
      ensures removable == Redundant(dirs, refs, now)
    {
      hide Kept;
      removable := {};
      var signatures := set n | n in dirs :: dirs[n].sig;
      while signatures != {}
        invariant forall n :: n in removable <==> n in dirs && dirs[n].sig !in signatures && !Kept(dirs, refs, now, n)
      {
        var s :| s in signatures;
        signatures := signatures - {s};
        var more := RemovableOf(s, refs, now);
        removable := removable + more;
      }
    }

    /** Removes records one by one, until done or interrupted by an error after `removals` of them. */
    method RemoveRecords(removable: set<Serial>, removals: nat) returns (complete: bool)
      requires removable <= dirs.Keys
      modifies `dirs
      ensures complete <==> |removable| <= removals
      ensures |old(dirs).Keys - dirs.Keys| == if complete then |removable| else removals
      ensures forall n :: n in dirs ==> n in old(dirs) && dirs[n] == old(dirs)[n]
      ensures forall n :: n in old(dirs) && n !in removable ==> n in dirs
      ensures complete ==> forall n :: n in removable ==> n !in dirs
    {
      var remaining, done := removable, 0;
      while remaining != {}
        invariant remaining <= removable && done == |removable| - |remaining| <= removals
        invariant forall n :: n in dirs <==> n in old(dirs) && (n in remaining || n !in removable)
        invariant forall n :: n in dirs ==> dirs[n] == old(dirs)[n]
      {
        if done == removals {
          CountRemoved(old(dirs).Keys, dirs.Keys, removable, remaining);
          return false;
        }
        var n :| n in remaining;
        remaining := remaining - {n};
        dirs := dirs - {n};
        done := done + 1;
      }
      CountRemoved(old(dirs).Keys, dirs.Keys, removable, remaining);
      return true;
    }

    /**
     Removes redundant records; an error interrupts it when more than `removals` are tried. A missing reference
     is found before anything is removed.
     */
    method Prune(now: int, removals: nat) returns (r: PruneResult)
      requires Valid()
      modifies `dirs
      ensures Valid() && (old(IndexExists()) ==> IndexExists())
      ensures forall n :: n in dirs ==> n in old(dirs) && dirs[n] == old(dirs)[n]
      ensures r == NoIndex <==> index.None?
      ensures r == MissingReference <==> index.Some? && !old(IndexExists())
      ensures r in {NoIndex, MissingReference} ==> dirs == old(dirs)
      ensures r == Interrupted <==>
                && index.Some? && old(IndexExists())
                && removals < |Redundant(old(dirs), RefsOf(index.value), now)|
      ensures r == Interrupted ==>
                Between(old(dirs), RefsOf(index.value), now, dirs) && |old(dirs).Keys - dirs.Keys| == removals
      ensures r.Finished? ==>
                dirs == Pruned(old(dirs), RefsOf(index.value), now) && r.removed == old(dirs).Keys - dirs.Keys
    {
      hide Kept, EndsAreKept, Between;
      if index.None? { return NoIndex; }
      var missing := MissingReferences(index.value);
      if missing { return MissingReference; }
      var refs := RefsOf(index.value);
      var removable := Removable(refs, now);
      var complete := RemoveRecords(removable, removals);
      RemovalIsBetween(old(dirs), refs, now, removable, dirs);
      PruneKeepsValid(old(dirs), refs, now, dirs, first, last);
      PruneOnlyRemoves(old(dirs), refs, now, dirs);
      PruneKeepsReferences(old(dirs), refs, now, dirs);
      if !complete { return Interrupted; }
      return Finished(removable);
    }

    /** The newest complete record of every signature that has one. */
    method FindExisting() returns (existing: map<Signature, Serial>)
      ensures forall s :: s in existing <==> HasComplete(dirs, s)
      ensures forall s :: s in existing ==> IsNewestComplete(dirs, s, existing[s])
    {
      existing := map[];
      var remaining := dirs.Keys;
      while remaining != {}
        invariant remaining <= dirs.Keys
        invariant forall n :: n in dirs && n !in remaining && dirs[n].complete ==> dirs[n].sig in existing
        invariant forall s :: s in existing ==>
                    && existing[s] in dirs && dirs[existing[s]].complete && dirs[existing[s]].sig == s
                    && forall n :: n in dirs && n !in remaining && dirs[n].complete && dirs[n].sig == s ==>
                      dirs[n].mtime <= dirs[existing[s]].mtime
      {
        var n :| n in remaining;
        remaining := remaining - {n};
        var s := dirs[n].sig;
        if dirs[n].complete && (s !in existing || dirs[existing[s]].mtime <= dirs[n].mtime) {
          existing := existing[s := n];
        }
      }
    }

    /** Writes one complete record; its metadata is published last, so a failure leaves nothing. */
    method WriteTombstone(s: Signature, now: int, holdsLink: bool)
      requires Valid() && IsDeletion(s) && forall n :: n in dirs ==> dirs[n].mtime <= now
      modifies this
      ensures Valid() && index == old(index) && nextSerial == old(nextSerial) + 1
      ensures dirs == old(dirs)[Serial(old(nextSerial)) := Record(s, now, true, holdsLink)]
      ensures forall x :: x in old(first) ==> x in first && first[x] == old(first)[x]
    {
      hide EndsAreKept, ClassifyHashes;
      DeletionHasMaterial(s);
      RecordingKeepsEnds(dirs, Serial(nextSerial), first, last, Record(s, now, true, holdsLink));
      dirs := dirs[Serial(nextSerial) := Record(s, now, HasMaterial(s), holdsLink)];
      if s !in first { first := first[s := Serial(nextSerial)]; }
      last := last[s := Serial(nextSerial)];
      nextSerial := nextSerial + 1;
    }

    /** Writes the missing records; an error stops it when more than `writes` are tried. */
    method WritePending(pending: seq<Signature>, links: set<SkillId>, now: int, writes: nat) returns (complete: bool)
      requires Valid() && (forall s :: s in pending ==> IsDeletion(s)) && forall n :: n in dirs ==> dirs[n].mtime <= now
      modifies this
      ensures Valid() && index == old(index) && nextSerial >= old(nextSerial)
      ensures forall x :: x in old(first) ==> x in first && first[x] == old(first)[x]
      ensures Written(old(dirs), old(nextSerial), dirs, pending, links, now, nextSerial - old(nextSerial))
      ensures complete <==> |pending| <= writes
      ensures nextSerial - old(nextSerial) == if complete then |pending| else writes
    {
      hide EndsAreKept, Written, IsDeletion;
      ghost var before := dirs;
      var start := nextSerial;
      NothingWritten(dirs, start, pending, links, now);
      for i := 0 to |pending|
        invariant Valid() && index == old(index) && nextSerial == start + i && i <= writes
        invariant forall n :: n in dirs ==> dirs[n].mtime <= now
        invariant forall x :: x in old(first) ==> x in first && first[x] == old(first)[x]
        invariant Written(before, start, dirs, pending, links, now, i)
      {
        if i == writes { return false; }
        OneMoreWritten(before, start, dirs, pending, links, now, i);
        WriteTombstone(pending[i], now, pending[i].skill in links);
      }
      return true;
    }

    /** Reuses the existing record of every item that has a complete one; the others are pending. */
    method SplitItems(items: seq<Signature>, existing: map<Signature, Serial>)
      returns (reused: seq<Serial>, pending: seq<Signature>)
      requires forall s :: s in existing <==> HasComplete(dirs, s)
      ensures IsSplit(items, existing, reused, pending) && pending == Lacking(dirs, items)
    {
      hide HasComplete;
      reused, pending := [], [];
      for i := 0 to |items|
        invariant IsSplit(items[..i], existing, reused, pending) && pending == Lacking(dirs, items[..i])
      {
        assert items[..i + 1] == items[..i] + [items[i]] && items[..i + 1][..i] == items[..i];
        if items[i] in existing {
          reused := reused + [existing[items[i]]];
        } else {
          pending := pending + [items[i]];
        }
      }
      assert items[..|items|] == items;
    }

    /** Reuses or writes a record for every item and lists them. */
    method ListRecords(items: seq<Signature>, links: set<SkillId>, now: int, writes: nat)
      returns (listing: Option<seq<Serial>>, reused: nat)
      requires Valid() && (forall s :: s in items ==> IsDeletion(s)) && forall n :: n in dirs ==> dirs[n].mtime <= now
      modifies this
      ensures Valid() && index == old(index) && nextSerial >= old(nextSerial)
      ensures forall n :: n in dirs ==> dirs[n].mtime <= now
      ensures forall n :: n in old(dirs) ==> n in dirs && dirs[n] == old(dirs)[n]
      ensures forall x :: x in old(first) ==> x in first && first[x] == old(first)[x]
      ensures listing.Some? ==>
                IndexLists(listing.value, dirs, items) && reused + (nextSerial - old(nextSerial)) == |items|
      ensures (forall s :: s in items ==> HasComplete(old(dirs), s)) ==>
                nextSerial == old(nextSerial) && dirs == old(dirs)
      ensures listing.Some? && nextSerial == old(nextSerial) ==> forall s :: s in items ==> HasComplete(old(dirs), s)
      ensures listing.Some? <==> |Lacking(old(dirs), items)| <= writes
      ensures Written(old(dirs), old(nextSerial), dirs, Lacking(old(dirs), items), links, now,
                      if listing.Some? then |Lacking(old(dirs), items)| else writes)
    {
      hide EndsAreKept, Lacking, Written, Kept, IsDeletion, IndexLists, IsSplit, IsNewestComplete, HasComplete;
      ghost var before := dirs;
      var start := nextSerial;
      var existing := FindExisting();
      var reusedRecords, pending := SplitItems(items, existing);
      SplitParts(items, existing, reusedRecords, pending);
      PendingLackRecords(before, items, existing, reusedRecords, pending);
      var complete := WritePending(pending, links, now, writes);
      WrittenMeans(before, start, dirs, pending, links, now, nextSerial - start);
      reused := |reusedRecords|;
      if !complete { return None, reused; }
      var written := seq(|pending|, i requires 0 <= i < |pending| => Serial(start + i));
      NewIndexLists(before, dirs, items, existing, reusedRecords, pending, written, start, links, now);
      return Some(reusedRecords + written), reused;
    }

    /**
     Rebuilds the delete records of a status: reuse, write what is missing, publish the index, prune. Whatever
     fails on the way, every path in the index exists, and the first record ever written for a signature and
     the last one stay. No record is created exactly when every deletion has a complete one already. It succeeds if
     and only if the missing records and the index can be written and the redundant ones removed; `grown` is the
     store before anything is removed.
     */
    method Build(items: seq<Signature>, links: set<SkillId>, now: int, faults: BuildFaults)
      returns (r: Result<BuildReport, BuildError>, ghost grown: Dirs)
      requires Valid() && IndexExists() && (forall s :: s in items ==> IsDeletion(s)) && forall n :: n in dirs ==>
        dirs[n].mtime <= now
      modifies this
      ensures Valid() && IndexExists() && forall n :: n in dirs ==> dirs[n].mtime <= now
      ensures forall x :: x in old(first) ==> x in first && first[x] == old(first)[x]
      ensures r.Ok? ==> index.Some? && IndexLists(index.value, dirs, items)
      ensures r.Ok? ==> r.value.created == nextSerial - old(nextSerial) && r.value.reused + r.value.created == |items|
      ensures (forall s :: s in items ==> HasComplete(old(dirs), s)) ==>
                nextSerial == old(nextSerial) && forall n :: n in dirs ==> n in old(dirs) && dirs[n] == old(dirs)[n]
      ensures r.Ok? && nextSerial == old(nextSerial) ==> forall s :: s in items ==> HasComplete(old(dirs), s)
      ensures r == Err(RecordNotWritten) <==> faults.writes < |Lacking(old(dirs), items)|
      ensures r == Err(IndexNotWritten) <==> |Lacking(old(dirs), items)| <= faults.writes && faults.indexFails
      ensures r == Err(PruneInterrupted) <==>
                && |Lacking(old(dirs), items)| <= faults.writes && !faults.indexFails
                && index.Some? && faults.removals < |Redundant(grown, RefsOf(index.value), now)|
      ensures Written(old(dirs), old(nextSerial), grown, Lacking(old(dirs), items), links, now,
                      if r == Err(RecordNotWritten) then faults.writes else |Lacking(old(dirs), items)|)
      ensures r in {Err(RecordNotWritten), Err(IndexNotWritten)} ==> dirs == grown && index == old(index)
      ensures r.Ok? ==> dirs == Pruned(grown, RefsOf(index.value), now)
    {
      hide EndsAreKept, Kept, IsDeletion, IndexLists, HasComplete, Between, Pruned, Redundant, Lacking, Written;
      var start := nextSerial;
      var listing, reused := ListRecords(items, links, now, faults.writes);
      grown := dirs;
      if listing.None? { return Err(RecordNotWritten), grown; }
      if faults.indexFails { return Err(IndexNotWritten), grown; }
      ListedExist(listing.value, dirs, items);
      index := listing;
      var pruned := Prune(now, faults.removals);
      if pruned == Interrupted { return Err(PruneInterrupted), grown; }
      IndexSurvives(listing.value, grown, dirs, items);
      return Ok(BuildReport(reused, nextSerial - start)), grown;
    }

    /** A rebuild with an unchanged status creates no record, also when prunes run in between. */
    method BuildPruneRebuild(items: seq<Signature>, links: set<SkillId>, now: int, faults: BuildFaults,
                             pruneNow: int, removals: nat, later: int, laterFaults: BuildFaults)
      returns (built: Result<BuildReport, BuildError>, created: int)
      requires Valid() && IndexExists() && (forall s :: s in items ==> IsDeletion(s))
      requires (forall n :: n in dirs ==> dirs[n].mtime <= now) && now <= later
      modifies this
      ensures Valid() && IndexExists()
      ensures built.Ok? ==> created == 0
    {
      hide EndsAreKept, Kept, IsDeletion, Lacking, Redundant, Written, Pruned, Between;
      ghost var grown, regrown;
      built, grown := Build(items, links, now, faults);
      assert built.Ok? ==> forall s :: s in items ==> exists n :: n in index.value && Recorded(dirs, s, n);
      var pruned := Prune(pruneNow, removals);
      assert built.Ok? ==> forall s :: s in items ==> HasComplete(dirs, s);
      var start := nextSerial;
      var rebuilt;
      rebuilt, regrown := Build(items, links, later, laterFaults);
      created := nextSerial - start;
    }
  }

  datatype BuildFaults = BuildFaults(writes: nat, indexFails: bool, removals: nat)

  /** The items without a complete record. */
  ghost function Lacking(dirs: Dirs, items: seq<Signature>): seq<Signature> {
    if items == [] then []
    else
      var n := |items| - 1;
      Lacking(dirs, items[..n]) + (if HasComplete(dirs, items[n]) then [] else [items[n]])
  }

  lemma CountRemoved(before: set<Serial>, after: set<Serial>, removable: set<Serial>, remaining: set<Serial>)
    requires remaining <= removable <= before
    requires forall n :: n in after <==> n in before && (n in remaining || n !in removable)
    ensures |before - after| == |removable| - |remaining|
  {
    assert before - after == removable - remaining;
  }

  ghost predicate IsSplit(items: seq<Signature>, existing: map<Signature, Serial>, reused: seq<Serial>,
                          pending: seq<Signature>) {
    && |reused| + |pending| == |items|
    && (forall s :: s in items && s in existing ==> existing[s] in reused)
    && (forall s :: s in pending <==> s in items && s !in existing)
    && (forall n :: n in reused ==> exists s :: s in items && s in existing && existing[s] == n)
  }

  /** The index lists a complete record of every item and nothing else. */
  ghost predicate IndexLists(index: seq<Serial>, dirs: Dirs, items: seq<Signature>) {
    && (forall s :: s in items ==> exists n :: n in index && Recorded(dirs, s, n))
    && (forall n :: n in index ==> n in dirs && dirs[n].complete && dirs[n].sig in items)
  }

  lemma ListedExist(index: seq<Serial>, dirs: Dirs, items: seq<Signature>)
    requires IndexLists(index, dirs, items)
    ensures forall n :: n in index ==> n in dirs
  {
  }

  lemma IndexSurvives(index: seq<Serial>, dirs: Dirs, after: Dirs, items: seq<Signature>)
    requires IndexLists(index, dirs, items)
    requires forall n :: n in index ==> n in after
    requires forall n :: n in after ==> n in dirs && after[n] == dirs[n]
    ensures IndexLists(index, after, items)
  {
    forall s | s in items
      ensures exists n :: n in index && Recorded(after, s, n)
    {
      var n :| n in index && Recorded(dirs, s, n);
      assert Recorded(after, s, n);
    }
  }

  lemma WrittenMeans(before: Dirs, start: nat, dirs: Dirs, pending: seq<Signature>, links: set<SkillId>, now: int,
                     i: int)
    requires Written(before, start, dirs, pending, links, now, i)
    ensures forall n :: n in before ==> n in dirs && dirs[n] == before[n]
    ensures 0 <= i <= |pending| && (i == 0 ==> dirs == before)
    ensures (forall n :: n in before ==> before[n].mtime <= now) ==> forall n :: n in dirs ==> dirs[n].mtime <= now
  {
  }

  lemma SplitParts(items: seq<Signature>, existing: map<Signature, Serial>, reused: seq<Serial>,
                   pending: seq<Signature>)
    requires IsSplit(items, existing, reused, pending)
    ensures |reused| + |pending| == |items| && forall s :: s in pending ==> s in items
  {
  }

  lemma PendingLackRecords(dirs: Dirs, items: seq<Signature>, existing: map<Signature, Serial>, reused: seq<Serial>,
                           pending: seq<Signature>)
    requires IsSplit(items, existing, reused, pending)
    requires forall s :: s in existing <==> HasComplete(dirs, s)
    ensures pending == [] <==> forall s :: s in items ==> HasComplete(dirs, s)
  {
    if pending != [] {
      assert pending[0] in pending;
    }
  }

  lemma NewIndexLists(before: Dirs, dirs: Dirs, items: seq<Signature>, existing: map<Signature, Serial>,
                      reused: seq<Serial>,
                      pending: seq<Signature>, written: seq<Serial>, start: nat, links: set<SkillId>, now: int)
    requires IsSplit(items, existing, reused, pending)
    requires forall s :: s in existing ==> IsNewestComplete(before, s, existing[s])
    requires Written(before, start, dirs, pending, links, now, |pending|)
    requires |written| == |pending| && forall i :: 0 <= i < |written| ==> written[i] == Serial(start + i)
    ensures IndexLists(reused + written, dirs, items)
  {
    forall s | s in items
      ensures exists n :: n in reused + written && Recorded(dirs, s, n)
    {
      if s in existing {
        assert IsNewestComplete(before, s, existing[s]);
        assert existing[s] in reused + written && Recorded(dirs, s, existing[s]);
      } else {
        var i :| 0 <= i < |pending| && pending[i] == s;
        assert written[i] in reused + written && Recorded(dirs, s, Serial(start + i));
      }
    }
    forall n | n in reused + written
      ensures n in dirs && dirs[n].complete && dirs[n].sig in items
    {
      if n in written {
        var i :| 0 <= i < |written| && written[i] == n;
        assert pending[i] in pending && dirs[Serial(start + i)].sig == pending[i];
      } else {
        var s :| s in items && s in existing && existing[s] == n;
        assert IsNewestComplete(before, s, n);
      }
    }
  }

  /** The first `i` pending records are in the store, beside everything that was there. */
  ghost predicate Written(before: Dirs, start: nat, dirs: Dirs, pending: seq<Signature>, links: set<SkillId>,
                          now: int, i: int) {
    && 0 <= i <= |pending|
    && (forall n :: n in before ==> n.number < start && n in dirs && dirs[n] == before[n])
    && (forall n: Serial :: start <= n.number < start + i ==>
          && n in dirs
          && dirs[n] == Record(pending[n.number - start], now, true, pending[n.number - start].skill in links))
    && (forall n :: n in dirs && n !in before ==> start <= n.number < start + i)
  }

  lemma NothingWritten(dirs: Dirs, start: nat, pending: seq<Signature>, links: set<SkillId>, now: int)
    requires forall n :: n in dirs ==> n.number < start
    ensures Written(dirs, start, dirs, pending, links, now, 0)
  {
  }

  lemma OneMoreWritten(before: Dirs, start: nat, dirs: Dirs, pending: seq<Signature>, links: set<SkillId>,
                       now: int, i: nat)
    requires Written(before, start, dirs, pending, links, now, i) && i < |pending|
    ensures Written(before, start,
      dirs[Serial(start + i) := Record(pending[i], now, true, pending[i].skill in links)], pending, links, now, i + 1)
  {
  }

  ghost predicate Recorded(dirs: Dirs, s: Signature, n: Serial) {
    n in dirs && dirs[n].sig == s && dirs[n].complete
  }

  ghost predicate IsNewestComplete(dirs: Dirs, s: Signature, n: Serial) {
    && n in dirs && dirs[n].complete && dirs[n].sig == s
    && forall m :: m in dirs && dirs[m].complete && dirs[m].sig == s ==> dirs[m].mtime <= dirs[n].mtime
  }

  function RefsOf(index: seq<Serial>): set<Serial> {
    set n | n in index
  }

  lemma PruneOnlyRemoves(dirs: Dirs, refs: set<Serial>, now: int, after: Dirs)
    requires Between(dirs, refs, now, after)
    ensures forall n :: n in after ==> n in dirs && after[n] == dirs[n]
  {
  }

  lemma PruneKeepsReferences(dirs: Dirs, refs: set<Serial>, now: int, after: Dirs)
    requires Between(dirs, refs, now, after)
    ensures forall n :: n in refs && n in dirs ==> n in after
  {
  }

  lemma RemovalIsBetween(dirs: Dirs, refs: set<Serial>, now: int, removable: set<Serial>, after: Dirs)
    requires removable == Redundant(dirs, refs, now)
    requires forall n :: n in after ==> n in dirs && after[n] == dirs[n]
    requires forall n :: n in dirs && n !in removable ==> n in after
    ensures Between(dirs, refs, now, after)
    ensures (forall n :: n in removable ==> n !in after) ==>
      after == Pruned(dirs, refs, now) && removable == dirs.Keys - after.Keys
  {
    hide Kept;
  }

  lemma PruneKeepsValid(dirs: Dirs, refs: set<Serial>, now: int, after: Dirs, first: map<Signature, Serial>,
                        last: map<Signature, Serial>)
    requires Between(dirs, refs, now, after) && EndsAreKept(dirs, first, last)
    ensures EndsAreKept(after, first, last)
  {
    hide IsFirst, IsLast, Kept;
    forall n | n in dirs {
      PartialPruneKeepsEnds(dirs, refs, now, after, n);
    }
  }

  function GroupOf(dirs: Dirs, s: Signature): set<Serial> {
    set n | n in dirs && dirs[n].sig == s
  }

  ghost predicate IsSortedGroup(dirs: Dirs, s: Signature, group: seq<Serial>) {
    && (forall n :: n in group <==> n in GroupOf(dirs, s))
    && (forall i :: 0 <= i < |group| ==> group[i] in dirs)
    && (forall i, j :: 0 <= i < j < |group| ==> Earlier(dirs, group[i], group[j]))
  }

  /** The ends of a sorted group are its first and its last record. */
  lemma EndsOfGroup(dirs: Dirs, s: Signature, group: seq<Serial>, i: nat)
    requires IsSortedGroup(dirs, s, group) && i < |group|
    ensures IsFirst(dirs, group[i]) <==> group[i] == group[0]
    ensures IsLast(dirs, group[i]) <==> group[i] == group[|group| - 1]
  {
    var n, final := group[i], |group| - 1;
    forall j | 0 <= j < |group|
      ensures dirs[group[j]].sig == s
    {
      assert group[j] in group && group[j] in GroupOf(dirs, s);
    }
    assert i != 0 ==> Earlier(dirs, group[0], n);
    assert i != final ==> Earlier(dirs, n, group[final]);
    forall m | m in dirs && m != n && dirs[m].sig == dirs[n].sig
      ensures i == 0 ==> Earlier(dirs, n, m)
      ensures i == final ==> Earlier(dirs, m, n)
    {
      assert m in GroupOf(dirs, s) && m in group;
    }
  }
}
